/** The language picker of rr-frontend/app/components/LanguageCombobox.tsx: an item is
    selected by its label, which is mapped back to the first option with that label;
    the value is toggled in the list passed to `onChange` and the popover closes. */
module LanguageCombobox {
  import opened Seqs
  import Selections

  datatype Language = Language(code: string, name: string)

  /** An option: the language's code and, as its label, its name. */
  datatype Item = Item(value: string, caption: string)

  const Placeholder: string := "Select language..."

  function Options(languages: seq<Language>): (items: seq<Item>)
    ensures |items| == |languages|
    ensures forall i :: 0 <= i < |items| ==> items[i] == Item(languages[i].code, languages[i].name)
  {
    seq(|languages|, i requires 0 <= i < |languages| => Item(languages[i].code, languages[i].name))
  }

  /** `find` by label, then `?.value`. */
  function ValueOfLabel(items: seq<Item>, caption: string): (v: Option<string>)
    ensures v.None? <==> forall i :: 0 <= i < |items| ==> items[i].caption != caption
    ensures v.Some? ==> exists i :: 0 <= i < |items| && items[i] == Item(v.value, caption)
                                    && forall j :: 0 <= j < i ==> items[j].caption != caption
  {
    if |items| == 0 then None
    else if items[0].caption == caption then Some(items[0].value)
    else
      var v := ValueOfLabel(items[1..], caption);
      assert forall j :: 1 <= j < |items| ==> items[j] == items[1..][j - 1];
      v
  }

  /** `find` by value, then `?.label`. */
  function LabelOfValue(items: seq<Item>, value: string): (l: Option<string>)
    ensures l.None? <==> forall i :: 0 <= i < |items| ==> items[i].value != value
    ensures l.Some? ==> exists i :: 0 <= i < |items| && items[i] == Item(value, l.value)
                                    && forall j :: 0 <= j < i ==> items[j].value != value
  {
    if |items| == 0 then None
    else if items[0].value == value then Some(items[0].caption)
    else
      var l := LabelOfValue(items[1..], value);
      assert forall j :: 1 <= j < |items| ==> items[j] == items[1..][j - 1];
      l
  }

  /** What a selection does: the list passed to `onChange`, if any, and whether the
      popover is open afterwards. */
  datatype Selected = Selected(onChange: Option<seq<string>>, open: bool)

  /** `onSelect`: an unknown label, or one whose option has the empty code (which `!`
      rejects), does nothing; otherwise the value is toggled and the popover closes. */
  function OnSelect(items: seq<Item>, values: seq<string>, open: bool, caption: string): (r: Selected)
    ensures ValueOfLabel(items, caption).None? ==> r == Selected(None, open)
    ensures ValueOfLabel(items, caption) == Some("") ==> r == Selected(None, open)
    ensures var v := ValueOfLabel(items, caption);
      v.Some? && v.value != "" ==> r == Selected(Some(Selections.Toggle(values, v.value)), false)
  {
    var v := ValueOfLabel(items, caption);
    if v.None? || v.value == "" then Selected(None, open)
    else Selected(Some(Selections.Toggle(values, v.value)), false)
  }

  /** The trigger's label per selected value; a value without an option gives
      `undefined`, which `join` prints as the empty string. */
  function Labels(items: seq<Item>, values: seq<string>): (ls: seq<string>)
    ensures |ls| == |values|
    ensures forall i :: 0 <= i < |values| ==>
              ls[i] == (var l := LabelOfValue(items, values[i]); if l.Some? then l.value else "")
  {
    seq(|values|, i requires 0 <= i < |values| =>
      var l := LabelOfValue(items, values[i]); if l.Some? then l.value else "")
  }

  function TriggerText(items: seq<Item>, values: seq<string>): string
  {
    if |values| > 0 then Join(Labels(items, values), ", ") else Placeholder
  }

  /** Selecting an unselected language and then the same one again gives back the list
      the parent started from, and the popover is closed after each. */
  lemma SelectTwice(items: seq<Item>, values: seq<string>, open: bool, caption: string)
    requires Distinct(values)
    requires var v := ValueOfLabel(items, caption); v.Some? && v.value != "" && v.value !in values
    ensures var first := OnSelect(items, values, open, caption);
      && first.onChange.Some? && !first.open
      && OnSelect(items, first.onChange.value, first.open, caption) == Selected(Some(values), false)
  {
    Selections.ToggleTwice(values, ValueOfLabel(items, caption).value);
  }

  /** The trigger shows the placeholder for an empty list, the option's label for one
      known value, and nothing for one unknown value. */
  lemma TriggerTexts(items: seq<Item>, v: string)
    ensures TriggerText(items, []) == Placeholder
    ensures LabelOfValue(items, v).Some? ==> TriggerText(items, [v]) == LabelOfValue(items, v).value
    ensures LabelOfValue(items, v).None? ==> TriggerText(items, [v]) == ""
  {
  }
}
