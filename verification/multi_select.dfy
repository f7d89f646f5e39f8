/** The multi-select of frontend/app/components/ui/multi-select.tsx: the selection is an
    insertion-ordered set, seeded from `values ?? defaultValues` and toggled by the
    items and badges; when `values` is given it is what the component shows. */
module MultiSelect {
  import opened Seqs
  import Selections

  /** `values` is the controlled selection (`None` when not given), `internal` the state
      the component keeps, `items` the badge label registered per value. */
  datatype Component = Component(values: Option<seq<string>>, internal: seq<string>, items: map<string, string>)

  /** `new Set(xs)`: the first occurrence of each element, in order. */
  function Dedupe(xs: seq<string>): (r: seq<string>)
    ensures Distinct(r) && |r| <= |xs|
    ensures forall x :: x in r <==> x in xs
    decreases |xs|
  {
    if |xs| == 0 then []
    else
      var d := Dedupe(xs[..|xs| - 1]);
      var x := xs[|xs| - 1];
      assert forall y :: y in xs <==> y in xs[..|xs| - 1] || y == x;
      if x in d then d
      else
        Selections.ToggleDistinct(d, x);
        d + [x]
  }

  /** A list without repeats is its own set. */
  lemma {:induction false} DedupeDistinct(xs: seq<string>)
    requires Distinct(xs)
    ensures Dedupe(xs) == xs
    decreases |xs|
  {
    if |xs| > 0 {
      var init := xs[..|xs| - 1];
      assert Distinct(init);
      DedupeDistinct(init);
      assert xs[|xs| - 1] !in init;
      assert init + [xs[|xs| - 1]] == xs;
    }
  }

  /** The first render: the state is the set of `values ?? defaultValues`, empty when
      both are missing. */
  function Mount(values: Option<seq<string>>, defaultValues: Option<seq<string>>): (c: Component)
    ensures c.values == values && c.items == map[]
    ensures values.Some? ==> c.internal == Dedupe(values.value)
    ensures values.None? && defaultValues.Some? ==> c.internal == Dedupe(defaultValues.value)
    ensures values.None? && defaultValues.None? ==> c.internal == []
  {
    var seed := if values.Some? then values.value else if defaultValues.Some? then defaultValues.value else [];
    Component(values, Dedupe(seed), map[])
  }

  /** The selection handed to the children: the set of `values` whenever it is given
      (an empty array included), the internal state otherwise. */
  function Shown(c: Component): (s: seq<string>)
    ensures Distinct(s)
    ensures c.values.Some? ==> forall x :: x in s <==> x in c.values.value
  {
    if c.values.Some? then Dedupe(c.values.value) else Dedupe(c.internal)
  }

  predicate Valid(c: Component)
  {
    Distinct(c.internal)
  }

  /** What a toggle leaves: the component, and the list passed to `onValuesChange`. */
  datatype Toggled = Toggled(next: Component, reported: seq<string>)

  /** `toggleValue` as written: both the new state and the reported list toggle the
      internal state, also when `values` controls what is shown. */
  function ToggleValueAsWritten(c: Component, v: string): (r: Toggled)
    requires Valid(c)
    ensures Valid(r.next) && r.reported == r.next.internal
    ensures r.next.internal == Selections.Toggle(c.internal, v)
  {
    Selections.ToggleDistinct(c.internal, v);
    var t := Selections.Toggle(c.internal, v);
    Toggled(c.(internal := t), t)
  }

  /** `toggleValue` reporting the toggle of what is shown. */
  function ToggleValue(c: Component, v: string): (r: Toggled)
    requires Valid(c)
    ensures Valid(r.next) && r.next.internal == Selections.Toggle(c.internal, v)
    // the reported list is what is shown with the value's membership flipped
    ensures v in r.reported <==> v !in Shown(c)
    ensures forall y :: y != v ==> (y in r.reported <==> y in Shown(c))
    ensures Distinct(r.reported)
  {
    Selections.ToggleDistinct(c.internal, v);
    Selections.ToggleDistinct(Shown(c), v);
    Toggled(c.(internal := Selections.Toggle(c.internal, v)), Selections.Toggle(Shown(c), v))
  }

  /** Uncontrolled, or controlled with a state that still mirrors `values`, the two
      agree. */
  lemma ToggleAgreesInSync(c: Component, v: string)
    requires Valid(c) && (c.values.None? || c.internal == Dedupe(c.values.value))
    ensures ToggleValue(c, v) == ToggleValueAsWritten(c, v)
  {
    DedupeDistinct(c.internal);
  }

  /** Once the parent changes `values` on its own, clicking the badge of a shown value
      reports that value as still selected. */
  lemma ControlledToggleKeepsShownValue()
    ensures var c := Component(Some(["a", "b"]), ["a"], map["a" := "A", "b" := "B"]);
      && "b" in Shown(c)
      && "b" in ToggleValueAsWritten(c, "b").reported
      && "b" !in ToggleValue(c, "b").reported
  {
    var c := Component(Some(["a", "b"]), ["a"], map["a" := "A", "b" := "B"]);
    assert "b" in c.values.value;
    assert "b" !in c.internal;
  }

  /** `onItemAdded`: the value's badge label is (re)registered; the map is kept as it is
      when the label is already there. The source compares `ReactNode` labels by
      reference (`===`); captions here are strings compared by value. */
  function OnItemAdded(c: Component, value: string, caption: string): (r: Component)
    ensures r.values == c.values && r.internal == c.internal
    ensures value in r.items && r.items[value] == caption
    ensures r.items.Keys == c.items.Keys + {value}
    ensures forall k :: k in c.items && k != value ==> r.items[k] == c.items[k]
    ensures value in c.items && c.items[value] == caption ==> r == c
  {
    if value in c.items && c.items[value] == caption then c else c.(items := c.items[value := caption])
  }

  /** The badges: the shown values that have a registered label, in selection order. */
  function Badges(c: Component): (bs: seq<string>)
    ensures forall x :: x in bs <==> x in Shown(c) && x in c.items
  {
    Filter(Shown(c), c.items.Keys)
  }

  function Filter(s: seq<string>, keep: set<string>): (r: seq<string>)
    ensures forall x :: x in r <==> x in s && x in keep
    ensures |r| <= |s|
  {
    if |s| == 0 then []
    else (if s[0] in keep then [s[0]] else []) + Filter(s[1..], keep)
  }

  /** The placeholder replaces the badges exactly when nothing is shown and a non-empty
      placeholder is given. */
  predicate ShowsPlaceholder(c: Component, placeholder: Option<string>)
  {
    |Shown(c)| == 0 && placeholder.Some? && placeholder.value != ""
  }

  /** An item's check mark. */
  predicate IsChecked(c: Component, value: string)
  {
    value in Shown(c)
  }

  /** Selecting an item and then its badge leaves the shown selection as it was, in the
      uncontrolled component; the item's check mark flips and flips back. */
  lemma ItemThenBadge(c: Component, v: string)
    requires Valid(c) && c.values.None?
    ensures var once := ToggleValue(c, v).next;
      && (IsChecked(once, v) <==> !IsChecked(c, v))
      && (forall y :: y in Shown(ToggleValue(once, v).next) <==> y in Shown(c))
      && (v !in c.internal ==> Shown(ToggleValue(once, v).next) == Shown(c))
  {
    DedupeDistinct(c.internal);
    Selections.ToggleDistinct(c.internal, v);
    DedupeDistinct(Selections.Toggle(c.internal, v));
    Selections.ToggleTwice(c.internal, v);
    Selections.ToggleDistinct(Selections.Toggle(c.internal, v), v);
    DedupeDistinct(Selections.Toggle(Selections.Toggle(c.internal, v), v));
  }

  /** With nothing selected, the placeholder shows iff one is given and non-empty; a
      selected value without a registered label gets no badge. */
  lemma PlaceholderAndBadges(c: Component, placeholder: string, v: string)
    requires c.values == Some([])
    ensures ShowsPlaceholder(c, Some(placeholder)) <==> placeholder != ""
    ensures !ShowsPlaceholder(c, None)
    ensures v !in Badges(c)
  {
  }
}
