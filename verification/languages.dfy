/** The de-duplication of supported languages in backend/app/services/translation.py
    (`DeepLTranslationService.get_supported_languages`): entries of the translation
    service's language list are kept when their name is non-empty and not seen yet,
    as `{code: language.lower(), name}`. */
module Languages {
  import opened Seqs

  /** One entry of the service's list; `None` is a missing field (a present but null
      `language` is not modelled: the source raises on it). */
  datatype Entry = Entry(name: Option<string>, language: Option<string>)

  datatype Language = Language(code: string, name: string)

  /** `language.get("name", "")`. */
  function NameOf(e: Entry): string
  {
    if e.name.Some? then e.name.value else ""
  }

  function LowerChar(c: char): (l: char)
    ensures 'A' <= c <= 'Z' ==> l as int == c as int + 32
    ensures !('A' <= c <= 'Z') ==> l == c
  {
    if 'A' <= c <= 'Z' then (c as int + 32) as char else c
  }

  /** `str.lower()` on ASCII letters. */
  function Lower(s: string): (r: string)
    ensures |r| == |s| && forall i :: 0 <= i < |s| ==> r[i] == LowerChar(s[i])
  {
    if |s| == 0 then "" else [LowerChar(s[0])] + Lower(s[1..])
  }

  function Convert(e: Entry): (l: Language)
    ensures l.name == NameOf(e)
    ensures l.code == Lower(if e.language.Some? then e.language.value else "")
  {
    Language(Lower(if e.language.Some? then e.language.value else ""), NameOf(e))
  }

  /** The index of the first entry with the given name, or `|entries|`. */
  function FirstIndex(entries: seq<Entry>, name: string): (k: nat)
    ensures k <= |entries|
    ensures k < |entries| ==> NameOf(entries[k]) == name
  {
    if |entries| == 0 then 0
    else if NameOf(entries[0]) == name then 0
    else 1 + FirstIndex(entries[1..], name)
  }

  /** No entry before the first index has the name. */
  lemma {:induction false} FirstIndexIsFirst(entries: seq<Entry>, name: string, i: nat)
    requires i < FirstIndex(entries, name)
    ensures NameOf(entries[i]) != name
    decreases |entries|
  {
    if i > 0 {
      FirstIndexIsFirst(entries[1..], name, i - 1);
    }
  }

  predicate NamesNonEmpty(languages: seq<Language>)
  {
    forall j :: 0 <= j < |languages| ==> languages[j].name != ""
  }

  predicate NamesDistinct(languages: seq<Language>)
  {
    forall j, k :: 0 <= j < k < |languages| ==> languages[j].name != languages[k].name
  }

  /** Each language is the conversion of the first entry with its name, found before `bound`. */
  predicate FromFirst(entries: seq<Entry>, languages: seq<Language>, bound: nat)
  {
    && bound <= |entries|
    && forall j :: 0 <= j < |languages| ==>
         FirstIndex(entries, languages[j].name) < bound
         && languages[j] == Convert(entries[FirstIndex(entries, languages[j].name)])
  }

  /** The languages appear in the order of their first entries. */
  predicate InFirstOrder(entries: seq<Entry>, languages: seq<Language>)
  {
    forall j, k :: 0 <= j < k < |languages| ==>
      FirstIndex(entries, languages[j].name) < FirstIndex(entries, languages[k].name)
  }

  /** Distinct, non-empty names, each from its first entry, in first-occurrence order. */
  predicate FirstOccurrences(entries: seq<Entry>, languages: seq<Language>, bound: nat)
  {
    && NamesNonEmpty(languages) && NamesDistinct(languages)
    && FromFirst(entries, languages, bound) && InFirstOrder(entries, languages)
  }

  /** `seen` is the set of the kept names. */
  ghost predicate SeenIsNames(languages: seq<Language>, seen: set<string>)
  {
    forall n :: n in seen <==> exists j :: 0 <= j < |languages| && languages[j].name == n
  }

  /** What the loop keeps after `i` entries. */
  ghost predicate Scanned(entries: seq<Entry>, i: nat, languages: seq<Language>, seen: set<string>)
  {
    && i <= |entries| && |languages| <= i
    && SeenIsNames(languages, seen)
    && (forall k :: 0 <= k < i && NameOf(entries[k]) != "" ==> NameOf(entries[k]) in seen)
    && FirstOccurrences(entries, languages, i)
  }

  predicate NoneNew(e: Entry, seen: set<string>)
  {
    NameOf(e) == "" || NameOf(e) in seen
  }

  /** An entry whose name is empty or already seen changes nothing. */
  lemma ScanSkip(entries: seq<Entry>, i: nat, languages: seq<Language>, seen: set<string>)
    requires Scanned(entries, i, languages, seen) && i < |entries|
    requires NoneNew(entries[i], seen)
    ensures Scanned(entries, i + 1, languages, seen)
  {
  }

  lemma SeenAdd(languages: seq<Language>, seen: set<string>, l: Language)
    requires SeenIsNames(languages, seen)
    ensures SeenIsNames(languages + [l], seen + {l.name})
  {
    var ls := languages + [l];
    assert ls[|languages|].name == l.name;
    forall n
      ensures n in seen + {l.name} <==> exists j :: 0 <= j < |ls| && ls[j].name == n
    {
      if n in seen {
        var j :| 0 <= j < |languages| && languages[j].name == n;
        assert ls[j].name == n;
      }
    }
  }

  lemma DistinctAdd(languages: seq<Language>, seen: set<string>, l: Language)
    requires SeenIsNames(languages, seen) && NamesDistinct(languages) && l.name !in seen
    ensures NamesDistinct(languages + [l])
  {
    var ls := languages + [l];
    forall j, k | 0 <= j < k < |ls|
      ensures ls[j].name != ls[k].name
    {
      assert ls[j] == languages[j];
      if k < |languages| {
        assert ls[k] == languages[k];
      }
    }
  }

  lemma FromFirstAdd(entries: seq<Entry>, languages: seq<Language>, i: nat)
    requires i < |entries| && FromFirst(entries, languages, i)
    requires FirstIndex(entries, NameOf(entries[i])) == i
    ensures FromFirst(entries, languages + [Convert(entries[i])], i + 1)
  {
    var ls := languages + [Convert(entries[i])];
    forall j | 0 <= j < |ls|
      ensures FirstIndex(entries, ls[j].name) < i + 1
      ensures ls[j] == Convert(entries[FirstIndex(entries, ls[j].name)])
    {
      if j < |languages| {
        assert ls[j] == languages[j];
      }
    }
  }

  lemma OrderAdd(entries: seq<Entry>, languages: seq<Language>, i: nat)
    requires i < |entries| && FromFirst(entries, languages, i) && InFirstOrder(entries, languages)
    requires FirstIndex(entries, NameOf(entries[i])) == i
    ensures InFirstOrder(entries, languages + [Convert(entries[i])])
  {
    var ls := languages + [Convert(entries[i])];
    forall j, k | 0 <= j < k < |ls|
      ensures FirstIndex(entries, ls[j].name) < FirstIndex(entries, ls[k].name)
    {
      assert ls[j] == languages[j];
      if k < |languages| {
        assert ls[k] == languages[k];
      }
    }
  }

  /** The first entry with a new name is appended as its language. */
  lemma ScanAdd(entries: seq<Entry>, i: nat, languages: seq<Language>, seen: set<string>)
    requires Scanned(entries, i, languages, seen) && i < |entries|
    requires !NoneNew(entries[i], seen)
    ensures Scanned(entries, i + 1, languages + [Convert(entries[i])], seen + {NameOf(entries[i])})
  {
    var name := NameOf(entries[i]);
    assert FirstIndex(entries, name) == i by {
      var f := FirstIndex(entries, name);
      if f > i {
        FirstIndexIsFirst(entries, name, i);
      }
    }
    var l := Convert(entries[i]);
    SeenAdd(languages, seen, l);
    DistinctAdd(languages, seen, l);
    FromFirstAdd(entries, languages, i);
    OrderAdd(entries, languages, i);
    assert NamesNonEmpty(languages + [l]) by {
      assert forall j :: 0 <= j < |languages| ==> (languages + [l])[j] == languages[j];
    }
  }

  /** The loop over the response, with `seen_names` as a set. */
  method SupportedLanguages(entries: seq<Entry>) returns (languages: seq<Language>)
    ensures |languages| <= |entries|
    // names are non-empty and pairwise distinct, each from its first entry, in first-occurrence order
    ensures FirstOccurrences(entries, languages, |entries|)
    // every non-empty name is in the result
    ensures forall i :: 0 <= i < |entries| && NameOf(entries[i]) != "" ==>
              exists j :: 0 <= j < |languages| && languages[j].name == NameOf(entries[i])
  {
    var seen: set<string> := {};
    languages := [];
    var i := 0;
    while i < |entries|
      invariant Scanned(entries, i, languages, seen)
    {
      var name := NameOf(entries[i]);
      if name != "" && name !in seen {
        ScanAdd(entries, i, languages, seen);
        languages := languages + [Convert(entries[i])];
        seen := seen + {name};
      } else {
        ScanSkip(entries, i, languages, seen);
      }
      i := i + 1;
    }
  }
}
