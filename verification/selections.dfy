/** Toggling a value in an insertion-ordered selection, as a JavaScript `Set` does with
    `delete` and `add`, and as an array does with `filter` and spreading. */
module Selections {
  import opened Seqs

  function Toggle(s: seq<string>, v: string): (r: seq<string>)
    // the value's membership flips; every other value keeps its membership
    ensures v in r <==> v !in s
    ensures forall y :: y != v ==> (y in r <==> y in s)
    // a new value goes last
    ensures v !in s ==> r == s + [v]
  {
    if v in s then RemoveAll(s, v) else s + [v]
  }

  /** Without repeats in, none out; the length changes by one. */
  lemma ToggleDistinct(s: seq<string>, v: string)
    requires Distinct(s)
    ensures Distinct(Toggle(s, v))
    ensures |Toggle(s, v)| == if v in s then |s| - 1 else |s| + 1
  {
    if v in s {
      RemoveAllDistinct(s, v);
    } else {
      var r := s + [v];
      forall i, j | 0 <= i < j < |r| ensures r[i] != r[j] {
        if j == |s| {
          assert r[i] == s[i];
        }
      }
    }
  }

  /** Toggling twice restores the selection: exactly when the value was not selected,
      and up to its position (the value goes last) when it was. */
  lemma ToggleTwice(s: seq<string>, v: string)
    requires Distinct(s)
    ensures v !in s ==> Toggle(Toggle(s, v), v) == s
    ensures v in s ==> Toggle(Toggle(s, v), v) == RemoveAll(s, v) + [v]
    ensures forall y :: y in Toggle(Toggle(s, v), v) <==> y in s
    ensures |Toggle(Toggle(s, v), v)| == |s|
  {
    ToggleDistinct(s, v);
    ToggleDistinct(Toggle(s, v), v);
    if v !in s {
      RemoveAllConcat(s, [v], v);
      RemoveAllAbsent(s, v);
      assert RemoveAll([v], v) == [];
    }
  }
}
