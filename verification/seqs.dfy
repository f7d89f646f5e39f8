/** Sequence helpers shared by the audio and text models: flattening a list of
    blocks, suffixes, and joining strings with a separator. */
module Seqs {

  datatype Option<+T> = None | Some(value: T)

  /** In-order concatenation of a list of blocks. */
  function Flatten<T>(blocks: seq<seq<T>>): seq<T>
  {
    if |blocks| == 0 then [] else Flatten(blocks[..|blocks| - 1]) + blocks[|blocks| - 1]
  }

  /** Total number of elements of a list of blocks. */
  function TotalLength<T>(blocks: seq<seq<T>>): nat
  {
    if |blocks| == 0 then 0 else TotalLength(blocks[..|blocks| - 1]) + |blocks[|blocks| - 1]|
  }

  lemma {:induction false} FlattenLength<T>(blocks: seq<seq<T>>)
    ensures |Flatten(blocks)| == TotalLength(blocks)
  {
    if |blocks| > 0 {
      FlattenLength(blocks[..|blocks| - 1]);
    }
  }

  lemma {:induction false} FlattenAppend<T>(xs: seq<seq<T>>, ys: seq<seq<T>>)
    ensures Flatten(xs + ys) == Flatten(xs) + Flatten(ys)
    decreases |ys|
  {
    if |ys| == 0 {
      assert xs + ys == xs;
    } else {
      var ys' := ys[..|ys| - 1];
      assert (xs + ys)[..|xs + ys| - 1] == xs + ys';
      FlattenAppend(xs, ys');
    }
  }

  lemma Assoc<T>(a: seq<T>, b: seq<T>, c: seq<T>)
    ensures a + (b + c) == (a + b) + c
  {
  }

  /** Regrouping a concatenation: if `x + y` is `p + i`, appending both to `f` agrees. */
  lemma Regroup<T>(f: seq<T>, x: seq<T>, y: seq<T>, p: seq<T>, i: seq<T>)
    requires x + y == p + i
    ensures f + x + y == (f + p) + i
  {
    assert f + x + y == f + (x + y);
  }

  lemma FlattenSingle<T>(x: seq<T>)
    ensures Flatten([x]) == x
  {
    assert [x][..0] == [];
  }

  /** Every block has exactly `n` elements. */
  predicate AllOfLength<T>(blocks: seq<seq<T>>, n: nat)
  {
    forall i :: 0 <= i < |blocks| ==> |blocks[i]| == n
  }

  lemma AllOfLengthAppend<T>(xs: seq<seq<T>>, ys: seq<seq<T>>, n: nat)
    requires AllOfLength(xs, n) && AllOfLength(ys, n)
    ensures AllOfLength(xs + ys, n)
  {
    forall i | 0 <= i < |xs + ys|
      ensures |(xs + ys)[i]| == n
    {
      if i >= |xs| {
        assert (xs + ys)[i] == ys[i - |xs|];
      }
    }
  }

  /** Blocks all of length `n` flatten to `n` elements per block. */
  lemma {:induction false} FlattenUniform<T>(blocks: seq<seq<T>>, n: nat)
    requires AllOfLength(blocks, n)
    ensures |Flatten(blocks)| == |blocks| * n
  {
    if |blocks| > 0 {
      var k := |blocks| - 1;
      FlattenUniform(blocks[..k], n);
      assert (k + 1) * n == k * n + n;
    }
  }

  predicate IsSuffix<T(==)>(s: seq<T>, of: seq<T>)
  {
    |s| <= |of| && of[|of| - |s|..] == s
  }

  predicate IsPrefix<T(==)>(s: seq<T>, of: seq<T>)
  {
    |s| <= |of| && of[..|s|] == s
  }

  lemma SuffixTransitive<T>(a: seq<T>, b: seq<T>, c: seq<T>)
    requires IsSuffix(a, b) && IsSuffix(b, c)
    ensures IsSuffix(a, c)
  {
    assert c[|c| - |a|..] == c[|c| - |b|..][|b| - |a|..];
  }

  lemma PrefixTransitive<T>(a: seq<T>, b: seq<T>, c: seq<T>)
    requires IsPrefix(a, b) && IsPrefix(b, c)
    ensures IsPrefix(a, c)
  {
    assert c[..|a|] == c[..|b|][..|a|];
  }

  lemma SuffixExtend<T>(a: seq<T>, b: seq<T>, x: seq<T>)
    requires IsSuffix(a, b)
    ensures IsSuffix(a + x, b + x)
  {
    assert (b + x)[|b + x| - |a + x|..] == b[|b| - |a|..] + x;
  }

  /** Strings joined with `sep` between consecutive elements, like
      JavaScript's `Array.prototype.join` and Python's `str.join`. */
  function Join(parts: seq<string>, sep: string): string
  {
    if |parts| == 0 then ""
    else if |parts| == 1 then parts[0]
    else parts[0] + sep + Join(parts[1..], sep)
  }

  predicate Avoids(s: string, c: char)
  {
    forall i :: 0 <= i < |s| ==> s[i] != c
  }

  /** Pieces of `s` between the occurrences of `sep`, like `str.split` in Python and
      `String.prototype.split` in JavaScript with a one-character separator. */
  function Split(s: string, sep: char): (parts: seq<string>)
    ensures |parts| >= 1
    decreases |s|
  {
    if |s| == 0 then [""]
    else if s[0] == sep then [""] + Split(s[1..], sep)
    else var rest := Split(s[1..], sep); [[s[0]] + rest[0]] + rest[1..]
  }

  lemma {:induction false} SplitAvoiding(s: string, sep: char)
    requires Avoids(s, sep)
    ensures Split(s, sep) == [s]
    decreases |s|
  {
    if |s| > 0 {
      SplitAvoiding(s[1..], sep);
      assert [s[0]] + s[1..] == s;
    }
  }

  /** Splitting at a separator splits the pieces there. */
  lemma {:induction false} SplitAppend(a: string, sep: char, b: string)
    requires Avoids(a, sep)
    ensures Split(a + [sep] + b, sep) == [a] + Split(b, sep)
    decreases |a|
  {
    if |a| == 0 {
      assert a + [sep] + b == [sep] + b;
      assert ([sep] + b)[1..] == b;
    } else {
      assert (a + [sep] + b)[0] == a[0];
      assert (a + [sep] + b)[1..] == a[1..] + [sep] + b;
      SplitAppend(a[1..], sep, b);
      assert [a[0]] + a[1..] == a;
    }
  }

  /** Splitting undoes joining, when no part holds the separator. */
  lemma {:induction false} SplitJoin(parts: seq<string>, sep: char)
    requires |parts| > 0
    requires forall i :: 0 <= i < |parts| ==> Avoids(parts[i], sep)
    ensures Split(Join(parts, [sep]), sep) == parts
    decreases |parts|
  {
    if |parts| == 1 {
      SplitAvoiding(parts[0], sep);
    } else {
      SplitJoin(parts[1..], sep);
      SplitAppend(parts[0], sep, Join(parts[1..], [sep]));
      assert [parts[0]] + parts[1..] == parts;
    }
  }

  /** The sequence without every occurrence of `x`. */
  function RemoveAll<T(==,!new)>(s: seq<T>, x: T): (r: seq<T>)
    ensures x !in r
    ensures forall y :: y != x ==> (y in r <==> y in s)
    ensures |r| <= |s|
  {
    if |s| == 0 then []
    else if s[0] == x then RemoveAll(s[1..], x)
    else [s[0]] + RemoveAll(s[1..], x)
  }

  predicate Distinct<T(==)>(s: seq<T>)
  {
    forall i, j :: 0 <= i < j < |s| ==> s[i] != s[j]
  }

  lemma {:induction false} RemoveAllAbsent<T(!new)>(s: seq<T>, x: T)
    requires x !in s
    ensures RemoveAll(s, x) == s
    decreases |s|
  {
    if |s| > 0 {
      RemoveAllAbsent(s[1..], x);
      assert [s[0]] + s[1..] == s;
    }
  }

  /** Removing distributes over concatenation. */
  lemma {:induction false} RemoveAllConcat<T(!new)>(s: seq<T>, t: seq<T>, x: T)
    ensures RemoveAll(s + t, x) == RemoveAll(s, x) + RemoveAll(t, x)
    decreases |s|
  {
    if |s| == 0 {
      assert s + t == t;
    } else {
      assert (s + t)[1..] == s[1..] + t;
      RemoveAllConcat(s[1..], t, x);
    }
  }

  /** In a sequence without repeats, removing the one occurrence of `x` keeps the others
      in their order, and the result has no repeats either. */
  lemma {:induction false} RemoveAllDistinct<T(!new)>(s: seq<T>, x: T)
    requires Distinct(s) && x in s
    ensures Distinct(RemoveAll(s, x)) && |RemoveAll(s, x)| == |s| - 1
    decreases |s|
  {
    if s[0] == x {
      assert x !in s[1..];
      RemoveAllAbsent(s[1..], x);
    } else {
      RemoveAllDistinct(s[1..], x);
      var r := RemoveAll(s[1..], x);
      assert s[0] !in r;
      assert forall j :: 0 < j < |[s[0]] + r| ==> ([s[0]] + r)[j] == r[j - 1];
    }
  }
}
