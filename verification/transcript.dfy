/** The transcript bookkeeping of backend/app/routers/websocket.py: the rolling prompt
    (`PromptQueue`) and the commit logic that confirms the words two consecutive
    hypotheses agree on (`TranscriptionBuffer`). Timestamps are `real`. */
module Transcript {
  import opened Seqs

  /** A word as the recogniser gives it: `(start, end, text)`. */
  datatype Word = Word(start: real, end: real, text: string)

  /** `"".join(word[2] for word in words)`. */
  function Texts(words: seq<Word>): string
  {
    if |words| == 0 then "" else Texts(words[..|words| - 1]) + words[|words| - 1].text
  }

  lemma {:induction false} TextsAppend(a: seq<Word>, b: seq<Word>)
    ensures Texts(a + b) == Texts(a) + Texts(b)
    decreases |b|
  {
    if |b| == 0 {
      assert a + b == a;
    } else {
      var b' := b[..|b| - 1];
      assert (a + b)[..|a + b| - 1] == a + b';
      TextsAppend(a, b');
    }
  }

  // ---------------------------------------------------------------- PromptQueue

  const MaxPromptWords: nat := 200

  datatype PromptQueue = PromptQueue(queue: seq<Word>, prompt: string)

  function NewPromptQueue(): (q: PromptQueue)
    ensures q.queue == [] && q.prompt == ""
  {
    PromptQueue([], "")
  }

  /** A `deque(maxlen=200)` keeps the last 200 elements. */
  function LastAtMost<T>(s: seq<T>, n: nat): (r: seq<T>)
    ensures |r| == if |s| <= n then |s| else n
    ensures IsSuffix(r, s)
  {
    if |s| <= n then s else s[|s| - n..]
  }

  function Insert(q: PromptQueue, words: seq<Word>): (r: PromptQueue)
    ensures |r.queue| <= MaxPromptWords
    ensures r.queue == LastAtMost(q.queue + words, MaxPromptWords)
    ensures r.prompt == Texts(r.queue)
  {
    var queue := LastAtMost(q.queue + words, MaxPromptWords);
    PromptQueue(queue, Texts(queue))
  }

  /** The prompt is the tail of everything ever inserted: its text is a suffix of the
      previous queue's text followed by the new words' text. */
  lemma PromptIsRecentText(q: PromptQueue, words: seq<Word>)
    ensures IsSuffix(Insert(q, words).prompt, Texts(q.queue) + Texts(words))
  {
    var all := q.queue + words;
    var kept := Insert(q, words).queue;
    var dropped := all[..|all| - |kept|];
    assert all == dropped + kept;
    TextsAppend(dropped, kept);
    TextsAppend(q.queue, words);
  }

  // ---------------------------------------------------------- TranscriptionBuffer

  /** `uncommitted` is `None` until the first hypothesis. */
  datatype Buffer = Buffer(lastConfirmed: real, committed: seq<Word>, uncommitted: Option<seq<Word>>)

  function NewBuffer(): (b: Buffer)
    ensures b.lastConfirmed == 0.0 && b.committed == [] && b.uncommitted == None
  {
    Buffer(0.0, [], None)
  }

  function CommittedText(b: Buffer): string
  {
    Texts(b.committed)
  }

  function UncommittedText(b: Buffer): (t: string)
    ensures b.uncommitted.None? ==> t == ""
    ensures b.uncommitted.Some? ==> t == Texts(b.uncommitted.value)
  {
    if b.uncommitted.Some? && |b.uncommitted.value| > 0 then Texts(b.uncommitted.value) else ""
  }

  /** Committing words extends the committed text by exactly their text. */
  lemma CommittedTextGrows(b: Buffer, added: seq<Word>)
    ensures CommittedText(b.(committed := b.committed + added)) == CommittedText(b) + Texts(added)
  {
    TextsAppend(b.committed, added);
  }

  /** The words that start at or after `t`, in order. */
  function Fresh(words: seq<Word>, t: real): (r: seq<Word>)
    ensures |r| <= |words|
    ensures forall i :: 0 <= i < |r| ==> r[i].start >= t
    ensures forall w :: w in r <==> w in words && w.start >= t
  {
    if |words| == 0 then []
    else
      var prev := Fresh(words[..|words| - 1], t);
      var w := words[|words| - 1];
      assert words == words[..|words| - 1] + [w];
      if w.start >= t then prev + [w] else prev
  }

  /** Filtering distributes over concatenation; with `FreshSingle` this fixes the order and
      multiplicity of the words kept. */
  lemma {:induction false} FreshAppend(a: seq<Word>, b: seq<Word>, t: real)
    ensures Fresh(a + b, t) == Fresh(a, t) + Fresh(b, t)
    decreases |b|
  {
    if |b| == 0 {
      assert a + b == a;
    } else {
      var w := b[|b| - 1];
      var bp := b[..|b| - 1];
      var ab := a + b;
      assert ab[..|ab| - 1] == a + bp;
      assert ab[|ab| - 1] == w;
      FreshAppend(a, bp, t);
      var fa, fb := Fresh(a, t), Fresh(bp, t);
      if w.start >= t {
        assert Fresh(ab, t) == (fa + fb) + [w];
        assert Fresh(b, t) == fb + [w];
        assert (fa + fb) + [w] == fa + (fb + [w]);
      } else {
        assert Fresh(ab, t) == fa + fb;
        assert Fresh(b, t) == fb;
      }
    }
  }

  /** A single word survives exactly when it starts at or after `t`. */
  lemma FreshSingle(w: Word, t: real)
    ensures Fresh([w], t) == if w.start >= t then [w] else []
  {
    assert [w][..0] == [];
  }

  /** Filtering again by a later time is filtering once by it. */
  lemma {:induction false} FreshTwice(words: seq<Word>, a: real, b: real)
    requires a <= b
    ensures Fresh(Fresh(words, a), b) == Fresh(words, b)
    decreases |words|
  {
    if |words| > 0 {
      var prefix := words[..|words| - 1];
      var w := words[|words| - 1];
      FreshTwice(prefix, a, b);
      var f := Fresh(prefix, a);
      if w.start >= a {
        assert Fresh(words, a) == f + [w];
        assert (f + [w])[..|f|] == f;
      }
    }
  }

  /** A previous word is confirmed by the aligned new word when the texts are equal
      and it ends after the new word starts. */
  predicate Agrees(prev: Word, curr: Word)
  {
    prev.text == curr.text && prev.end > curr.start
  }

  /** `update`: the first hypothesis is stored as it is; later ones are filtered to
      the words starting at or after the last confirmed time, the agreeing prefix of
      the previous hypothesis is committed, and the filtered new words that start at
      or after the new confirmed time become the uncommitted list. The `for` loop
      resets `match_count` on every iteration, so `MAX_MATCH` never stops it. */
  method Update(b: Buffer, newWords: seq<Word>) returns (r: Buffer)
    ensures b.uncommitted.None? ==> r == Buffer(b.lastConfirmed, b.committed, Some(newWords))
    ensures b.uncommitted.Some? ==>
      var u := b.uncommitted.value;
      var f := Fresh(newWords, b.lastConfirmed);
      var k := |r.committed| - |b.committed|;
      // the committed words are the previous ones followed by a prefix of the old hypothesis
      && |b.committed| <= |r.committed| && k <= |u| && k <= |f|
      && r.committed == b.committed + u[..k]
      // each committed word agrees with its aligned new word, and the first disagreement stops
      && (forall i :: 0 <= i < k ==> Agrees(u[i], f[i]))
      && (k < |u| && k < |f| ==> !Agrees(u[k], f[k]))
      // the confirmed time is the end of the last committed word and never decreases
      && r.lastConfirmed == (if k == 0 then b.lastConfirmed else u[k - 1].end)
      && r.lastConfirmed >= b.lastConfirmed
      && r.uncommitted == Some(Fresh(f, r.lastConfirmed))
    // every uncommitted word starts at or after the confirmed time
    ensures b.uncommitted.Some? ==> forall i :: 0 <= i < |r.uncommitted.value| ==>
              r.uncommitted.value[i].start >= r.lastConfirmed
  {
    if b.uncommitted.None? {
      return Buffer(b.lastConfirmed, b.committed, Some(newWords));
    }
    var u := b.uncommitted.value;
    var f := Fresh(newWords, b.lastConfirmed);
    var k, last := AgreeingPrefix(u, f, b.lastConfirmed);
    var committed := b.committed + u[..k];
    assert |committed| - |b.committed| == k;
    r := Buffer(last, committed, Some(Fresh(f, last)));
  }

  /** The loop of `update`: walks the previous hypothesis and the filtered new words
      side by side, confirming each agreeing word, and stops at the first disagreement. */
  method AgreeingPrefix(u: seq<Word>, f: seq<Word>, t: real) returns (k: nat, last: real)
    requires forall j :: 0 <= j < |f| ==> f[j].start >= t
    ensures k <= |u| && k <= |f|
    ensures forall j :: 0 <= j < k ==> Agrees(u[j], f[j])
    ensures k < |u| && k < |f| ==> !Agrees(u[k], f[k])
    ensures last == (if k == 0 then t else u[k - 1].end) && last >= t
  {
    k, last := 0, t;
    while k < |u| && k < |f| && Agrees(u[k], f[k])
      invariant k <= |u| && k <= |f|
      invariant forall j :: 0 <= j < k ==> Agrees(u[j], f[j])
      invariant last == (if k == 0 then t else u[k - 1].end) && last >= t
      decreases |u| - k
    {
      last := u[k].end;
      k := k + 1;
    }
  }
}
