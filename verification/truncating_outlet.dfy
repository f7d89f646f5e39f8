/** The truncating outlet worklet of rrfe/public/worklets/outlet.js and
    rr-frontend/public/worklets/outlet.js (the two differ only in logging).

    Each render block is copied to output channel 0 and its samples are written
    into an `outputSize` buffer while there is room. When the buffer is full it is
    posted and replaced by an empty one; the rest of the block is discarded, never
    carried into the next buffer. */
module TruncatingOutlet {
  import opened Seqs
  import Arith

  const DefaultOutputSize: nat := 128

  /** `pending` is `buffer[0..bufferIndex)`. */
  datatype Outlet = Outlet(outputSize: nat, pending: seq<real>)

  datatype Step = Step(next: Outlet, posted: Option<seq<real>>, output: Option<seq<real>>, keepAlive: bool)

  /** `outputSize || 128`: an absent or zero option gives the default. */
  function Create(outputSize: Option<nat>): (o: Outlet)
    ensures Valid(o) && o.pending == []
    ensures o.outputSize == (if outputSize == None || outputSize == Some(0) then 128 else outputSize.value)
  {
    var size := if outputSize.Some? && outputSize.value != 0 then outputSize.value else DefaultOutputSize;
    Outlet(size, [])
  }

  /** A buffer is never left full. */
  predicate Valid(o: Outlet)
  {
    |o.pending| < o.outputSize
  }

  /** How many of `incoming` find room in the buffer. */
  function Room(o: Outlet, incoming: seq<real>): nat
    requires Valid(o)
  {
    if |incoming| <= o.outputSize - |o.pending| then |incoming| else o.outputSize - |o.pending|
  }

  /** Buffering a block: the samples that fit are appended; a full buffer is posted
      and replaced by an empty one. */
  function Collect(o: Outlet, incoming: seq<real>): (r: (Outlet, Option<seq<real>>))
    requires Valid(o)
    ensures Valid(r.0) && r.0.outputSize == o.outputSize
    ensures r.1.Some? <==> |o.pending| + |incoming| >= o.outputSize
    ensures r.1.Some? ==> |r.1.value| == o.outputSize && r.0.pending == []
    // what is buffered or posted is the pending buffer plus the part of the block that found room
    ensures (if r.1.Some? then r.1.value else r.0.pending) == o.pending + incoming[..Room(o, incoming)]
  {
    var kept := o.pending + incoming[..Room(o, incoming)];
    if |kept| >= o.outputSize then (Outlet(o.outputSize, []), Some(kept))
    else (Outlet(o.outputSize, kept), None)
  }

  function Process(o: Outlet, channels: seq<seq<real>>): (r: Step)
    requires Valid(o)
    ensures Valid(r.next) && r.keepAlive && r.next.outputSize == o.outputSize
    ensures |channels| == 0 ==> r == Step(o, None, None, true)
    ensures |channels| > 0 ==> r.output == Some(channels[0])
    ensures r.posted.Some? ==> |r.posted.value| == o.outputSize
  {
    if |channels| == 0 then Step(o, None, None, true)
    else
      var (next, posted) := Collect(o, channels[0]);
      Step(next, posted, Some(channels[0]), true)
  }

  /** A run over mono blocks records, per block, the prefix of it that was buffered. */
  datatype Outcome = Outcome(last: Outlet, frames: seq<seq<real>>, taken: seq<seq<real>>)

  /** One more mono block. */
  function Advance(r: Outcome, b: seq<real>): (r': Outcome)
    requires Valid(r.last)
    ensures Valid(r'.last) && r'.last.outputSize == r.last.outputSize
    ensures r'.taken == r.taken + [b[..Room(r.last, b)]]
  {
    var step := Process(r.last, [b]);
    assert [b][0] == b;
    Outcome(step.next, r.frames + (if step.posted.Some? then [step.posted.value] else []),
            r.taken + [b[..Room(r.last, b)]])
  }

  function Run(o: Outlet, blocks: seq<seq<real>>): (r: Outcome)
    requires Valid(o)
    ensures Valid(r.last) && r.last.outputSize == o.outputSize
    ensures |r.taken| == |blocks|
    decreases |blocks|
  {
    if |blocks| == 0 then Outcome(o, [], []) else Advance(Run(o, blocks[..|blocks| - 1]), blocks[|blocks| - 1])
  }

  /** The frames posted so far have `size` samples and, followed by the pending buffer,
      are `history`. */
  predicate Framed(size: nat, r: Outcome, history: seq<real>)
  {
    AllOfLength(r.frames, size) && Flatten(r.frames) + r.last.pending == history
  }

  /** One block appends to `history` the prefix of it that found room. */
  lemma StepFramed(r: Outcome, history: seq<real>, b: seq<real>)
    requires Valid(r.last) && Framed(r.last.outputSize, r, history)
    ensures Framed(r.last.outputSize, Advance(r, b), history + b[..Room(r.last, b)])
  {
    var o := r.last;
    var c := Collect(o, b);
    assert [b][0] == b;
    var added := if c.1.Some? then [c.1.value] else [];
    assert Advance(r, b) == Outcome(c.0, r.frames + added, r.taken + [b[..Room(o, b)]]);
    FlattenAppend(r.frames, added);
    AllOfLengthAppend(r.frames, added, o.outputSize);
    if c.1.Some? {
      FlattenSingle(c.1.value);
      Regroup(Flatten(r.frames), c.1.value, [], o.pending, b[..Room(o, b)]);
    } else {
      Regroup(Flatten(r.frames), [], c.0.pending, o.pending, b[..Room(o, b)]);
    }
  }

  /** Truncation: every posted frame has `outputSize` samples, and the frames followed
      by the pending buffer are the initial buffer plus, for each block, the part of it
      that was taken, in order. */
  lemma {:induction false} Truncation(o: Outlet, blocks: seq<seq<real>>)
    requires Valid(o)
    ensures Framed(o.outputSize, Run(o, blocks), o.pending + Flatten(Run(o, blocks).taken))
    decreases |blocks|
  {
    if |blocks| == 0 {
      assert o.pending + Flatten(Run(o, blocks).taken) == [] + o.pending;
    } else {
      var bs := blocks[..|blocks| - 1];
      Truncation(o, bs);
      var prev := Run(o, bs);
      var b := blocks[|blocks| - 1];
      var h := o.pending + Flatten(prev.taken);
      assert Run(o, blocks) == Advance(prev, b);
      StepFramed(prev, h, b);
      var t := Run(o, blocks).taken;
      var x := b[..Room(prev.last, b)];
      assert t[..|t| - 1] == prev.taken && t[|t| - 1] == x;
      assert Flatten(t) == Flatten(prev.taken) + x;
      Assoc(o.pending, Flatten(prev.taken), x);
    }
  }

  /** What is taken of each block is a prefix of it, so the frames form an in-order
      subsequence of the input and what is lost of a block is a tail of it. */
  lemma {:induction false} TakenArePrefixes(o: Outlet, blocks: seq<seq<real>>)
    requires Valid(o)
    ensures forall i :: 0 <= i < |blocks| ==> IsPrefix(Run(o, blocks).taken[i], blocks[i])
    decreases |blocks|
  {
    if |blocks| > 0 {
      var bs := blocks[..|blocks| - 1];
      TakenArePrefixes(o, bs);
      var prev, t := Run(o, bs).taken, Run(o, blocks).taken;
      forall i | 0 <= i < |blocks|
        ensures IsPrefix(t[i], blocks[i])
      {
        if i < |bs| {
          assert t[i] == prev[i] && blocks[i] == bs[i];
        }
      }
    }
  }

  /** Each posted frame is one contiguous run of the input: the pending buffer is always
      the most recent stretch of input, so a frame is that stretch followed by the start
      of the block that filled it. */
  lemma FrameIsContiguous(o: Outlet, history: seq<real>, b: seq<real>)
    requires Valid(o) && IsSuffix(o.pending, history)
    ensures var (next, posted) := Collect(o, b);
      var start := |history| - |o.pending|;
      && IsSuffix(next.pending, history + b)
      && (posted.Some? ==> start + o.outputSize <= |history + b|
                           && posted.value == (history + b)[start..start + o.outputSize])
  {
    var (next, posted) := Collect(o, b);
    var k := Room(o, b);
    JoinSlice(history, o.pending, b, k);
    if posted.None? {
      assert k == |b| && b[..k] == b;
      assert |history + b| - |next.pending| == |history| - |o.pending|;
    }
  }

  /** A suffix of `history` followed by the first `k` of `b` is a slice of `history + b`. */
  lemma JoinSlice(history: seq<real>, p: seq<real>, b: seq<real>, k: nat)
    requires IsSuffix(p, history) && k <= |b|
    ensures (history + b)[|history| - |p|..|history| + k] == p + b[..k]
  {
    var start := |history| - |p|;
    var h := history + b;
    forall i | 0 <= i < |p| + k
      ensures h[start + i] == (p + b[..k])[i]
    {
      if i < |p| {
        assert h[start + i] == history[start + i] == history[start..][i];
      }
    }
  }

  /** Blocks of one fixed length `len` dividing `outputSize`: the pending buffer always
      holds a whole number of blocks, so every block fits entirely. */
  lemma {:induction false} NoDropWhenAligned(o: Outlet, blocks: seq<seq<real>>, len: nat)
    requires Valid(o) && len >= 1 && o.outputSize % len == 0 && |o.pending| % len == 0
    requires forall i :: 0 <= i < |blocks| ==> |blocks[i]| == len
    ensures Run(o, blocks).taken == blocks
    ensures |Run(o, blocks).last.pending| % len == 0
    decreases |blocks|
  {
    if |blocks| > 0 {
      var bs := blocks[..|blocks| - 1];
      NoDropWhenAligned(o, bs, len);
      AlignedStep(Run(o, bs).last, blocks[|blocks| - 1], len);
    }
  }

  /** One aligned block fits entirely and keeps the pending length a multiple of `len`. */
  lemma AlignedStep(o: Outlet, b: seq<real>, len: nat)
    requires Valid(o) && len >= 1 && o.outputSize % len == 0 && |o.pending| % len == 0 && |b| == len
    ensures Room(o, b) == |b| && b[..Room(o, b)] == b
    ensures |Collect(o, b).0.pending| % len == 0
  {
    var p := |o.pending|;
    Arith.MultipleRoom(p, o.outputSize, len);
    assert Room(o, b) == len;
    var c := Collect(o, b);
    if c.1.None? {
      assert |c.0.pending| == p + len;
      Arith.ModStep(p, len);
    } else {
      assert |c.0.pending| == 0;
    }
  }

  /** Consequently, starting empty, no sample is dropped: the frames followed by the
      pending buffer are the whole input, and the frames alone are a prefix of it. */
  lemma AlignedLossless(size: nat, blocks: seq<seq<real>>, len: nat)
    requires size >= 1 && len >= 1 && size % len == 0
    requires forall i :: 0 <= i < |blocks| ==> |blocks[i]| == len
    ensures var r := Run(Outlet(size, []), blocks);
      && AllOfLength(r.frames, size)
      && Flatten(r.frames) + r.last.pending == Flatten(blocks)
      && IsPrefix(Flatten(r.frames), Flatten(blocks))
  {
    var o := Outlet(size, []);
    NoDropWhenAligned(o, blocks, len);
    Truncation(o, blocks);
    var r := Run(o, blocks);
    assert o.pending + Flatten(blocks) == Flatten(blocks);
  }
}
