/** The carrying outlet worklet of frontend/public/worklets/outlet.js.

    Each render block is copied to output channel 0, optionally downsampled by
    keeping every `factor`-th sample, and appended to a pending buffer. Whenever the
    buffer holds at least `outputSize` samples, its first `outputSize` samples are
    posted as a frame and the rest is carried into a fresh buffer. The fresh buffer
    has room for only `outputSize` samples: carrying more throws a RangeError after
    the frame was posted, and the audio engine then stops calling the worklet. */
module CarryOutlet {
  import opened Seqs
  import Arith

  const DefaultOutputSize: nat := 128
  const DefaultFactor: nat := 3

  /** Processor options as passed to the constructor; `None` is an absent option. */
  datatype Options = Options(outputSize: Option<nat>, downsampleFactor: Option<nat>, downsample: Option<bool>)

  /** `pending` is `buffer[0..bufferIndex)`; `faulted` records that `process` threw. */
  datatype Outlet = Outlet(outputSize: nat, factor: nat, downsample: bool, pending: seq<real>, faulted: bool)

  /** The result of one `process` call: the new state, the posted frames, what was
      written to output channel 0 (`None` when nothing was), and the return value. */
  datatype Step = Step(next: Outlet, posted: seq<seq<real>>, output: Option<seq<real>>, keepAlive: bool)

  /** JavaScript's `option || default` for a number: 0 and an absent value give the default. */
  function OrNat(o: Option<nat>, default: nat): nat
  {
    if o.Some? && o.value != 0 then o.value else default
  }

  function Create(opts: Options): (o: Outlet)
    ensures o.outputSize == (if opts.outputSize.Some? && opts.outputSize.value > 0 then opts.outputSize.value else 128)
    ensures o.factor == (if opts.downsampleFactor.Some? && opts.downsampleFactor.value > 0 then opts.downsampleFactor.value else 3)
    ensures o.downsample <==> opts.downsample == Some(true)
    ensures Valid(o) && o.pending == []
  {
    Outlet(OrNat(opts.outputSize, DefaultOutputSize), OrNat(opts.downsampleFactor, DefaultFactor),
           opts.downsample.Some? && opts.downsample.value, [], false)
  }

  predicate Valid(o: Outlet)
  {
    o.outputSize >= 1 && o.factor >= 1 && (!o.faulted ==> |o.pending| <= o.outputSize)
  }

  /** `downsampleAudio`: the output array has length `floor(n / factor)` (the typed
      array constructor truncates the fractional length), and its j-th sample is
      input sample `j * factor`; the loop's writes past the end are ignored. */
  function Downsample(input: seq<real>, factor: nat): seq<real>
    requires factor >= 1
    decreases |input|
  {
    if |input| < factor then [] else [input[0]] + Downsample(input[factor..], factor)
  }

  /** The output length is the largest `k` with `k * factor <= n`. */
  lemma {:induction false} DownsampleBounds(input: seq<real>, factor: nat)
    requires factor >= 1
    ensures var k := |Downsample(input, factor)|; k * factor <= |input| < (k + 1) * factor
    decreases |input|
  {
    if |input| < factor {
      assert (0 + 1) * factor == factor;
    } else {
      var rest := input[factor..];
      DownsampleBounds(rest, factor);
      var k := |Downsample(rest, factor)|;
      assert |Downsample(input, factor)| == k + 1;
      Arith.Distrib(k, factor);
      Arith.Distrib(k + 1, factor);
    }
  }

  /** So the length is `floor(n / factor)`, as for a typed array created with a fractional length. */
  lemma DownsampleLength(input: seq<real>, factor: nat)
    requires factor >= 1
    ensures |Downsample(input, factor)| == |input| / factor
  {
    DownsampleBounds(input, factor);
    Arith.FloorDiv(|Downsample(input, factor)|, |input|, factor);
  }

  /** Downsampling keeps every `factor`-th sample, starting with the first. */
  lemma {:induction false} DownsamplePicks(input: seq<real>, factor: nat, j: nat)
    requires factor >= 1 && j < |Downsample(input, factor)|
    ensures j * factor < |input| && Downsample(input, factor)[j] == input[j * factor]
    decreases j
  {
    if j == 0 {
      assert |input| >= factor;
    } else {
      var rest := input[factor..];
      DownsamplePicks(rest, factor, j - 1);
      assert (j - 1) * factor + factor == j * factor;
    }
  }

  /** The samples a block contributes to the buffer. */
  function NewSamples(o: Outlet, samples: seq<real>): seq<real>
    requires Valid(o)
  {
    if o.downsample then Downsample(samples, o.factor) else samples
  }

  /** What appending a block's (possibly downsampled) samples to the buffer does:
      the new state and the posted frames. */
  datatype Fed = Fed(next: Outlet, posted: seq<seq<real>>)

  function Feed(o: Outlet, incoming: seq<real>): (r: Fed)
    requires Valid(o) && !o.faulted
    ensures Valid(r.next) && AllOfLength(r.posted, o.outputSize) && |r.posted| <= 1
    ensures r.next.outputSize == o.outputSize && r.next.factor == o.factor && r.next.downsample == o.downsample
    // nothing is lost while the worklet keeps running
    ensures !r.next.faulted ==> Flatten(r.posted) + r.next.pending == o.pending + incoming
  {
    var total := o.pending + incoming;
    if |total| >= o.outputSize then
      var frame := total[..o.outputSize];
      var rest := total[o.outputSize..];
      assert total == frame + rest;
      FlattenSingle(frame);
      if |rest| > o.outputSize then
        // `newBuffer.set(...)` throws: the frame is already posted, the buffer is the concatenation
        Fed(o.(pending := total, faulted := true), [frame])
      else
        Fed(o.(pending := rest), [frame])
    else
      assert [] + total == total;
      Fed(o.(pending := total), [])
  }

  function Process(o: Outlet, channels: seq<seq<real>>): (r: Step)
    requires Valid(o)
    ensures Valid(r.next) && r.keepAlive
    ensures |channels| == 0 || o.faulted ==> r.next == o && r.posted == [] && r.output == None
    ensures |channels| > 0 && !o.faulted ==> r.output == Some(channels[0])
    ensures AllOfLength(r.posted, o.outputSize)
  {
    if |channels| == 0 || o.faulted then Step(o, [], None, true)
    else
      var fed := Feed(o, NewSamples(o, channels[0]));
      Step(fed.next, fed.posted, Some(channels[0]), true)
  }

  /** Blocks no longer than `outputSize` never make the worklet throw, and a buffer
      that was short of a frame stays short of one. */
  lemma SmallBlocksNeverFault(o: Outlet, incoming: seq<real>)
    requires Valid(o) && !o.faulted && |o.pending| < o.outputSize
    requires |incoming| <= o.outputSize
    ensures !Feed(o, incoming).next.faulted
    ensures |Feed(o, incoming).next.pending| < o.outputSize
  {
  }

  /** Running a stream of mono blocks: every frame posted so far, in order. */
  datatype Outcome = Outcome(last: Outlet, frames: seq<seq<real>>)

  function Run(o: Outlet, blocks: seq<seq<real>>): (r: Outcome)
    requires Valid(o)
    ensures Valid(r.last)
    ensures r.last.outputSize == o.outputSize && r.last.factor == o.factor && r.last.downsample == o.downsample
    decreases |blocks|
  {
    if |blocks| == 0 then Outcome(o, [])
    else
      var prev := Run(o, blocks[..|blocks| - 1]);
      var step := Process(prev.last, [blocks[|blocks| - 1]]);
      Outcome(step.next, prev.frames + step.posted)
  }

  /** All samples the blocks contribute after optional downsampling, in order. */
  function Contributed(o: Outlet, blocks: seq<seq<real>>): seq<real>
    requires Valid(o)
  {
    if |blocks| == 0 then [] else Contributed(o, blocks[..|blocks| - 1]) + NewSamples(o, blocks[|blocks| - 1])
  }

  /** The frames posted so far all have `size` samples and, followed by the pending
      buffer of a worklet that has not thrown, are exactly `history`. */
  predicate Framed(size: nat, r: Outcome, history: seq<real>)
  {
    && !r.last.faulted && |r.last.pending| < size
    && AllOfLength(r.frames, size)
    && Flatten(r.frames) + r.last.pending == history
  }

  /** One block keeps the framing lossless. */
  lemma StepLossless(r: Outcome, history: seq<real>, incoming: seq<real>)
    requires Valid(r.last) && Framed(r.last.outputSize, r, history)
    requires |incoming| <= r.last.outputSize
    ensures var fed := Feed(r.last, incoming);
      Framed(r.last.outputSize, Outcome(fed.next, r.frames + fed.posted), history + incoming)
  {
    var o := r.last;
    SmallBlocksNeverFault(o, incoming);
    var fed := Feed(o, incoming);
    FlattenAppend(r.frames, fed.posted);
    AllOfLengthAppend(r.frames, fed.posted, o.outputSize);
    Regroup(Flatten(r.frames), Flatten(fed.posted), fed.next.pending, o.pending, incoming);
  }

  /** Extending a run by one block keeps the framing lossless. */
  lemma RunStepLossless(o: Outlet, bs: seq<seq<real>>, b: seq<real>, history: seq<real>)
    requires Valid(o)
    ensures Framed(o.outputSize, Run(o, bs), history) && |NewSamples(o, b)| <= o.outputSize
            ==> Framed(o.outputSize, Run(o, bs + [b]), history + NewSamples(o, b))
  {
    var prev := Run(o, bs);
    if Framed(o.outputSize, prev, history) && |NewSamples(o, b)| <= o.outputSize {
      var blocks := bs + [b];
      assert blocks[..|blocks| - 1] == bs && blocks[|blocks| - 1] == b;
      assert NewSamples(prev.last, b) == NewSamples(o, b);
      StepLossless(prev, history, NewSamples(o, b));
    }
  }

  /** No block contributes more than a frame's worth of samples. */
  predicate SmallBlocks(o: Outlet, blocks: seq<seq<real>>)
    requires Valid(o)
  {
    forall i :: 0 <= i < |blocks| ==> |NewSamples(o, blocks[i])| <= o.outputSize
  }

  /** Lossless framing: when no block contributes more than a frame, the worklet never
      throws, every posted frame has `outputSize` samples, and the frames followed by the
      pending buffer are exactly the (downsampled) input, in order. */
  lemma {:induction false} Lossless(o: Outlet, blocks: seq<seq<real>>)
    requires Valid(o) && !o.faulted && |o.pending| < o.outputSize
    requires SmallBlocks(o, blocks)
    ensures Framed(o.outputSize, Run(o, blocks), o.pending + Contributed(o, blocks))
    decreases |blocks|
  {
    if |blocks| == 0 {
      assert o.pending == [] + o.pending;
    } else {
      var bs, b := blocks[..|blocks| - 1], blocks[|blocks| - 1];
      var n := NewSamples(o, b);
      assert SmallBlocks(o, bs) by {
        assert forall i :: 0 <= i < |bs| ==> bs[i] == blocks[i];
      }
      assert |n| <= o.outputSize;
      Lossless(o, bs);
      var h := o.pending + Contributed(o, bs);
      RunStepLossless(o, bs, b, h);
      assert blocks == bs + [b];
      assert o.pending + Contributed(o, blocks) == h + n;
    }
  }
}
