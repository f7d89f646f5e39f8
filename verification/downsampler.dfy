/** The stride-3 downsampler worklet of rrfe/public/worklets/downsampler.js.

    Each render block is copied to output channel 0; the samples at block positions
    0, 3, 6, ... are appended to an `outputSize` buffer (writes past its end are
    ignored by the typed array, while the index keeps counting). A buffer whose index
    reached `outputSize` is posted and replaced by an empty one, so kept samples that
    did not fit are lost. The buffering is the truncating outlet's. */
module Downsampler {
  import opened Seqs
  import TruncatingOutlet

  type Outlet = TruncatingOutlet.Outlet

  /** The samples of a block the loop keeps: position `i` is kept when `i == 0` or
      `i % 3 == 0`. */
  function Kept(samples: seq<real>): seq<real>
  {
    if |samples| == 0 then []
    else
      var i := |samples| - 1;
      Kept(samples[..i]) + (if i == 0 || i % 3 == 0 then [samples[i]] else [])
  }

  /** A block of `n` samples keeps `ceil(n / 3)` of them. */
  lemma {:induction false} KeptLength(samples: seq<real>)
    ensures |Kept(samples)| == (|samples| + 2) / 3
  {
    if |samples| > 0 {
      KeptLength(samples[..|samples| - 1]);
    }
  }

  /** The j-th kept sample is block sample `3 * j`: the `i == 0` test adds nothing. */
  lemma {:induction false} KeptAt(samples: seq<real>, j: nat)
    requires j < |Kept(samples)|
    ensures 3 * j < |samples| && Kept(samples)[j] == samples[3 * j]
    decreases |samples|
  {
    var i := |samples| - 1;
    var prefix := samples[..i];
    KeptLength(samples);
    KeptLength(prefix);
    if j < |Kept(prefix)| {
      KeptAt(prefix, j);
    } else {
      assert j == |Kept(prefix)| && (i == 0 || i % 3 == 0);
    }
  }

  /** The buffer index right before the full check: it grows by every kept sample. */
  function IndexBeforeCheck(o: Outlet, samples: seq<real>): (n: nat)
    ensures n == |o.pending| + (|samples| + 2) / 3
  {
    KeptLength(samples);
    |o.pending| + |Kept(samples)|
  }

  function Process(o: Outlet, channels: seq<seq<real>>): (r: TruncatingOutlet.Step)
    requires TruncatingOutlet.Valid(o)
    ensures TruncatingOutlet.Valid(r.next) && r.keepAlive && r.next.outputSize == o.outputSize
    ensures |channels| == 0 ==> r == TruncatingOutlet.Step(o, None, None, true)
    ensures |channels| > 0 ==> r.output == Some(channels[0])
    // posted exactly when the index reaches the size, after which the buffer is empty
    ensures |channels| > 0 ==> (r.posted.Some? <==> IndexBeforeCheck(o, channels[0]) >= o.outputSize)
    ensures r.posted.Some? ==> |channels| > 0 && r.next.pending == []
                               && r.posted.value == (o.pending + Kept(channels[0]))[..o.outputSize]
    ensures r.posted.None? && |channels| > 0 ==> r.next.pending == o.pending + Kept(channels[0])
  {
    if |channels| == 0 then TruncatingOutlet.Step(o, None, None, true)
    else
      var kept := Kept(channels[0]);
      var c := TruncatingOutlet.Collect(o, kept);
      assert |o.pending| + |kept| >= o.outputSize ==>
               (o.pending + kept)[..o.outputSize] == o.pending + kept[..TruncatingOutlet.Room(o, kept)];
      TruncatingOutlet.Step(c.0, c.1, Some(channels[0]), true)
  }
}
