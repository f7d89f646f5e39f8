/** The per-sample chunkers of rrfe/public/chunker.js (512 samples) and
    rrfe/public/audio-processor.js (100 ms at the context's sample rate).

    Each sample of a block is written at `inputBufferIndex`, which is then
    incremented; as soon as the index reaches `bufferSize` the buffer is posted and
    replaced by an empty one. Nothing is dropped and a block may yield several chunks. */
module SampleChunker {
  import opened Seqs
  import Arith

  /** `pending` is `inputBuffer[0..inputBufferIndex)`. */
  datatype Chunker = Chunker(size: nat, pending: seq<real>)

  /** The chunker of chunker.js. */
  function ChunkWorklet(): (c: Chunker)
    ensures c.size == 512 && c.pending == [] && Valid(c)
  {
    Chunker(512, [])
  }

  /** The chunker of audio-processor.js: `floor(sampleRate * 0.1)` samples, fixed at
      construction. */
  function AudioProcessor(sampleRate: nat): (c: Chunker)
    ensures c.size * 10 <= sampleRate < (c.size + 1) * 10
    ensures c.pending == [] && Valid(c)
  {
    Chunker(sampleRate / 10, [])
  }

  /** The index stays below the size; with size 0 every sample posts an empty buffer. */
  predicate Valid(c: Chunker)
  {
    |c.pending| < c.size || c.pending == []
  }

  /** One sample: it is written at the index (a write past the end of a zero-length
      buffer is ignored), and the buffer is posted once the index reaches the size. */
  function Push(c: Chunker, x: real): (r: (Chunker, Option<seq<real>>))
    requires Valid(c)
    ensures Valid(r.0) && r.0.size == c.size
    ensures r.1.Some? <==> |c.pending| + 1 >= c.size
    ensures r.1.Some? ==> |r.1.value| == c.size && r.0.pending == []
    ensures c.size >= 1 ==> (if r.1.Some? then r.1.value else r.0.pending) == c.pending + [x]
  {
    var written := c.pending + [x];
    if |written| >= c.size then (Chunker(c.size, []), Some(written[..c.size]))
    else (Chunker(c.size, written), None)
  }

  /** The chunks a push adds to the list of posted ones. */
  function Posted(r: (Chunker, Option<seq<real>>)): seq<seq<real>>
  {
    if r.1.Some? then [r.1.value] else []
  }

  /** A push keeps the chunks followed by the pending samples equal to the input so far. */
  lemma PushLossless(c: Chunker, posted: seq<seq<real>>, history: seq<real>, x: real)
    requires Valid(c) && c.size >= 1
    requires AllOfLength(posted, c.size) && Flatten(posted) + c.pending == history
    ensures var r := Push(c, x);
      && AllOfLength(posted + Posted(r), c.size)
      && Flatten(posted + Posted(r)) + r.0.pending == history + [x]
  {
    var r := Push(c, x);
    FlattenAppend(posted, Posted(r));
    AllOfLengthAppend(posted, Posted(r), c.size);
    if r.1.Some? {
      FlattenSingle(r.1.value);
      Regroup(Flatten(posted), r.1.value, r.0.pending, c.pending, [x]);
    } else {
      assert Flatten(Posted(r)) == [];
      Regroup(Flatten(posted), [], r.0.pending, c.pending, [x]);
    }
  }

  /** Whole chunks plus a short remainder: the chunk count is the floor of the total
      over the size. */
  lemma ChunkCount(posted: seq<seq<real>>, pending: seq<real>, size: nat, total: nat)
    requires size >= 1 && |pending| < size && AllOfLength(posted, size)
    requires |Flatten(posted) + pending| == total
    ensures |posted| == total / size
  {
    FlattenUniform(posted, size);
    Arith.Distrib(|posted|, size);
    Arith.FloorDiv(|posted|, total, size);
  }

  /** `process`: a channel-less input changes nothing; otherwise every sample is
      pushed in order. Both worklets keep running (`isRecording` is never cleared). */
  method Process(c: Chunker, channels: seq<seq<real>>) returns (next: Chunker, posted: seq<seq<real>>, keepAlive: bool)
    requires Valid(c)
    ensures Valid(next) && next.size == c.size && keepAlive
    ensures |channels| == 0 ==> next == c && posted == []
    ensures AllOfLength(posted, c.size)
    // lossless: the chunks followed by the pending samples are the old pending samples plus the block
    ensures |channels| > 0 && c.size >= 1 ==> Flatten(posted) + next.pending == c.pending + channels[0]
    ensures |channels| > 0 && c.size >= 1 ==> |posted| == (|c.pending| + |channels[0]|) / c.size
    ensures |channels| > 0 && c.size == 0 ==> |posted| == |channels[0]|
  {
    next, posted, keepAlive := c, [], true;
    if |channels| == 0 {
      return;
    }
    var samples := channels[0];
    var i := 0;
    assert c.size >= 1 ==> Flatten(posted) + next.pending == c.pending + samples[..0];
    while i < |samples|
      invariant 0 <= i <= |samples|
      invariant Valid(next) && next.size == c.size
      invariant AllOfLength(posted, c.size)
      invariant c.size >= 1 ==> Flatten(posted) + next.pending == c.pending + samples[..i]
      invariant c.size == 0 ==> |posted| == i
    {
      var r := Push(next, samples[i]);
      if c.size >= 1 {
        PushLossless(next, posted, c.pending + samples[..i], samples[i]);
        assert c.pending + samples[..i + 1] == c.pending + samples[..i] + [samples[i]];
      } else {
        AllOfLengthAppend(posted, Posted(r), c.size);
      }
      posted := posted + Posted(r);
      next := r.0;
      i := i + 1;
    }
    assert samples[..i] == samples;
    if c.size >= 1 {
      ChunkCount(posted, next.pending, c.size, |c.pending| + |samples|);
    }
  }

  /** A stream of mono blocks: nothing is ever dropped across calls. */
  method ProcessAll(c: Chunker, blocks: seq<seq<real>>) returns (next: Chunker, posted: seq<seq<real>>)
    requires Valid(c) && c.size >= 1
    ensures Valid(next) && next.size == c.size && |next.pending| < c.size
    ensures AllOfLength(posted, c.size)
    ensures Flatten(posted) + next.pending == c.pending + Flatten(blocks)
  {
    next, posted := c, [];
    var k := 0;
    while k < |blocks|
      invariant 0 <= k <= |blocks|
      invariant Valid(next) && next.size == c.size
      invariant AllOfLength(posted, c.size)
      invariant Flatten(posted) + next.pending == c.pending + Flatten(blocks[..k])
    {
      var n, p, _ := Process(next, [blocks[k]]);
      assert [blocks[k]][0] == blocks[k];
      FlattenAppend(posted, p);
      AllOfLengthAppend(posted, p, c.size);
      assert blocks[..k + 1][..k] == blocks[..k];
      Regroup(Flatten(posted), Flatten(p), n.pending, next.pending, blocks[k]);
      Assoc(c.pending, Flatten(blocks[..k]), blocks[k]);
      posted, next := posted + p, n;
      k := k + 1;
    }
    assert blocks[..k] == blocks;
  }
}
