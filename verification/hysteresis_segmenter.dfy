/** The hysteresis utterance segmenter of frontend/app/lib/utterance-segmenter.ts.

    Each scored chunk is appended to a buffer. A score at or above the threshold
    marks the end of the buffer as the last speech location. Once the samples after
    that location reach the silence window `window` (16000 times the silence
    duration in seconds, rounded up, since buffer lengths are whole numbers), the
    segmenter fires: with speech in the buffer it hands the whole buffer to the
    callback and keeps only the trailing silence; without speech it slides the
    buffer forward by one chunk. */
module HysteresisSegmenter {
  import opened Seqs

  const SampleRate: nat := 16000
  /** Constructor defaults: threshold 0.8 and 0.7 s of silence, i.e. 11200 samples. */
  const DefaultThreshold: real := 0.8
  const DefaultWindow: nat := 11200

  datatype Config = Config(threshold: real, window: nat)

  datatype Segmenter = Segmenter(buffer: seq<real>, lastSpeechLoc: nat, containsSpeech: bool)

  /** What one `process` call leaves behind and what it passed to the callback. */
  datatype Step = Step(next: Segmenter, utterance: Option<seq<real>>)

  function DefaultConfig(): (c: Config)
    ensures c.threshold == 0.8
    ensures c.window == SampleRate * 7 / 10
  {
    Config(DefaultThreshold, DefaultWindow)
  }

  function Init(): (s: Segmenter)
    ensures Valid(s) && s.buffer == [] && !s.containsSpeech
  {
    Segmenter([], 0, false)
  }

  /** The speech boundary lies inside the buffer; without speech it is at 0. */
  predicate Valid(s: Segmenter)
  {
    && s.lastSpeechLoc <= |s.buffer|
    && (!s.containsSpeech ==> s.lastSpeechLoc == 0)
  }

  predicate IsSpeech(c: Config, prob: real)
  {
    prob >= c.threshold
  }

  function Process(c: Config, s: Segmenter, chunk: seq<real>, prob: real): (r: Step)
    requires Valid(s)
    ensures Valid(r.next)
    // a speech chunk always marks the end of the extended buffer as speech
    ensures IsSpeech(c, prob) && c.window > 0 ==>
              r.next == Segmenter(s.buffer + chunk, |s.buffer + chunk|, true) && r.utterance == None
    // the callback only ever receives a buffer holding speech that is followed by a full window of silence
    ensures r.utterance.Some? ==>
              && r.utterance.value == s.buffer + chunk
              && (s.containsSpeech || IsSpeech(c, prob))
              && |r.next.buffer| >= c.window
              && IsSuffix(r.next.buffer, r.utterance.value)
  {
    var buffer := s.buffer + chunk;
    var speech := IsSpeech(c, prob);
    var containsSpeech := s.containsSpeech || speech;
    var loc := if speech then |buffer| else s.lastSpeechLoc;
    if |buffer| - loc >= c.window then
      if containsSpeech then
        Step(Segmenter(buffer[loc..], 0, false), Some(buffer))
      else
        Step(Segmenter(buffer[|chunk|..], 0, false), None)
    else
      Step(Segmenter(buffer, loc, containsSpeech), None)
  }

  /** The number of samples after the last speech location once `chunk` is appended. */
  function TrailingSilence(c: Config, s: Segmenter, chunk: seq<real>, prob: real): nat
    requires Valid(s)
  {
    if IsSpeech(c, prob) then 0 else |s.buffer| + |chunk| - s.lastSpeechLoc
  }

  /** Below the window nothing fires: the buffer just grows by the chunk. */
  lemma NoTriggerAppends(c: Config, s: Segmenter, chunk: seq<real>, prob: real)
    requires Valid(s)
    requires TrailingSilence(c, s, chunk, prob) < c.window
    ensures Process(c, s, chunk, prob).next.buffer == s.buffer + chunk
    ensures Process(c, s, chunk, prob).utterance == None
    ensures Process(c, s, chunk, prob).next.containsSpeech == (s.containsSpeech || IsSpeech(c, prob))
  {
  }

  /** Firing happens exactly when the trailing silence reaches the window; it always
      clears the speech flag and the boundary. It emits iff some chunk since the last
      firing was speech, and the retained buffer is then exactly the trailing silence. */
  lemma TriggerCharacterised(c: Config, s: Segmenter, chunk: seq<real>, prob: real)
    requires Valid(s)
    requires TrailingSilence(c, s, chunk, prob) >= c.window
    ensures var r := Process(c, s, chunk, prob);
      && !r.next.containsSpeech && r.next.lastSpeechLoc == 0
      && (r.utterance.Some? <==> s.containsSpeech || IsSpeech(c, prob))
      && (r.utterance.Some? ==> r.next.buffer == (s.buffer + chunk)[|s.buffer + chunk| - TrailingSilence(c, s, chunk, prob)..])
      && (r.utterance.None? ==> r.next.buffer == (s.buffer + chunk)[|chunk|..] && |r.next.buffer| == |s.buffer|)
  {
  }

  /** Running a list of (chunk, score) pairs; returns the last state and every utterance
      handed to the callback, in order. */
  datatype Scored = Scored(chunk: seq<real>, prob: real)

  datatype Outcome = Outcome(last: Segmenter, utterances: seq<seq<real>>)

  function Run(c: Config, s: Segmenter, xs: seq<Scored>): (r: Outcome)
    requires Valid(s)
    ensures Valid(r.last)
    decreases |xs|
  {
    if |xs| == 0 then Outcome(s, [])
    else
      var prev := Run(c, s, xs[..|xs| - 1]);
      var step := Process(c, prev.last, xs[|xs| - 1].chunk, xs[|xs| - 1].prob);
      Outcome(step.next, prev.utterances + (if step.utterance.Some? then [step.utterance.value] else []))
  }

  /** All samples of a list of scored chunks, in order. */
  function Samples(xs: seq<Scored>): seq<real>
  {
    if |xs| == 0 then [] else Samples(xs[..|xs| - 1]) + xs[|xs| - 1].chunk
  }

  /** The retained buffer is always the tail of the extended buffer. */
  lemma KeepsTail(c: Config, s: Segmenter, chunk: seq<real>, prob: real)
    requires Valid(s)
    ensures IsSuffix(Process(c, s, chunk, prob).next.buffer, s.buffer + chunk)
  {
  }

  predicate AllSilent(c: Config, xs: seq<Scored>)
  {
    forall i :: 0 <= i < |xs| ==> !IsSpeech(c, xs[i].prob)
  }

  /** Running is compositional: splitting the stream into two batches yields the same
      final state and the same utterances, in the same order. */
  lemma {:induction false} RunSplit(c: Config, s: Segmenter, xs: seq<Scored>, ys: seq<Scored>)
    requires Valid(s)
    ensures Run(c, s, xs + ys).last == Run(c, Run(c, s, xs).last, ys).last
    ensures Run(c, s, xs + ys).utterances == Run(c, s, xs).utterances + Run(c, Run(c, s, xs).last, ys).utterances
    decreases |ys|
  {
    if |ys| == 0 {
      assert xs + ys == xs;
    } else {
      var ys' := ys[..|ys| - 1];
      assert (xs + ys)[..|xs + ys| - 1] == xs + ys';
      assert (xs + ys)[|xs + ys| - 1] == ys[|ys| - 1];
      RunSplit(c, s, xs, ys');
    }
  }

  /** A stream scored entirely below the threshold never emits from any segmenter
      without pending speech, including the one left holding the trailing silence just
      after an emission; and a buffer shorter than `window` stays shorter than it. */
  lemma {:induction false} SilenceNeverEmits(c: Config, s: Segmenter, xs: seq<Scored>)
    requires Valid(s) && !s.containsSpeech
    requires AllSilent(c, xs)
    ensures Run(c, s, xs).utterances == []
    ensures !Run(c, s, xs).last.containsSpeech
    ensures |s.buffer| < c.window ==> |Run(c, s, xs).last.buffer| < c.window
    decreases |xs|
  {
    if |xs| > 0 {
      SilenceNeverEmits(c, s, xs[..|xs| - 1]);
    }
  }

  /** Just after an emission the segmenter holds at least a window of trailing silence
      and no pending speech; silence fed from there on emits nothing more. */
  lemma SilenceAfterEmission(c: Config, s: Segmenter, chunk: seq<real>, prob: real, xs: seq<Scored>)
    requires Valid(s) && Process(c, s, chunk, prob).utterance.Some?
    requires AllSilent(c, xs)
    ensures var next := Process(c, s, chunk, prob).next;
      && |next.buffer| >= c.window && !next.containsSpeech
      && Run(c, next, xs).utterances == []
  {
    SilenceNeverEmits(c, Process(c, s, chunk, prob).next, xs);
  }

  /** The buffer is always a contiguous, most recent stretch of the input: it is a
      suffix of everything fed so far, and so is every utterance when it is emitted. */
  lemma {:induction false} BufferIsRecentInput(c: Config, s: Segmenter, history: seq<real>, xs: seq<Scored>)
    requires Valid(s) && IsSuffix(s.buffer, history)
    ensures IsSuffix(Run(c, s, xs).last.buffer, history + Samples(xs))
    decreases |xs|
  {
    if |xs| > 0 {
      var xs' := xs[..|xs| - 1];
      var x := xs[|xs| - 1];
      BufferIsRecentInput(c, s, history, xs');
      var prev := Run(c, s, xs').last;
      var next := Process(c, prev, x.chunk, x.prob).next;
      assert Run(c, s, xs).last == next;
      assert history + Samples(xs) == (history + Samples(xs')) + x.chunk;
      SuffixExtend(prev.buffer, history + Samples(xs'), x.chunk);
      KeepsTail(c, prev, x.chunk, x.prob);
      SuffixTransitive(next.buffer, prev.buffer + x.chunk, history + Samples(xs));
    }
  }

  /** Constant-length chunks: a single chunk appended `k` times from the state
      reached so far; used to state the reference scenario below. */
  function Repeat(x: Scored, k: nat): (xs: seq<Scored>)
    ensures |xs| == k && forall i :: 0 <= i < k ==> xs[i] == x
  {
    seq(k, i => x)
  }

  lemma {:induction false} SpeechRun(c: Config, x: Scored, k: nat)
    requires |x.chunk| == 512 && IsSpeech(c, x.prob) && 512 < c.window
    ensures var r := Run(c, Init(), Repeat(x, k));
      && r.utterances == [] && |r.last.buffer| == 512 * k
      && r.last.lastSpeechLoc == 512 * k && r.last.containsSpeech == (k > 0)
  {
    if k > 0 {
      SpeechRun(c, x, k - 1);
      assert Repeat(x, k)[..k - 1] == Repeat(x, k - 1);
    }
  }

  lemma {:induction false} SilenceAfterSpeech(c: Config, s: Segmenter, y: Scored, k: nat)
    requires Valid(s) && s.containsSpeech && s.lastSpeechLoc == |s.buffer|
    requires |y.chunk| == 512 && !IsSpeech(c, y.prob) && 512 * k < c.window
    ensures var r := Run(c, s, Repeat(y, k));
      && r.utterances == [] && |r.last.buffer| == |s.buffer| + 512 * k
      && r.last.lastSpeechLoc == |s.buffer| && r.last.containsSpeech
  {
    if k > 0 {
      SilenceAfterSpeech(c, s, y, k - 1);
      assert Repeat(y, k)[..k - 1] == Repeat(y, k - 1);
    }
  }

  /** The reference scenario: window 11200, 512-sample chunks, 20 speech chunks and
      then silence. Nothing is emitted during the first 21 silent chunks; the 22nd emits
      exactly one utterance of 20 * 512 + 22 * 512 = 21504 samples and keeps the
      11264 samples of silence. */
  lemma ReferenceScenario(threshold: real, speech: Scored, silence: Scored)
    requires |speech.chunk| == 512 && |silence.chunk| == 512
    requires speech.prob >= threshold > silence.prob
    ensures var c := Config(threshold, 11200);
      var xs := Repeat(speech, 20) + Repeat(silence, 21);
      var ys := xs + [silence];
      && Run(c, Init(), xs).utterances == []
      && |Run(c, Init(), ys).utterances| == 1
      && |Run(c, Init(), ys).utterances[0]| == 21504
      && |Run(c, Init(), ys).last.buffer| == 11264
  {
    var c := Config(threshold, 11200);
    SpeechRun(c, speech, 20);
    var mid := Run(c, Init(), Repeat(speech, 20)).last;
    SilenceAfterSpeech(c, mid, silence, 21);
    var xs := Repeat(speech, 20) + Repeat(silence, 21);
    RunSplit(c, Init(), Repeat(speech, 20), Repeat(silence, 21));
    var ys := xs + [silence];
    assert ys[..|ys| - 1] == xs;
  }
}
