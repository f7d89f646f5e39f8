/** The fixed-window utterance segmenter of rrfe/app/lib/utterance-segmenter.ts.

    Chunks accumulate until the buffer is strictly longer than the window `window`
    (16000 times the silence duration, rounded down). The segmenter then fires: the
    whole buffer goes to the callback if any chunk in it was speech, and the buffer
    and the speech flag are reset either way. */
module WindowSegmenter {
  import opened Seqs

  /** Constructor defaults: threshold 0.8 and 0.7 s at 16 kHz, i.e. 11200 samples. */
  const DefaultThreshold: real := 0.8
  const DefaultWindow: nat := 11200

  datatype Config = Config(threshold: real, window: nat)

  datatype Segmenter = Segmenter(buffer: seq<real>, containsSpeech: bool)

  /** A window the segmenter fired on, and whether the callback received it. */
  datatype Fired = Fired(samples: seq<real>, emitted: bool)

  datatype Step = Step(next: Segmenter, fired: Option<Fired>)

  datatype Scored = Scored(chunk: seq<real>, prob: real)

  function DefaultConfig(): (c: Config)
    ensures c.threshold == 0.8
    ensures c.window == 16000 * 7 / 10
  {
    Config(DefaultThreshold, DefaultWindow)
  }

  /** `reset`: an empty buffer without speech. */
  function Reset(): (s: Segmenter)
    ensures s.buffer == [] && !s.containsSpeech
  {
    Segmenter([], false)
  }

  predicate IsSpeech(c: Config, prob: real)
  {
    prob >= c.threshold
  }

  function Process(c: Config, s: Segmenter, chunk: seq<real>, prob: real): (r: Step)
    ensures |r.next.buffer| <= c.window
    ensures r.fired.Some? <==> |s.buffer| + |chunk| > c.window
    ensures r.fired.Some? ==> r.next == Reset() && r.fired.value.samples == s.buffer + chunk
    ensures r.fired.None? ==> r.next.buffer == s.buffer + chunk
  {
    var buffer := s.buffer + chunk;
    var containsSpeech := s.containsSpeech || IsSpeech(c, prob);
    if |buffer| > c.window then
      Step(Reset(), Some(Fired(buffer, containsSpeech)))
    else
      Step(Segmenter(buffer, containsSpeech), None)
  }

  function Samples(xs: seq<Scored>): seq<real>
  {
    if |xs| == 0 then [] else Samples(xs[..|xs| - 1]) + xs[|xs| - 1].chunk
  }

  /** Some chunk of the list was scored as speech. */
  predicate AnySpeech(c: Config, xs: seq<Scored>)
  {
    exists i :: 0 <= i < |xs| && IsSpeech(c, xs[i].prob)
  }

  /** The segmenter state is determined by the chunks received since the last
      reset: `pending` holds them. */
  predicate Tracks(c: Config, s: Segmenter, pending: seq<Scored>)
  {
    s.buffer == Samples(pending) && s.containsSpeech == AnySpeech(c, pending)
  }

  /** One step, stated against the chunks since the last reset: the buffer is their
      concatenation; a fired window is exactly those chunks plus the new one, and it is
      emitted if and only if one of them scored at or above the threshold. */
  lemma StepTracks(c: Config, s: Segmenter, pending: seq<Scored>, x: Scored)
    requires Tracks(c, s, pending)
    ensures var r := Process(c, s, x.chunk, x.prob);
      && (r.fired.None? ==> Tracks(c, r.next, pending + [x]))
      && (r.fired.Some? ==> Tracks(c, r.next, [])
                            && r.fired.value.samples == Samples(pending + [x])
                            && (r.fired.value.emitted <==> AnySpeech(c, pending + [x])))
  {
    var p := pending + [x];
    assert p[..|p| - 1] == pending;
    if AnySpeech(c, p) && !IsSpeech(c, x.prob) {
      var i :| 0 <= i < |p| && IsSpeech(c, p[i].prob);
      assert i < |pending| && pending[i] == p[i];
    }
    if AnySpeech(c, pending) {
      var i :| 0 <= i < |pending| && IsSpeech(c, pending[i].prob);
      assert p[i] == pending[i];
    }
    if IsSpeech(c, x.prob) {
      assert p[|p| - 1] == x;
    }
  }

  datatype Outcome = Outcome(last: Segmenter, windows: seq<Fired>)

  function Run(c: Config, s: Segmenter, xs: seq<Scored>): (r: Outcome)
    decreases |xs|
  {
    if |xs| == 0 then Outcome(s, [])
    else
      var prev := Run(c, s, xs[..|xs| - 1]);
      var step := Process(c, prev.last, xs[|xs| - 1].chunk, xs[|xs| - 1].prob);
      Outcome(step.next, prev.windows + (if step.fired.Some? then [step.fired.value] else []))
  }

  /** The samples of the fired windows, in order. */
  function Concat(ws: seq<Fired>): seq<real>
  {
    if |ws| == 0 then [] else Concat(ws[..|ws| - 1]) + ws[|ws| - 1].samples
  }

  /** The utterances handed to the callback, in order. */
  function Utterances(ws: seq<Fired>): seq<seq<real>>
  {
    if |ws| == 0 then []
    else Utterances(ws[..|ws| - 1]) + (if ws[|ws| - 1].emitted then [ws[|ws| - 1].samples] else [])
  }

  /** The input is cut into consecutive windows, each emitted whole or discarded:
      the fired windows followed by the current buffer are exactly the input, in order,
      so no sample is in two windows. */
  lemma {:induction false} Partition(c: Config, s: Segmenter, xs: seq<Scored>)
    ensures Concat(Run(c, s, xs).windows) + Run(c, s, xs).last.buffer == s.buffer + Samples(xs)
    decreases |xs|
  {
    if |xs| > 0 {
      var xs' := xs[..|xs| - 1];
      var x := xs[|xs| - 1];
      Partition(c, s, xs');
      var prev := Run(c, s, xs');
      PartitionStep(c, prev, x);
      assert Samples(xs) == Samples(xs') + x.chunk;
    }
  }

  /** One step of the run keeps the windows followed by the buffer equal to the input. */
  lemma PartitionStep(c: Config, prev: Outcome, x: Scored)
    ensures var step := Process(c, prev.last, x.chunk, x.prob);
      var ws := prev.windows + (if step.fired.Some? then [step.fired.value] else []);
      Concat(ws) + step.next.buffer == Concat(prev.windows) + prev.last.buffer + x.chunk
  {
    var step := Process(c, prev.last, x.chunk, x.prob);
    var a, b := Concat(prev.windows), prev.last.buffer;
    if step.fired.Some? {
      var ws := prev.windows + [step.fired.value];
      assert ws[..|ws| - 1] == prev.windows;
      assert Concat(ws) == a + (b + x.chunk);
    } else {
      assert prev.windows + [] == prev.windows;
    }
  }

  /** Every fired window is longer than the window size, and the buffer never is. */
  lemma {:induction false} WindowBounds(c: Config, s: Segmenter, xs: seq<Scored>)
    requires |s.buffer| <= c.window
    ensures forall i :: 0 <= i < |Run(c, s, xs).windows| ==> |Run(c, s, xs).windows[i].samples| > c.window
    ensures |Run(c, s, xs).last.buffer| <= c.window
    decreases |xs|
  {
    if |xs| > 0 {
      WindowBounds(c, s, xs[..|xs| - 1]);
    }
  }

  /** Every emitted utterance is longer than the window. */
  lemma {:induction false} UtterancesAreLong(c: Config, ws: seq<Fired>)
    requires forall i :: 0 <= i < |ws| ==> |ws[i].samples| > c.window
    ensures forall i :: 0 <= i < |Utterances(ws)| ==> |Utterances(ws)[i]| > c.window
  {
    if |ws| > 0 {
      UtterancesAreLong(c, ws[..|ws| - 1]);
    }
  }

  /** Windows without any speech never reach the callback. */
  lemma {:induction false} SilenceNeverEmits(c: Config, xs: seq<Scored>)
    requires forall i :: 0 <= i < |xs| ==> !IsSpeech(c, xs[i].prob)
    ensures Utterances(Run(c, Reset(), xs).windows) == []
    ensures !Run(c, Reset(), xs).last.containsSpeech
    decreases |xs|
  {
    if |xs| > 0 {
      SilenceNeverEmits(c, xs[..|xs| - 1]);
      var r := Run(c, Reset(), xs);
      var prev := Run(c, Reset(), xs[..|xs| - 1]);
      if |r.windows| > |prev.windows| {
        assert r.windows[..|r.windows| - 1] == prev.windows;
      } else {
        assert r.windows == prev.windows;
      }
    }
  }
}
