/** The in-browser pipeline of rrfe/app/hooks/useTranscription.ts: the microphone is
    always opened, the VAD worker scores chunks, the fixed-window segmenter cuts
    utterances for the speech-recognition worker, and each finished transcription is
    appended to the list the hook returns. */
module WhisperStreaming {
  import opened Seqs
  import opened Streaming
  import WindowSegmenter

  /** `DEFAULT_OPTIONS`: threshold 0.5 and 0.7 s of silence, i.e. 11200 samples at 16 kHz. */
  const DefaultThreshold: real := 0.5
  const DefaultWindow: nat := 11200

  datatype Transcription = Transcription(id: int, text: string, time: real)

  /** `toWhisper` holds the `generate` requests posted to the recognition worker. */
  datatype Hook = Hook(
    session: Session,
    config: WindowSegmenter.Config,
    segmenter: WindowSegmenter.Segmenter,
    toWhisper: seq<seq<real>>,
    transcription: seq<Transcription>)

  predicate Valid(h: Hook)
  {
    StateIsLastSet(h.session)
  }

  function Init(config: WindowSegmenter.Config): (h: Hook)
    ensures Valid(h) && h.session.stream == Idle && h.transcription == [] && h.toWhisper == []
  {
    Hook(Streaming.Init(), config, WindowSegmenter.Reset(), [], [])
  }

  /** `DEFAULT_OPTIONS` as handed to the segmenter: a threshold of 0.5 instead of the
      segmenter's 0.8, and the segmenter's default window. */
  function DefaultConfig(): (c: WindowSegmenter.Config)
    ensures c.threshold == 0.5 && c.threshold < WindowSegmenter.DefaultConfig().threshold
    ensures c.window == WindowSegmenter.DefaultConfig().window
  {
    WindowSegmenter.Config(DefaultThreshold, DefaultWindow)
  }

  function Body(): seq<Op>
  {
    [SetState(Connecting), Await(GetUserMedia), Build, Await(StartPipeline), SetState(Streaming)]
  }

  function Handler(): seq<Op>
  {
    [SetState(Error), ReleaseMedia]
  }

  /** The microphone is requested whatever the device id (an empty id only drops the
      device constraint). */
  lemma AlwaysMic()
    ensures Calls(Body()) == {GetUserMedia, StartPipeline}
    ensures Sets(Body()) == [Connecting, Streaming]
  {
    var b := Body();
    assert b[1].c == GetUserMedia && b[3].c == StartPipeline;
    assert b[1..][1..][1..][1..][1..] == [];
  }

  /** `startStreaming`: connecting, then streaming once the pipeline has started; a throw
      ends in `error` with the media stream stopped and dropped. */
  function StartStreaming(h: Hook, fails: set<Call>): (r: Hook)
    requires Valid(h)
    ensures Valid(r) && r.transcription == h.transcription && r.segmenter == h.segmenter
    ensures Calls(Body()) !! fails ==>
              r.session.stream == Streaming && r.session.media
              && r.session.trace == h.session.trace + [Connecting, Streaming]
    ensures !(Calls(Body()) !! fails) ==>
              r.session.stream == Error && !r.session.media
              && IsPrefix(h.session.trace + [Connecting], r.session.trace)
  {
    StartOutcome(h.session, Body(), [], fails);
    AlwaysMic();
    assert [SetState(Error), ReleaseMedia] + [] == Handler();
    StartHoldsMedia(h.session, fails);
    h.(session := Start(h.session, Body(), Handler(), fails))
  }

  /** A start that succeeds holds the media stream: no step after the microphone request
      releases it. */
  lemma StartHoldsMedia(s: Session, fails: set<Call>)
    ensures Calls(Body()) !! fails ==> Start(s, Body(), Handler(), fails).media
  {
    if Calls(Body()) !! fails {
      StartSucceeds(s, Body(), Handler(), fails);
      var b := Body();
      assert b[1..][1..][1..][1..][1..] == [];
      assert b[1].c in Calls(b) && b[3].c in Calls(b);
    }
  }

  /** `stopStreaming`: the pipeline is stopped, the stream released, the worker reset,
      the full buffer cleared and the state set to idle. The segmenter is not reset. */
  function Stop(h: Hook): (r: Hook)
    requires Valid(h)
    ensures Valid(r) && r.transcription == h.transcription && r.segmenter == h.segmenter
    ensures r.session.stream == Idle && r.session.trace == h.session.trace + [Idle]
    ensures !r.session.media && r.session.pipeline != Started && r.session.fullBuffer == []
    ensures r.session.toVad == h.session.toVad + [ResetRequest]
  {
    var s := h.session;
    h.(session := s.(stream := Idle, trace := s.trace + [Idle], media := false,
                     pipeline := if s.pipeline == NoPipeline then NoPipeline else Stopped,
                     fullBuffer := [], toVad := s.toVad + [ResetRequest]))
  }

  function Toggle(h: Hook, fails: set<Call>): (r: Hook)
    requires Valid(h)
    ensures Valid(r) && r.transcription == h.transcription
    ensures h.session.stream == Streaming ==> r.session.stream == Idle
    ensures h.session.stream != Streaming ==> IsPrefix(h.session.trace + [Connecting], r.session.trace)
  {
    if h.session.stream == Streaming then Stop(h)
    else
      var r := StartStreaming(h, fails);
      assert (h.session.trace + [Connecting, Streaming])[..|h.session.trace| + 1] == h.session.trace + [Connecting];
      r
  }

  /** A VAD `complete`: `isSpeaking` by the inclusive comparison, the full buffer grows by
      exactly the chunk, and the chunk goes to the segmenter, whose emitted windows are
      posted to the recognition worker. Other messages change nothing. */
  function OnVadMessage(h: Hook, m: VadMessage): (r: Hook)
    requires Valid(h)
    ensures Valid(r) && r.config == h.config && r.transcription == h.transcription
    ensures !m.VadComplete? ==> r == h
    ensures m.VadComplete? ==>
      var step := WindowSegmenter.Process(h.config, h.segmenter, m.audioChunk, m.speechProb);
      && (r.session.isSpeaking <==> m.speechProb >= h.config.threshold)
      && IsPrefix(h.session.fullBuffer, r.session.fullBuffer)
      && r.session.fullBuffer[|h.session.fullBuffer|..] == m.audioChunk
      && r.segmenter == step.next
      && r.toWhisper == h.toWhisper + (if step.fired.Some? && step.fired.value.emitted
                                       then [step.fired.value.samples] else [])
  {
    if !m.VadComplete? then h
    else
      var step := WindowSegmenter.Process(h.config, h.segmenter, m.audioChunk, m.speechProb);
      var s := OnVadResult(h.session, h.config.threshold, m.speechProb, m.audioChunk);
      assert s.fullBuffer[|h.session.fullBuffer|..] == m.audioChunk;
      h.(session := s,
         segmenter := step.next,
         toWhisper := h.toWhisper + (if step.fired.Some? && step.fired.value.emitted
                                     then [step.fired.value.samples] else []))
  }

  function Feed(h: Hook, ms: seq<VadMessage>): (r: Hook)
    requires Valid(h)
    ensures Valid(r)
    decreases |ms|
  {
    if |ms| == 0 then h else OnVadMessage(Feed(h, ms[..|ms| - 1]), ms[|ms| - 1])
  }

  /** The scored chunks among the worker's messages, in order. */
  function Scored(ms: seq<VadMessage>): seq<WindowSegmenter.Scored>
  {
    if |ms| == 0 then []
    else
      var m := ms[|ms| - 1];
      Scored(ms[..|ms| - 1]) + (if m.VadComplete? then [WindowSegmenter.Scored(m.audioChunk, m.speechProb)] else [])
  }

  /** One more scored chunk extends the run by its step. */
  lemma RunStep(c: WindowSegmenter.Config, s: WindowSegmenter.Segmenter, xs: seq<WindowSegmenter.Scored>, x: WindowSegmenter.Scored)
    ensures var prev := WindowSegmenter.Run(c, s, xs);
      var step := WindowSegmenter.Process(c, prev.last, x.chunk, x.prob);
      && WindowSegmenter.Run(c, s, xs + [x]).last == step.next
      && WindowSegmenter.Utterances(WindowSegmenter.Run(c, s, xs + [x]).windows)
         == WindowSegmenter.Utterances(prev.windows)
            + (if step.fired.Some? && step.fired.value.emitted then [step.fired.value.samples] else [])
  {
    var ys := xs + [x];
    assert ys[..|ys| - 1] == xs && ys[|ys| - 1] == x;
    var prev := WindowSegmenter.Run(c, s, xs);
    var step := WindowSegmenter.Process(c, prev.last, x.chunk, x.prob);
    assert WindowSegmenter.Run(c, s, ys)
        == WindowSegmenter.Outcome(step.next, prev.windows + (if step.fired.Some? then [step.fired.value] else []));
    if step.fired.Some? {
      var ws := prev.windows + [step.fired.value];
      assert ws[..|ws| - 1] == prev.windows && ws[|ws| - 1] == step.fired.value;
    } else {
      assert prev.windows + [] == prev.windows;
    }
  }

  /** The recognition worker receives exactly the windows the segmenter emits on the
      scored chunks, in order. */
  lemma {:induction false} FeedSegments(h: Hook, ms: seq<VadMessage>)
    requires Valid(h)
    ensures var run := WindowSegmenter.Run(h.config, h.segmenter, Scored(ms));
      && Feed(h, ms).toWhisper == h.toWhisper + WindowSegmenter.Utterances(run.windows)
      && Feed(h, ms).segmenter == run.last
    ensures Feed(h, ms).config == h.config
    decreases |ms|
  {
    if |ms| > 0 {
      var init := ms[..|ms| - 1];
      FeedSegments(h, init);
      var m := ms[|ms| - 1];
      if m.VadComplete? {
        var x := WindowSegmenter.Scored(m.audioChunk, m.speechProb);
        assert Scored(ms) == Scored(init) + [x];
        RunStep(h.config, h.segmenter, Scored(init), x);
      } else {
        assert Scored(ms) == Scored(init);
      }
    }
  }

  /** Messages of the recognition worker. */
  datatype WhisperMessage = WhisperComplete(id: int, output: string, time: real) | WhisperOther

  /** A `complete` appends exactly one entry; anything else changes nothing. */
  function OnWhisperMessage(h: Hook, m: WhisperMessage): (r: Hook)
    requires Valid(h)
    ensures Valid(r) && r.session == h.session && r.toWhisper == h.toWhisper
    ensures m.WhisperComplete? ==>
              |r.transcription| == |h.transcription| + 1
              && IsPrefix(h.transcription, r.transcription)
              && r.transcription[|h.transcription|] == Transcription(m.id, m.output, m.time)
    ensures m.WhisperOther? ==> r == h
  {
    if m.WhisperComplete? then h.(transcription := h.transcription + [Transcription(m.id, m.output, m.time)])
    else h
  }

  function WhisperFeed(h: Hook, ms: seq<WhisperMessage>): (r: Hook)
    requires Valid(h)
    ensures Valid(r)
    decreases |ms|
  {
    if |ms| == 0 then h else OnWhisperMessage(WhisperFeed(h, ms[..|ms| - 1]), ms[|ms| - 1])
  }

  /** The number of `complete` messages. */
  function Completes(ms: seq<WhisperMessage>): nat
  {
    if |ms| == 0 then 0 else Completes(ms[..|ms| - 1]) + (if ms[|ms| - 1].WhisperComplete? then 1 else 0)
  }

  /** The list only grows, by one entry per `complete`, earlier entries untouched. */
  lemma {:induction false} WhisperFeedAppends(h: Hook, ms: seq<WhisperMessage>)
    requires Valid(h)
    ensures IsPrefix(h.transcription, WhisperFeed(h, ms).transcription)
    ensures |WhisperFeed(h, ms).transcription| == |h.transcription| + Completes(ms)
    decreases |ms|
  {
    if |ms| > 0 {
      WhisperFeedAppends(h, ms[..|ms| - 1]);
      PrefixTransitive(h.transcription, WhisperFeed(h, ms[..|ms| - 1]).transcription, WhisperFeed(h, ms).transcription);
    }
  }
}
