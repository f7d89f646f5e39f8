/** The stream state machine of nuxt-fe/composables/usePostAudio.ts: a selected file is
    read and used as the source; otherwise the microphone is opened. The state after the
    pipeline is built is `startingUp`. */
module PostAudioStreaming {
  import opened Seqs
  import opened Streaming

  /** The hook's default threshold; its default silence duration of 0.7 s only
      configures the segmenter, whose input `segmented` records. */
  const DefaultThreshold: real := 0.5

  datatype Input = Input(deviceId: string, hasFile: bool)

  datatype Hook = Hook(session: Session, threshold: real, segmented: seq<(seq<real>, real)>)

  predicate Valid(h: Hook)
  {
    StateIsLastSet(h.session)
  }

  function Init(threshold: real): (h: Hook)
    ensures Valid(h) && h.session == Streaming.Init() && h.segmented == []
  {
    Hook(Streaming.Init(), threshold, [])
  }

  /** The hook with its default threshold. */
  function DefaultInit(): (h: Hook)
    ensures Valid(h) && h.threshold == 0.5 && h.session == Streaming.Init() && h.segmented == []
  {
    Init(DefaultThreshold)
  }

  function Body(input: Input): seq<Op>
  {
    [SetState(Connecting)]
    + (if input.hasFile then [Await(ReadFile)] else [Await(GetUserMedia)])
    + [Build, SetState(StartingUp), Await(WakeUp), Await(StartPipeline), SetState(Streaming)]
  }

  /** A selected file takes precedence: the microphone is requested exactly when there
      is no file, whatever the device id. */
  lemma FileFirst(input: Input)
    ensures GetUserMedia in Calls(Body(input)) <==> !input.hasFile
    ensures ReadFile in Calls(Body(input)) <==> input.hasFile
  {
    var b := Body(input);
    assert b[1].c == (if input.hasFile then ReadFile else GetUserMedia);
  }

  /** A successful start sets connecting, starting up and streaming, in that order. */
  lemma BodySets(input: Input)
    ensures Sets(Body(input)) == [Connecting, StartingUp, Streaming]
  {
    var m: seq<Op> := if input.hasFile then [Await(ReadFile)] else [Await(GetUserMedia)];
    var a, c := [SetState(Connecting)], [Build, SetState(StartingUp), Await(WakeUp), Await(StartPipeline), SetState(Streaming)];
    SetsAppend(a + m, c);
    SetsAppend(a, m);
    assert c[1..][1..][1..][1..][1..] == [];
  }

  function StartStreaming(h: Hook, input: Input, fails: set<Call>): (r: Hook)
    requires Valid(h)
    ensures Valid(r) && r.segmented == h.segmented && r.threshold == h.threshold
    ensures Calls(Body(input)) !! fails ==>
              r.session.stream == Streaming
              && r.session.trace == h.session.trace + [Connecting, StartingUp, Streaming]
    ensures !(Calls(Body(input)) !! fails) ==>
              r.session.stream == Error && !r.session.media
              && IsPrefix(h.session.trace + [Connecting], r.session.trace)
  {
    StartOutcome(h.session, Body(input), [], fails);
    BodySets(input);
    assert [SetState(Error), ReleaseMedia] + [] == [SetState(Error), ReleaseMedia];
    h.(session := Start(h.session, Body(input), [SetState(Error), ReleaseMedia], fails))
  }

  /** `stopStreaming`: as in the other hooks, and `isSpeaking` is cleared too. */
  function Stop(h: Hook): (r: Hook)
    requires Valid(h)
    ensures Valid(r) && r.segmented == h.segmented && r.threshold == h.threshold
    ensures r.session.stream == Idle && r.session.trace == h.session.trace + [Idle]
    ensures !r.session.media && r.session.pipeline != Started && r.session.fullBuffer == []
    ensures !r.session.isSpeaking && r.session.toVad == h.session.toVad + [ResetRequest]
  {
    var s := h.session;
    h.(session := s.(stream := Idle, trace := s.trace + [Idle], media := false,
                     pipeline := if s.pipeline == NoPipeline then NoPipeline else Stopped,
                     fullBuffer := [], isSpeaking := false, toVad := s.toVad + [ResetRequest]))
  }

  function Toggle(h: Hook, input: Input, fails: set<Call>): (r: Hook)
    requires Valid(h)
    ensures Valid(r)
    ensures h.session.stream == Streaming ==> r.session.stream == Idle && !r.session.isSpeaking
    ensures h.session.stream != Streaming ==> IsPrefix(h.session.trace + [Connecting], r.session.trace)
  {
    if h.session.stream == Streaming then Stop(h)
    else
      var r := StartStreaming(h, input, fails);
      assert (h.session.trace + [Connecting, StartingUp, Streaming])[..|h.session.trace| + 1]
          == h.session.trace + [Connecting];
      r
  }

  function OnVadMessage(h: Hook, m: VadMessage): (r: Hook)
    requires Valid(h)
    ensures Valid(r)
    ensures !m.VadComplete? ==> r == h
    ensures m.VadComplete? ==>
              && (r.session.isSpeaking <==> m.speechProb >= h.threshold)
              && r.session.fullBuffer == h.session.fullBuffer + m.audioChunk
              && r.segmented == h.segmented + [(m.audioChunk, m.speechProb)]
  {
    if m.VadComplete? then
      h.(session := OnVadResult(h.session, h.threshold, m.speechProb, m.audioChunk),
         segmented := h.segmented + [(m.audioChunk, m.speechProb)])
    else h
  }
}
