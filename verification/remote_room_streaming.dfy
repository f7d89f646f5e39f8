/** The stream state machine of rr-frontend/app/hooks/useRemoteTranscription.ts: a room
    is created, the microphone is opened when a device is chosen (the file is the
    source otherwise), the backend is woken up and the audio pipeline started. */
module RemoteRoomStreaming {
  import opened Seqs
  import opened Streaming

  /** The hook's default threshold; its default silence duration of 0.7 s only
      configures the segmenter, whose input `segmented` records. */
  const DefaultThreshold: real := 0.5

  /** `input.deviceId` ("" when not given) and whether a file was given. */
  datatype Input = Input(deviceId: string, hasFile: bool)

  /** The chunks handed to the segmenter, with their scores, in arrival order. */
  datatype Hook = Hook(session: Session, threshold: real, segmented: seq<(seq<real>, real)>)

  function Init(threshold: real): (h: Hook)
    ensures h.session == Streaming.Init() && h.segmented == [] && h.threshold == threshold
  {
    Hook(Streaming.Init(), threshold, [])
  }

  /** The hook with its default threshold. */
  function DefaultInit(): (h: Hook)
    ensures h.threshold == 0.5 && h.session == Streaming.Init() && h.segmented == []
  {
    Init(DefaultThreshold)
  }

  function Body(input: Input): seq<Op>
  {
    [SetState(Connecting), Await(CreateRoom)]
    + (if input.deviceId != "" then [Await(GetUserMedia)] else [])
    + [Build, SetState(WarmingUp), Await(WakeUp), Await(StartPipeline), SetState(Streaming)]
  }

  function Handler(): seq<Op>
  {
    [SetState(Error), ReleaseMedia]
  }

  /** The microphone is requested exactly when a device id is set. */
  lemma MicOnlyWithDevice(input: Input)
    ensures GetUserMedia in Calls(Body(input)) <==> input.deviceId != ""
    ensures Calls(Body(input)) ==
      {CreateRoom, WakeUp, StartPipeline} + (if input.deviceId != "" then {GetUserMedia} else {})
  {
    var b := Body(input);
    if input.deviceId != "" {
      assert b[2].c == GetUserMedia;
    }
    assert b[1].c == CreateRoom;
    assert b[|b| - 2].c == StartPipeline && b[|b| - 3].c == WakeUp;
  }

  /** A successful start sets connecting, warming up and streaming, in that order. */
  lemma BodySets(input: Input)
    ensures Sets(Body(input)) == [Connecting, WarmingUp, Streaming]
  {
    var m: seq<Op> := if input.deviceId != "" then [Await(GetUserMedia)] else [];
    var a, c := [SetState(Connecting), Await(CreateRoom)], [Build, SetState(WarmingUp), Await(WakeUp), Await(StartPipeline), SetState(Streaming)];
    SetsAppend(a + m, c);
    SetsAppend(a, m);
    assert a[1..][1..] == [];
    assert c[1..][1..][1..][1..][1..] == [];
  }

  predicate Valid(h: Hook)
  {
    StateIsLastSet(h.session)
  }

  /** `startStreaming`: connecting, then warming up once the pipeline exists, then
      streaming; any throw ends in `error` with the media stream stopped and dropped. */
  function StartStreaming(h: Hook, input: Input, fails: set<Call>): (r: Hook)
    requires Valid(h)
    ensures Valid(r) && r.segmented == h.segmented && r.threshold == h.threshold
    ensures Calls(Body(input)) !! fails ==>
              r.session.stream == Streaming
              && r.session.trace == h.session.trace + [Connecting, WarmingUp, Streaming]
    ensures !(Calls(Body(input)) !! fails) ==>
              r.session.stream == Error && !r.session.media
              && IsPrefix(h.session.trace + [Connecting], r.session.trace)
  {
    StartOutcome(h.session, Body(input), [], fails);
    BodySets(input);
    assert [SetState(Error), ReleaseMedia] + [] == Handler();
    h.(session := Start(h.session, Body(input), Handler(), fails))
  }

  /** `stopStreaming`: the pipeline is stopped, the stream released, the worker reset,
      the full buffer cleared and the state set to idle. */
  function Stop(h: Hook): (r: Hook)
    requires Valid(h)
    ensures Valid(r) && r.segmented == h.segmented && r.threshold == h.threshold
    ensures r.session.stream == Idle && r.session.trace == h.session.trace + [Idle]
    ensures !r.session.media && r.session.pipeline != Started && r.session.fullBuffer == []
    ensures r.session.toVad == h.session.toVad + [ResetRequest]
  {
    var s := h.session;
    h.(session := s.(stream := Idle, trace := s.trace + [Idle], media := false,
                     pipeline := if s.pipeline == NoPipeline then NoPipeline else Stopped,
                     fullBuffer := [], toVad := s.toVad + [ResetRequest]))
  }

  /** `toggleStreaming`: only a streaming hook stops; every other state, error and
      connecting included, starts again. */
  function Toggle(h: Hook, input: Input, fails: set<Call>): (r: Hook)
    requires Valid(h)
    ensures Valid(r)
    ensures h.session.stream == Streaming ==> r.session.stream == Idle
    ensures h.session.stream != Streaming ==> IsPrefix(h.session.trace + [Connecting], r.session.trace)
  {
    if h.session.stream == Streaming then Stop(h)
    else
      var r := StartStreaming(h, input, fails);
      assert (h.session.trace + [Connecting, WarmingUp, Streaming])[..|h.session.trace| + 1]
          == h.session.trace + [Connecting];
      r
  }

  /** A VAD `complete`: `isSpeaking` by the inclusive comparison, the chunk appended to the
      full buffer and handed to the segmenter with its score. Other messages change nothing. */
  function OnVadMessage(h: Hook, m: VadMessage): (r: Hook)
    requires Valid(h)
    ensures Valid(r)
    ensures !m.VadComplete? ==> r == h
    ensures m.VadComplete? ==>
              && (r.session.isSpeaking <==> m.speechProb >= h.threshold)
              && r.session.fullBuffer == h.session.fullBuffer + m.audioChunk
              && r.segmented == h.segmented + [(m.audioChunk, m.speechProb)]
              && r.session.stream == h.session.stream
  {
    if m.VadComplete? then
      h.(session := OnVadResult(h.session, h.threshold, m.speechProb, m.audioChunk),
         segmented := h.segmented + [(m.audioChunk, m.speechProb)])
    else h
  }

  /** Worker messages handled in order. */
  function Feed(h: Hook, ms: seq<VadMessage>): (r: Hook)
    requires Valid(h)
    ensures Valid(r)
    decreases |ms|
  {
    if |ms| == 0 then h else OnVadMessage(Feed(h, ms[..|ms| - 1]), ms[|ms| - 1])
  }

  function Chunks(ms: seq<VadMessage>): seq<real>
  {
    if |ms| == 0 then []
    else Chunks(ms[..|ms| - 1]) + (if ms[|ms| - 1].VadComplete? then ms[|ms| - 1].audioChunk else [])
  }

  /** Between a start and a stop the full buffer is the previous one followed by the
      scored chunks, in arrival order. */
  lemma {:induction false} FeedAppends(h: Hook, ms: seq<VadMessage>)
    requires Valid(h)
    ensures Feed(h, ms).session.fullBuffer == h.session.fullBuffer + Chunks(ms)
    ensures Feed(h, ms).session.stream == h.session.stream
    decreases |ms|
  {
    if |ms| > 0 {
      FeedAppends(h, ms[..|ms| - 1]);
    }
  }
}
