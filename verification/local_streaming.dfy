/** The in-browser pipeline of frontend/app/hooks/useLocalTranscription.ts: the VAD
    worker scores chunks, the hysteresis segmenter cuts utterances that go to the
    speech-recognition worker, its tokens go to the token store, and each finished
    transcription is sent to the translation worker when a target language is set. */
module LocalStreaming {
  import opened Seqs
  import opened Streaming
  import HysteresisSegmenter
  import TokenStore

  /** Hook defaults: threshold 0.5 and 0.7 s of silence, i.e. 11200 samples at 16 kHz. */
  const DefaultThreshold: real := 0.5
  const DefaultWindow: nat := 11200

  /** `input.deviceId` ("" when not given) and whether a file was given. */
  datatype Input = Input(deviceId: string, hasFile: bool)

  /** A `generate` request to the translation worker. */
  datatype TranslateRequest = TranslateRequest(text: string, targetLanguage: string, id: int)

  /** `targetLanguage` is "" when not given; `toWhisper` and `toTranslator` are the
      `generate` requests posted to the two workers, in order. */
  datatype Hook = Hook(
    session: Session,
    config: HysteresisSegmenter.Config,
    segmenter: HysteresisSegmenter.Segmenter,
    targetLanguage: string,
    whisperReady: bool,
    translatorReady: bool,
    startNewTranscription: bool,
    store: TokenStore.Store,
    toWhisper: seq<seq<real>>,
    toTranslator: seq<TranslateRequest>)

  predicate Valid(h: Hook)
  {
    StateIsLastSet(h.session) && HysteresisSegmenter.Valid(h.segmenter) && TokenStore.Valid(h.store)
  }

  function Init(config: HysteresisSegmenter.Config, targetLanguage: string): (h: Hook)
    ensures Valid(h) && IsLoadingModels(h) && h.session.stream == Idle
    ensures h.store == map[] && h.toWhisper == [] && h.toTranslator == []
  {
    Hook(Streaming.Init(), config, HysteresisSegmenter.Init(), targetLanguage,
         false, false, true, TokenStore.Empty(), [], [])
  }

  /** The hook's defaults, handed to the segmenter: its own threshold of 0.5 instead of the
      segmenter's 0.8, and the segmenter's default window. */
  function DefaultConfig(): (c: HysteresisSegmenter.Config)
    ensures c.threshold == 0.5 && c.threshold < HysteresisSegmenter.DefaultConfig().threshold
    ensures c.window == HysteresisSegmenter.DefaultConfig().window
  {
    HysteresisSegmenter.Config(DefaultThreshold, DefaultWindow)
  }

  /** `isLoadingModels`. */
  predicate IsLoadingModels(h: Hook)
  {
    !h.whisperReady || !h.translatorReady
  }

  function Body(input: Input): seq<Op>
  {
    [SetState(Connecting)]
    + (if input.deviceId != "" then [Await(GetUserMedia)] else [])
    + [Build, Await(StartPipeline), SetState(Streaming)]
  }

  function Handler(): seq<Op>
  {
    [SetState(Error), ReleaseMedia]
  }

  /** The microphone is requested exactly when a device id is set. */
  lemma MicOnlyWithDevice(input: Input)
    ensures Calls(Body(input)) == {StartPipeline} + (if input.deviceId != "" then {GetUserMedia} else {})
  {
    var b := Body(input);
    if input.deviceId != "" {
      assert b[1].c == GetUserMedia;
    }
    assert b[|b| - 2].c == StartPipeline;
  }

  lemma BodySets(input: Input)
    ensures Sets(Body(input)) == [Connecting, Streaming]
  {
    var m: seq<Op> := if input.deviceId != "" then [Await(GetUserMedia)] else [];
    var a, c := [SetState(Connecting)], [Build, Await(StartPipeline), SetState(Streaming)];
    SetsAppend(a + m, c);
    SetsAppend(a, m);
    assert a[1..] == [];
    assert c[1..][1..][1..] == [];
  }

  /** `startStreaming`: connecting, then streaming once the pipeline has started; a throw
      ends in `error` with the media stream stopped and dropped. */
  function StartStreaming(h: Hook, input: Input, fails: set<Call>): (r: Hook)
    requires Valid(h)
    ensures Valid(r) && r.store == h.store && r.toWhisper == h.toWhisper
    ensures Calls(Body(input)) !! fails ==>
              r.session.stream == Streaming && r.session.trace == h.session.trace + [Connecting, Streaming]
    ensures !(Calls(Body(input)) !! fails) ==>
              r.session.stream == Error && !r.session.media
              && IsPrefix(h.session.trace + [Connecting], r.session.trace)
  {
    StartOutcome(h.session, Body(input), [], fails);
    BodySets(input);
    assert [SetState(Error), ReleaseMedia] + [] == Handler();
    h.(session := Start(h.session, Body(input), Handler(), fails))
  }

  /** `stopStreaming`: the pipeline is stopped, the stream released, the worker reset,
      the full buffer cleared and the state set to idle. The transcripts are kept. */
  function Stop(h: Hook): (r: Hook)
    requires Valid(h)
    ensures Valid(r) && r.store == h.store && r.segmenter == h.segmenter
    ensures r.session.stream == Idle && r.session.trace == h.session.trace + [Idle]
    ensures !r.session.media && r.session.pipeline != Started && r.session.fullBuffer == []
    ensures r.session.toVad == h.session.toVad + [ResetRequest]
  {
    var s := h.session;
    h.(session := s.(stream := Idle, trace := s.trace + [Idle], media := false,
                     pipeline := if s.pipeline == NoPipeline then NoPipeline else Stopped,
                     fullBuffer := [], toVad := s.toVad + [ResetRequest]))
  }

  function Toggle(h: Hook, input: Input, fails: set<Call>): (r: Hook)
    requires Valid(h)
    ensures Valid(r)
    ensures h.session.stream == Streaming ==> r.session.stream == Idle
    ensures h.session.stream != Streaming ==> IsPrefix(h.session.trace + [Connecting], r.session.trace)
  {
    if h.session.stream == Streaming then Stop(h)
    else
      var r := StartStreaming(h, input, fails);
      assert (h.session.trace + [Connecting, Streaming])[..|h.session.trace| + 1] == h.session.trace + [Connecting];
      r
  }

  /** A VAD `complete`: `isSpeaking` by the inclusive comparison, the chunk appended to
      the full buffer and handed to the segmenter; an utterance the segmenter hands back
      is posted to the recognition worker. Other messages change nothing. */
  function OnVadMessage(h: Hook, m: VadMessage): (r: Hook)
    requires Valid(h)
    ensures Valid(r)
    ensures !m.VadComplete? ==> r == h
    ensures m.VadComplete? ==>
      var step := HysteresisSegmenter.Process(h.config, h.segmenter, m.audioChunk, m.speechProb);
      && (r.session.isSpeaking <==> m.speechProb >= h.config.threshold)
      && r.session.fullBuffer == h.session.fullBuffer + m.audioChunk
      && r.segmenter == step.next
      && r.toWhisper == h.toWhisper + (if step.utterance.Some? then [step.utterance.value] else [])
      && r.store == h.store && r.session.stream == h.session.stream
    ensures r.config == h.config
  {
    if !m.VadComplete? then h
    else
      var step := HysteresisSegmenter.Process(h.config, h.segmenter, m.audioChunk, m.speechProb);
      h.(session := OnVadResult(h.session, h.config.threshold, m.speechProb, m.audioChunk),
         segmenter := step.next,
         toWhisper := h.toWhisper + (if step.utterance.Some? then [step.utterance.value] else []))
  }

  function Feed(h: Hook, ms: seq<VadMessage>): (r: Hook)
    requires Valid(h)
    ensures Valid(r)
    decreases |ms|
  {
    if |ms| == 0 then h else OnVadMessage(Feed(h, ms[..|ms| - 1]), ms[|ms| - 1])
  }

  /** The scored chunks among the worker's messages, in order. */
  function Scored(ms: seq<VadMessage>): seq<HysteresisSegmenter.Scored>
  {
    if |ms| == 0 then []
    else
      var m := ms[|ms| - 1];
      Scored(ms[..|ms| - 1]) + (if m.VadComplete? then [HysteresisSegmenter.Scored(m.audioChunk, m.speechProb)] else [])
  }

  /** The recognition worker receives exactly the utterances the segmenter cuts from the
      scored chunks, in order, and the segmenter ends where a direct run of it ends. */
  lemma {:induction false} FeedSegments(h: Hook, ms: seq<VadMessage>)
    requires Valid(h)
    ensures var run := HysteresisSegmenter.Run(h.config, h.segmenter, Scored(ms));
      && Feed(h, ms).toWhisper == h.toWhisper + run.utterances
      && Feed(h, ms).segmenter == run.last
    ensures Feed(h, ms).config == h.config
    decreases |ms|
  {
    if |ms| > 0 {
      var init := ms[..|ms| - 1];
      FeedSegments(h, init);
      var xs := Scored(ms);
      var m := ms[|ms| - 1];
      if m.VadComplete? {
        assert xs[..|xs| - 1] == Scored(init);
        assert xs[|xs| - 1] == HysteresisSegmenter.Scored(m.audioChunk, m.speechProb);
      } else {
        assert xs == Scored(init);
      }
    }
  }

  /** Messages of the recognition worker. */
  datatype WhisperMessage =
    | WhisperStart
    | WhisperReady
    | WhisperUpdate(utteranceId: int, tokenId: int, output: string)
    | WhisperComplete(utteranceId: int, output: string)
    | WhisperOther

  /** `start` flags a new transcription, `ready` marks the model loaded, `update` adds a
      transcription token, and `complete` asks for a translation when a target language
      is set. */
  function OnWhisperMessage(h: Hook, m: WhisperMessage): (r: Hook)
    requires Valid(h)
    ensures Valid(r) && r.session == h.session && r.segmenter == h.segmenter && r.toWhisper == h.toWhisper
    ensures r.targetLanguage == h.targetLanguage
    ensures m.WhisperStart? ==> r == h.(startNewTranscription := true)
    ensures m.WhisperReady? ==> r == h.(whisperReady := true)
    ensures m.WhisperUpdate? ==>
              r.store == TokenStore.AddTranscriptionToken(h.store, m.utteranceId, TokenStore.Token(m.output, m.tokenId))
    ensures m.WhisperUpdate? ==> r.toTranslator == h.toTranslator
    ensures m.WhisperComplete? ==> r.store == h.store
    ensures m.WhisperComplete? && h.targetLanguage != "" ==>
              r.toTranslator == h.toTranslator + [TranslateRequest(m.output, h.targetLanguage, m.utteranceId)]
    ensures m.WhisperComplete? && h.targetLanguage == "" ==> r == h
    ensures m.WhisperOther? ==> r == h
  {
    match m
    case WhisperStart => h.(startNewTranscription := true)
    case WhisperReady => h.(whisperReady := true)
    case WhisperUpdate(id, tokenId, output) =>
      h.(store := TokenStore.AddTranscriptionToken(h.store, id, TokenStore.Token(output, tokenId)))
    case WhisperComplete(id, output) =>
      if h.targetLanguage != "" then
        h.(toTranslator := h.toTranslator + [TranslateRequest(output, h.targetLanguage, id)])
      else h
    case WhisperOther => h
  }

  /** Messages of the translation worker (its `complete` is among the others). */
  datatype TranslatorMessage =
    | TranslatorReady
    | TranslatorUpdate(utteranceId: int, tokenId: int, value: string)
    | TranslatorOther

  function OnTranslatorMessage(h: Hook, m: TranslatorMessage): (r: Hook)
    requires Valid(h)
    ensures Valid(r) && r.session == h.session && r.toTranslator == h.toTranslator
    ensures m.TranslatorReady? ==> r == h.(translatorReady := true)
    ensures m.TranslatorUpdate? ==>
              r.store == TokenStore.AddTranslationToken(h.store, m.utteranceId, TokenStore.Token(m.value, m.tokenId))
    ensures m.TranslatorOther? ==> r == h
  {
    match m
    case TranslatorReady => h.(translatorReady := true)
    case TranslatorUpdate(id, tokenId, value) =>
      h.(store := TokenStore.AddTranslationToken(h.store, id, TokenStore.Token(value, tokenId)))
    case TranslatorOther => h
  }

  /** The models count as loading until both workers have reported ready, in either order. */
  lemma LoadingUntilBothReady(h: Hook)
    requires Valid(h) && !h.whisperReady && !h.translatorReady
    ensures IsLoadingModels(OnWhisperMessage(h, WhisperReady))
    ensures IsLoadingModels(OnTranslatorMessage(h, TranslatorReady))
    ensures !IsLoadingModels(OnTranslatorMessage(OnWhisperMessage(h, WhisperReady), TranslatorReady))
    ensures !IsLoadingModels(OnWhisperMessage(OnTranslatorMessage(h, TranslatorReady), WhisperReady))
  {
  }

  /** The store action of a recognition-worker message, if any. */
  function WhisperActions(ms: seq<WhisperMessage>): seq<TokenStore.Action>
  {
    if |ms| == 0 then []
    else
      var m := ms[|ms| - 1];
      WhisperActions(ms[..|ms| - 1])
      + (if m.WhisperUpdate? then [TokenStore.AddTranscription(m.utteranceId, TokenStore.Token(m.output, m.tokenId))] else [])
  }

  function WhisperFeed(h: Hook, ms: seq<WhisperMessage>): (r: Hook)
    requires Valid(h)
    ensures Valid(r)
    decreases |ms|
  {
    if |ms| == 0 then h else OnWhisperMessage(WhisperFeed(h, ms[..|ms| - 1]), ms[|ms| - 1])
  }

  /** The store after the recognition worker's messages is the store replaying their
      token updates, and one translation request goes out per completed utterance when a
      target language is set. */
  lemma {:induction false} WhisperFeedReplays(h: Hook, ms: seq<WhisperMessage>)
    requires Valid(h)
    ensures WhisperFeed(h, ms).store == TokenStore.Replay(h.store, WhisperActions(ms))
    ensures h.targetLanguage == "" ==> WhisperFeed(h, ms).toTranslator == h.toTranslator
    ensures WhisperFeed(h, ms).targetLanguage == h.targetLanguage
    decreases |ms|
  {
    if |ms| > 0 {
      var init := ms[..|ms| - 1];
      WhisperFeedReplays(h, init);
      var acts := WhisperActions(ms);
      if ms[|ms| - 1].WhisperUpdate? {
        assert acts[..|acts| - 1] == WhisperActions(init);
      } else {
        assert acts == WhisperActions(init);
      }
    }
  }

  /** The actions built from the recognition worker's messages never clear the store. */
  lemma {:induction false} WhisperActionsNoClear(ms: seq<WhisperMessage>)
    ensures TokenStore.NoClear(WhisperActions(ms))
    decreases |ms|
  {
    if |ms| > 0 {
      WhisperActionsNoClear(ms[..|ms| - 1]);
    }
  }
}
