/** The stream state machine of frontend/app/hooks/useRemoteTranscription.ts: chunks are
    numbered as they are sent to the VAD worker, the numbers still awaiting a result are
    kept in a set, and utterances from the hysteresis segmenter go out on a web socket
    when it is open. */
module SocketStreaming {
  import opened Seqs
  import opened Streaming
  import HysteresisSegmenter

  datatype Transcription = Transcription(text: string, inferenceTime: real)

  /** `completed` records the results that arrived for numbers already sent; the source
      keeps only `outstanding`. */
  datatype Hook = Hook(
    session: Session,
    config: HysteresisSegmenter.Config,
    segmenter: HysteresisSegmenter.Segmenter,
    chunkBuffer: seq<real>,
    lastSequenceNumber: nat,
    outstanding: set<nat>,
    completed: set<nat>,
    sent: seq<seq<real>>,
    transcription: seq<Transcription>)

  /** The sequence numbers carried by the inference requests, in order. */
  function Numbers(rs: seq<VadRequest>): seq<Option<nat>>
  {
    if |rs| == 0 then []
    else Numbers(rs[..|rs| - 1]) + (if rs[|rs| - 1].Inference? then [rs[|rs| - 1].sequenceNumber] else [])
  }

  /** The i-th chunk sent carries number i. */
  predicate Numbered(ns: seq<Option<nat>>, n: nat)
  {
    |ns| == n && forall i :: 0 <= i < n ==> ns[i] == Some(i)
  }

  /** The outstanding numbers are those sent (below `n`) whose result has not come back. */
  predicate Counted(outstanding: set<nat>, completed: set<nat>, n: nat)
  {
    && (forall k :: k in completed ==> k < n)
    && (forall k :: k in outstanding ==> k < n && k !in completed)
    && (forall k: nat :: k < n && k !in completed ==> k in outstanding)
  }

  predicate Valid(h: Hook)
  {
    && StateIsLastSet(h.session)
    && HysteresisSegmenter.Valid(h.segmenter)
    && Counted(h.outstanding, h.completed, h.lastSequenceNumber)
    && Numbered(Numbers(h.session.toVad), h.lastSequenceNumber)
  }

  function Init(threshold: real, window: nat): (h: Hook)
    ensures Valid(h) && h.lastSequenceNumber == 0 && h.outstanding == {}
  {
    Hook(Streaming.Init(), HysteresisSegmenter.Config(threshold, window), HysteresisSegmenter.Init(),
         [], 0, {}, {}, [], [])
  }

  function Body(): seq<Op>
  {
    [SetState(Connecting), OpenSocket, Await(GetUserMedia), Build, Await(StartPipeline), SetState(Streaming)]
  }

  lemma BodySets()
    ensures Sets(Body()) == [Connecting, Streaming]
  {
    var b := Body();
    assert b[1..][1..][1..][1..][1..][1..] == [];
  }

  lemma NumbersReset(rs: seq<VadRequest>)
    ensures Numbers(rs + [ResetRequest]) == Numbers(rs)
  {
    assert (rs + [ResetRequest])[..|rs|] == rs;
  }

  lemma NumbersInference(rs: seq<VadRequest>, chunk: seq<real>, n: nat)
    ensures Numbers(rs + [Inference(chunk, Some(n))]) == Numbers(rs) + [Some(n)]
  {
    assert (rs + [Inference(chunk, Some(n))])[..|rs|] == rs;
  }

  /** `startStreaming`: connecting, then streaming once the microphone and the pipeline
      are up; on a throw, `error` with the stream released and the socket closed and
      dropped. Nothing posted to the worker and no numbering changes. */
  function StartStreaming(h: Hook, fails: set<Call>): (r: Hook)
    requires Valid(h)
    ensures Valid(r)
    ensures r.session.toVad == h.session.toVad && r.lastSequenceNumber == h.lastSequenceNumber
    ensures Calls(Body()) !! fails ==>
              r.session.stream == Streaming && r.session.trace == h.session.trace + [Connecting, Streaming]
    ensures !(Calls(Body()) !! fails) ==>
              && r.session.stream == Error && !r.session.media && r.session.socket == NoSocket
              && IsPrefix(h.session.trace + [Connecting], r.session.trace)
  {
    StartOutcome(h.session, Body(), [CloseSocket], fails);
    BodySets();
    var s := Start(h.session, Body(), [SetState(Error), ReleaseMedia, CloseSocket], fails);
    assert [SetState(Error), ReleaseMedia] + [CloseSocket] == [SetState(Error), ReleaseMedia, CloseSocket];
    assert Numbers(s.toVad) == Numbers(h.session.toVad);
    h.(session := s)
  }

  /** `stopStreaming`: the pipeline is stopped and dropped, the stream released, the
      worker reset, the socket closed and dropped, the full buffer cleared and the state
      set to idle. The per-chunk buffer and the numbering are kept. */
  function Stop(h: Hook): (r: Hook)
    requires Valid(h)
    ensures Valid(r)
    ensures r.session.stream == Idle && r.session.trace == h.session.trace + [Idle]
    ensures !r.session.media && r.session.pipeline == NoPipeline && r.session.socket == NoSocket
    ensures r.session.fullBuffer == [] && r.session.toVad == h.session.toVad + [ResetRequest]
    ensures r.chunkBuffer == h.chunkBuffer && r.lastSequenceNumber == h.lastSequenceNumber
    ensures r.outstanding == h.outstanding
  {
    var s := h.session;
    NumbersReset(s.toVad);
    h.(session := s.(stream := Idle, trace := s.trace + [Idle], media := false, pipeline := NoPipeline,
                     socket := NoSocket, fullBuffer := [], toVad := s.toVad + [ResetRequest]))
  }

  function Toggle(h: Hook, fails: set<Call>): (r: Hook)
    requires Valid(h)
    ensures Valid(r) && r.lastSequenceNumber == h.lastSequenceNumber
    ensures h.session.stream == Streaming ==> r.session.stream == Idle
    ensures h.session.stream != Streaming ==> IsPrefix(h.session.trace + [Connecting], r.session.trace)
  {
    if h.session.stream == Streaming then Stop(h)
    else
      var r := StartStreaming(h, fails);
      assert (h.session.trace + [Connecting, Streaming])[..|h.session.trace| + 1] == h.session.trace + [Connecting];
      r
  }

  /** The pipeline's chunk callback: the chunk is kept, numbered with the next number,
      marked outstanding and sent to the worker. */
  function OnChunk(h: Hook, chunk: seq<real>): (r: Hook)
    requires Valid(h)
    ensures Valid(r)
    ensures r.lastSequenceNumber == h.lastSequenceNumber + 1
    ensures r.outstanding == h.outstanding + {h.lastSequenceNumber}
    ensures r.session.toVad == h.session.toVad + [Inference(chunk, Some(h.lastSequenceNumber))]
    ensures r.chunkBuffer == h.chunkBuffer + chunk
  {
    var n := h.lastSequenceNumber;
    NumbersInference(h.session.toVad, chunk, n);
    h.(session := h.session.(toVad := h.session.toVad + [Inference(chunk, Some(n))]),
       chunkBuffer := h.chunkBuffer + chunk,
       lastSequenceNumber := n + 1,
       outstanding := h.outstanding + {n})
  }

  /** A VAD `complete`: its number leaves the outstanding set, `isSpeaking` follows the
      inclusive comparison, the chunk joins the full buffer and goes to the segmenter,
      and an utterance the segmenter hands back is sent only when the socket is open. */
  function OnVadMessage(h: Hook, m: VadMessage): (r: Hook)
    requires Valid(h)
    ensures Valid(r)
    ensures !m.VadComplete? ==> r == h
    ensures m.VadComplete? ==>
      var step := HysteresisSegmenter.Process(h.config, h.segmenter, m.audioChunk, m.speechProb);
      && (r.session.isSpeaking <==> m.speechProb >= h.config.threshold)
      && r.session.fullBuffer == h.session.fullBuffer + m.audioChunk
      && r.outstanding == h.outstanding - (if m.sequenceNumber.Some? && m.sequenceNumber.value >= 0
                                           then {m.sequenceNumber.value as nat} else {})
      && r.segmenter == step.next
      && r.sent == h.sent + (if step.utterance.Some? && h.session.socket == Socket(true)
                             then [step.utterance.value] else [])
  {
    if !m.VadComplete? then h
    else
      var done: set<nat> := if m.sequenceNumber.Some? && m.sequenceNumber.value >= 0
                            then {m.sequenceNumber.value as nat} else {};
      var step := HysteresisSegmenter.Process(h.config, h.segmenter, m.audioChunk, m.speechProb);
      var sent := if step.utterance.Some? && h.session.socket == Socket(true)
                  then h.sent + [step.utterance.value] else h.sent;
      h.(session := OnVadResult(h.session, h.config.threshold, m.speechProb, m.audioChunk),
         outstanding := h.outstanding - done,
         completed := h.completed + (set k | k in done && k < h.lastSequenceNumber),
         segmenter := step.next,
         sent := sent)
  }

  /** The socket's `error` handler sets `error` whatever the state. */
  function OnSocketError(h: Hook): (r: Hook)
    requires Valid(h)
    ensures Valid(r) && r.session.stream == Error && r.session.trace == h.session.trace + [Error]
  {
    h.(session := Apply(h.session, SetState(Error)))
  }

  /** The socket's `open` and `close` change its ready state. */
  function OnSocketReady(h: Hook, open: bool): (r: Hook)
    requires Valid(h)
    ensures Valid(r)
    ensures h.session.socket.Socket? ==> r.session.socket == Socket(open)
    ensures h.session.socket == NoSocket ==> r == h
  {
    if h.session.socket.Socket? then h.(session := h.session.(socket := Socket(open))) else h
  }

  /** A `transcription` message on the socket appends one entry. */
  function OnSocketMessage(h: Hook, isTranscription: bool, text: string, inferenceTime: real): (r: Hook)
    requires Valid(h)
    ensures Valid(r)
    ensures isTranscription ==> r.transcription == h.transcription + [Transcription(text, inferenceTime)]
    ensures !isTranscription ==> r == h
  {
    if isTranscription then h.(transcription := h.transcription + [Transcription(text, inferenceTime)]) else h
  }
}
