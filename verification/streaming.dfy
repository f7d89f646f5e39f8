/** What the transcription hooks have in common: the stream state, the `try` body of
    `startStreaming` as a script of steps whose awaited calls may throw, the `catch`
    handler run after the first throw, and the VAD result handler.

    The awaited calls (`createRoom`, `getUserMedia`, `file.arrayBuffer`, `wakeUp`,
    `audioPipeline.start`) are nondeterministic: `fails` is the set of calls that
    throw in one attempt. Each `await` continuation is one atomic step. */
module Streaming {
  import opened Seqs

  datatype StreamState = Idle | Connecting | WarmingUp | StartingUp | Streaming | Error

  /** The calls that are awaited and may throw. */
  datatype Call = CreateRoom | GetUserMedia | ReadFile | WakeUp | StartPipeline

  datatype Pipeline = NoPipeline | Built | Started | Stopped

  /** The web socket reference: absent, or present with or without `readyState` OPEN. */
  datatype Socket = NoSocket | Socket(open: bool)

  datatype VadRequest = Inference(chunk: seq<real>, sequenceNumber: Option<nat>) | ResetRequest

  datatype Op =
    | SetState(s: StreamState)  // setStreamState(s)
    | Await(c: Call)            // an awaited call that may throw
    | Build                     // new AudioPipeline(...)
    | OpenSocket                // new WebSocket(...)
    | ReleaseMedia              // stop the tracks and drop the stream when there is one
    | CloseSocket               // close and drop the socket when there is one

  /** The state a hook keeps; `trace` lists every value the stream state was set to. */
  datatype Session = Session(
    stream: StreamState,
    trace: seq<StreamState>,
    media: bool,
    pipeline: Pipeline,
    socket: Socket,
    fullBuffer: seq<real>,
    isSpeaking: bool,
    toVad: seq<VadRequest>)

  function Init(): (s: Session)
    ensures s.stream == Idle && s.trace == [] && !s.media && s.pipeline == NoPipeline
    ensures s.socket == NoSocket && s.fullBuffer == [] && !s.isSpeaking && s.toVad == []
  {
    Session(Idle, [], false, NoPipeline, NoSocket, [], false, [])
  }

  /** The effect of a step that does not throw. */
  function Apply(s: Session, op: Op): Session
  {
    match op
    case SetState(st) => s.(stream := st, trace := s.trace + [st])
    case Await(c) =>
      if c == GetUserMedia then s.(media := true)
      else if c == StartPipeline then s.(pipeline := Started)
      else s
    case Build => s.(pipeline := Built)
    case OpenSocket => s.(socket := Socket(false))
    case ReleaseMedia => s.(media := false)
    case CloseSocket => s.(socket := NoSocket)
  }

  lemma ApplyTrace(s: Session, op: Op)
    ensures Apply(s, op).trace == s.trace + Sets([op])
  {
  }

  predicate Throws(op: Op, fails: set<Call>)
  {
    op.Await? && op.c in fails
  }

  datatype Attempt = Attempt(session: Session, failed: bool)

  /** Runs the steps until the first one that throws. */
  function Exec(s: Session, ops: seq<Op>, fails: set<Call>): (a: Attempt)
    // the trace only grows; the audio data and the worker requests are untouched
    ensures IsPrefix(s.trace, a.session.trace)
    ensures a.session.toVad == s.toVad && a.session.fullBuffer == s.fullBuffer
    decreases |ops|
  {
    if |ops| == 0 then Attempt(s, false)
    else if Throws(ops[0], fails) then Attempt(s, true)
    else
      var a := Exec(Apply(s, ops[0]), ops[1..], fails);
      PrefixTransitive(s.trace, Apply(s, ops[0]).trace, a.session.trace);
      a
  }

  /** The calls a script awaits. */
  function Calls(ops: seq<Op>): set<Call>
  {
    set i | 0 <= i < |ops| && ops[i].Await? :: ops[i].c
  }

  /** The states a script sets, in order. */
  function Sets(ops: seq<Op>): seq<StreamState>
    decreases |ops|
  {
    if |ops| == 0 then [] else (if ops[0].SetState? then [ops[0].s] else []) + Sets(ops[1..])
  }

  lemma {:induction false} SetsAppend(a: seq<Op>, b: seq<Op>)
    ensures Sets(a + b) == Sets(a) + Sets(b)
    decreases |a|
  {
    if |a| > 0 {
      assert (a + b)[1..] == a[1..] + b;
      SetsAppend(a[1..], b);
    } else {
      assert a + b == b;
    }
  }

  /** The index of the first step that throws, or `|ops|`. */
  function FirstThrow(ops: seq<Op>, fails: set<Call>): (k: nat)
    ensures k <= |ops|
    ensures k < |ops| ==> Throws(ops[k], fails)
    decreases |ops|
  {
    if |ops| == 0 then 0 else if Throws(ops[0], fails) then 0 else 1 + FirstThrow(ops[1..], fails)
  }

  lemma {:induction false} FirstThrowNone(ops: seq<Op>, fails: set<Call>)
    ensures FirstThrow(ops, fails) == |ops| <==> Calls(ops) !! fails
    decreases |ops|
  {
    if |ops| > 0 {
      FirstThrowNone(ops[1..], fails);
      assert Calls(ops) == (if ops[0].Await? then {ops[0].c} else {}) + Calls(ops[1..]) by {
        forall c | c in Calls(ops)
          ensures c in (if ops[0].Await? then {ops[0].c} else {}) + Calls(ops[1..])
        {
          var i :| 0 <= i < |ops| && ops[i].Await? && ops[i].c == c;
          if i > 0 {
            assert ops[1..][i - 1] == ops[i];
          }
        }
        forall c | c in Calls(ops[1..])
          ensures c in Calls(ops)
        {
          var i :| 0 <= i < |ops[1..]| && ops[1..][i].Await? && ops[1..][i].c == c;
          assert ops[i + 1] == ops[1..][i];
        }
      }
    }
  }

  /** The stream state is the last value it was set to. */
  predicate StateIsLastSet(s: Session)
  {
    if |s.trace| == 0 then s.stream == Idle else s.stream == s.trace[|s.trace| - 1]
  }

  lemma {:induction false} ExecKeepsLastSet(s: Session, ops: seq<Op>, fails: set<Call>)
    requires StateIsLastSet(s)
    ensures StateIsLastSet(Exec(s, ops, fails).session)
    decreases |ops|
  {
    if |ops| > 0 && !Throws(ops[0], fails) {
      ExecKeepsLastSet(Apply(s, ops[0]), ops[1..], fails);
    }
  }

  /** An attempt fails exactly when a step throws. */
  lemma {:induction false} ExecFails(s: Session, ops: seq<Op>, fails: set<Call>)
    ensures Exec(s, ops, fails).failed <==> FirstThrow(ops, fails) < |ops|
    decreases |ops|
  {
    if |ops| > 0 && !Throws(ops[0], fails) {
      ExecFails(Apply(s, ops[0]), ops[1..], fails);
    }
  }

  /** The states set are those of the steps before the first throw. */
  lemma {:induction false} ExecTrace(s: Session, ops: seq<Op>, fails: set<Call>)
    ensures Exec(s, ops, fails).session.trace == s.trace + Sets(ops[..FirstThrow(ops, fails)])
    decreases |ops|
  {
    if |ops| > 0 && !Throws(ops[0], fails) {
      var s' := Apply(s, ops[0]);
      ExecTrace(s', ops[1..], fails);
      var k := FirstThrow(ops, fails);
      assert ops[..k] == [ops[0]] + ops[1..][..k - 1];
      SetsAppend([ops[0]], ops[1..][..k - 1]);
      ApplyTrace(s, ops[0]);
    } else {
      assert ops[..FirstThrow(ops, fails)] == [];
    }
  }

  /** `try { body } catch { handler }`: the handler runs after the first throw and
      throws nothing itself. */
  function Start(s: Session, body: seq<Op>, handler: seq<Op>, fails: set<Call>): (r: Session)
    ensures IsPrefix(s.trace, r.trace)
    ensures r.toVad == s.toVad && r.fullBuffer == s.fullBuffer
  {
    var a := Exec(s, body, fails);
    if a.failed then
      var b := Exec(a.session, handler, {});
      PrefixTransitive(s.trace, a.session.trace, b.session.trace);
      b.session
    else a.session
  }

  /** When nothing throws the body's states are set in order and the last one stays. */
  lemma StartSucceeds(s: Session, body: seq<Op>, handler: seq<Op>, fails: set<Call>)
    requires Calls(body) !! fails
    ensures Start(s, body, handler, fails) == Exec(s, body, fails).session
    ensures Start(s, body, handler, fails).trace == s.trace + Sets(body)
  {
    FirstThrowNone(body, fails);
    ExecFails(s, body, fails);
    ExecTrace(s, body, fails);
    assert body[..|body|] == body;
  }

  /** When a call throws, the handler runs from where the body stopped. */
  lemma StartFails(s: Session, body: seq<Op>, handler: seq<Op>, fails: set<Call>)
    requires !(Calls(body) !! fails)
    ensures var k := FirstThrow(body, fails);
      && k < |body|
      && Start(s, body, handler, fails) == Exec(Exec(s, body, fails).session, handler, {}).session
      && Exec(s, body, fails).session.trace == s.trace + Sets(body[..k])
  {
    FirstThrowNone(body, fails);
    ExecFails(s, body, fails);
    ExecTrace(s, body, fails);
  }

  /** The catch handler every hook shares: `error`, then the stream is released. */
  lemma CatchReleases(s: Session, extra: seq<Op>)
    requires forall i :: 0 <= i < |extra| ==> extra[i] == CloseSocket
    ensures var r := Exec(s, [SetState(Error), ReleaseMedia] + extra, {}).session;
      r.stream == Error && !r.media && r.trace == s.trace + [Error]
      && (|extra| > 0 ==> r.socket == NoSocket)
  {
    var ops := [SetState(Error), ReleaseMedia] + extra;
    ExecTrace(s, ops, {});
    FirstThrowNone(ops, {});
    assert ops[..|ops|] == ops;
    assert ops[1..][1..] == extra;
    SetsOfCloses(extra);
    CloseSocketsRun(Apply(Apply(s, ops[0]), ops[1]), extra);
  }

  lemma {:induction false} SetsOfCloses(ops: seq<Op>)
    requires forall i :: 0 <= i < |ops| ==> ops[i] == CloseSocket
    ensures Sets(ops) == []
    decreases |ops|
  {
    if |ops| > 0 {
      SetsOfCloses(ops[1..]);
    }
  }

  lemma {:induction false} CloseSocketsRun(s: Session, ops: seq<Op>)
    requires forall i :: 0 <= i < |ops| ==> ops[i] == CloseSocket
    ensures var r := Exec(s, ops, {}).session;
      r.media == s.media && r.stream == s.stream && (|ops| > 0 ==> r.socket == NoSocket)
    decreases |ops|
  {
    if |ops| > 0 {
      CloseSocketsRun(Apply(s, ops[0]), ops[1..]);
    }
  }

  /** The first state a script sets, when it begins by setting one, is the first in
      every prefix that runs past it. */
  lemma SetsHead(body: seq<Op>, k: nat)
    requires 0 < k <= |body| && body[0].SetState?
    ensures |Sets(body[..k])| > 0 && Sets(body[..k])[0] == body[0].s
  {
    assert body[..k][0] == body[0];
  }

  /** A start attempt with the shared catch handler: on success the trace grows by the
      states of the whole body; on a throw it ends in `error` with the stream released
      (and the socket dropped when the handler closes it), after the body's first state. */
  lemma StartOutcome(s: Session, body: seq<Op>, extra: seq<Op>, fails: set<Call>)
    requires StateIsLastSet(s) && |body| > 0 && body[0].SetState?
    requires forall i :: 0 <= i < |extra| ==> extra[i] == CloseSocket
    ensures var r := Start(s, body, [SetState(Error), ReleaseMedia] + extra, fails);
      && StateIsLastSet(r)
      && (Calls(body) !! fails ==> r.trace == s.trace + Sets(body))
      && (!(Calls(body) !! fails) ==>
            && r.stream == Error && !r.media && r.trace[|r.trace| - 1] == Error
            && IsPrefix(s.trace + [body[0].s], r.trace)
            && (|extra| > 0 ==> r.socket == NoSocket))
  {
    var handler := [SetState(Error), ReleaseMedia] + extra;
    var a := Exec(s, body, fails);
    ExecKeepsLastSet(s, body, fails);
    if Calls(body) !! fails {
      StartSucceeds(s, body, handler, fails);
    } else {
      StartThrows(s, body, extra, fails);
    }
  }

  /** The throwing half of `StartOutcome`. */
  lemma StartThrows(s: Session, body: seq<Op>, extra: seq<Op>, fails: set<Call>)
    requires StateIsLastSet(s) && |body| > 0 && body[0].SetState? && !(Calls(body) !! fails)
    requires forall i :: 0 <= i < |extra| ==> extra[i] == CloseSocket
    ensures var r := Start(s, body, [SetState(Error), ReleaseMedia] + extra, fails);
      && r.stream == Error && !r.media && r.trace[|r.trace| - 1] == Error
      && IsPrefix(s.trace + [body[0].s], r.trace)
      && (|extra| > 0 ==> r.socket == NoSocket)
  {
    var handler := [SetState(Error), ReleaseMedia] + extra;
    var a := Exec(s, body, fails);
    StartFails(s, body, handler, fails);
    CatchReleases(a.session, extra);
    var k := FirstThrow(body, fails);
    assert k > 0 by {
      assert !Throws(body[0], fails);
    }
    SetsHead(body, k);
    var r := Start(s, body, handler, fails);
    assert r.trace == s.trace + Sets(body[..k]) + [Error];
    assert r.trace[..|s.trace| + 1] == s.trace + [body[0].s];
  }

  /** What the VAD worker posts back; `sequenceNumber` is absent when the worker sends none. */
  datatype VadMessage =
    | VadReady
    | VadComplete(speechProb: real, audioChunk: seq<real>, sequenceNumber: Option<int>)
    | VadOther

  /** The VAD worker's `complete`: the comparison is inclusive and the chunk is appended
      to the full buffer. */
  function OnVadResult(s: Session, threshold: real, prob: real, chunk: seq<real>): (r: Session)
    ensures r.isSpeaking <==> prob >= threshold
    ensures r.fullBuffer == s.fullBuffer + chunk && IsPrefix(s.fullBuffer, r.fullBuffer)
    ensures r.(isSpeaking := s.isSpeaking, fullBuffer := s.fullBuffer) == s
  {
    assert (s.fullBuffer + chunk)[..|s.fullBuffer|] == s.fullBuffer;
    s.(isSpeaking := prob >= threshold, fullBuffer := s.fullBuffer + chunk)
  }
}
