/** The dropping detector worker of rrfe/app/workers/silero.js.

    A chunk is accepted only when no inference is in flight: it posts `start`, awaits
    the session, feeds the chunk with the current state to the scorer, posts the
    result and clears the flag. A chunk that arrives in the meantime is ignored. As in
    the queueing worker, a failure to obtain the session happens outside the `try`,
    so the flag is never cleared and every later chunk is ignored.

    `accepted` and `served` record the history, which the source does not keep. */
module DroppingWorker {
  import opened Seqs
  import opened Silero

  datatype Phase =
    | Idle
    | AwaitingSession(chunk: seq<real>)
    | Running(chunk: seq<real>, inputs: Inputs)
    | Stalled(chunk: seq<real>)

  datatype Worker = Worker(
    state: Tensor,
    processing: bool,
    phase: Phase,
    posted: seq<Message>,
    accepted: seq<seq<real>>,
    served: seq<seq<real>>)

  datatype Event =
    | Load
    | LoadSettled(ok: bool)
    | Inference(chunk: seq<real>)
    | Healthcheck
    | Reset
    | SessionSettled(ok: bool)
    | RunSettled
    | Unrecognised

  function Init(): (w: Worker)
    ensures Valid(w) && IsZeroState(w.state) && !w.processing && w.posted == [Ready]
  {
    Worker(ZeroState(), false, Idle, [Ready], [], [])
  }

  function Post(w: Worker, m: Message): Worker
  {
    w.(posted := w.posted + [m])
  }

  function Holding(p: Phase): seq<seq<real>>
  {
    if p.Idle? then [] else [p.chunk]
  }

  /** How many `start` messages were posted. */
  function Starts(ms: seq<Message>): nat
  {
    if |ms| == 0 then 0 else Starts(ms[..|ms| - 1]) + (if ms[|ms| - 1] == Start then 1 else 0)
  }

  lemma StartsPost(ms: seq<Message>, m: Message)
    ensures Starts(ms + [m]) == Starts(ms) + (if m == Start then 1 else 0)
  {
    assert (ms + [m])[..|ms|] == ms;
  }

  /** One `start` per accepted chunk; the i-th outcome is about the i-th accepted
      chunk, and a `complete` carries that chunk. */
  predicate Valid(w: Worker)
  {
    && (w.processing <==> !w.phase.Idle?)
    && WellShaped(w.state)
    && Starts(w.posted) == |w.accepted|
    && w.served + Holding(w.phase) == w.accepted
    && |Outcomes(w.posted)| == |w.served|
    && forall i :: 0 <= i < |w.served| && Outcomes(w.posted)[i].Complete? ==>
         Outcomes(w.posted)[i].chunk == w.served[i] && Outcomes(w.posted)[i].sequenceNumber == None
  }

  lemma PostKeepsValid(w: Worker, m: Message)
    requires Valid(w) && !IsOutcome(m) && m != Start
    ensures Valid(Post(w, m)) && Outcomes(Post(w, m).posted) == Outcomes(w.posted)
  {
    OutcomesPost(w.posted, m);
    StartsPost(w.posted, m);
  }

  /** `runVADInference(chunk)` up to its first `await`. */
  function Accept(w: Worker, chunk: seq<real>): (r: Worker)
    requires Valid(w)
    ensures Valid(r)
    // a busy worker ignores the chunk
    ensures w.processing ==> r == w
    // an idle one posts `start` first and then awaits the session
    ensures !w.processing ==> && r.posted == w.posted + [Start] && r.phase == AwaitingSession(chunk)
                              && r.accepted == w.accepted + [chunk] && r.state == w.state
  {
    if w.processing then w
    else
      OutcomesPost(w.posted, Start);
      StartsPost(w.posted, Start);
      Post(w, Start).(processing := true, phase := AwaitingSession(chunk), accepted := w.accepted + [chunk])
  }

  /** The run settled: on success the state becomes `stateN` and `complete` carries the
      probability and the same chunk; on failure `error` is posted and the state kept. */
  function Finish(w: Worker, session: Session): (r: Worker)
    requires Valid(w) && w.phase.Running?
    ensures Valid(r) && !r.processing && r.served == w.served + [w.phase.chunk] && r.accepted == w.accepted
    ensures var s := ReadScore(session(w.phase.inputs));
      && (s.Some? ==> r.posted == w.posted + [Complete(s.value.prob, w.phase.chunk, None)] && r.state == s.value.state)
      && (s.None? ==> r.posted == w.posted + [Error(RunFailed)] && r.state == w.state)
  {
    var s := ReadScore(session(w.phase.inputs));
    var m := if s.Some? then Complete(s.value.prob, w.phase.chunk, None) else Error(RunFailed);
    OutcomesPost(w.posted, m);
    StartsPost(w.posted, m);
    w.(state := if s.Some? then s.value.state else w.state, posted := w.posted + [m],
       processing := false, phase := Idle, served := w.served + [w.phase.chunk])
  }

  function Step(w: Worker, e: Event, session: Session): (r: Worker)
    requires Valid(w)
    ensures Valid(r)
    ensures e.Reset? ==> IsZeroState(r.state) && r.phase == w.phase && r.processing == w.processing
    ensures e.SessionSettled? && e.ok && w.phase.AwaitingSession? ==>
              r.phase == Running(w.phase.chunk, Feed(w.phase.chunk, w.state))
    ensures e.SessionSettled? && !e.ok && w.phase.AwaitingSession? ==>
              r.phase == Stalled(w.phase.chunk) && r.processing
    ensures !e.Reset? && !e.RunSettled? ==> r.state == w.state
  {
    match e
    case Load => PostKeepsValid(w, Loading); Post(w, Loading)
    case LoadSettled(ok) =>
      if ok then PostKeepsValid(w, Ready); Post(w, Ready)
      else
        PostKeepsValid(w, Error(SessionFailed));
        PostKeepsValid(Post(w, Error(SessionFailed)), Error(LoadFailed));
        Post(Post(w, Error(SessionFailed)), Error(LoadFailed))
    case Inference(chunk) => Accept(w, chunk)
    case Healthcheck => PostKeepsValid(w, Ready); Post(w, Ready)
    case Reset => w.(state := ZeroState())
    case SessionSettled(ok) =>
      if !w.phase.AwaitingSession? then w
      else if ok then w.(phase := Running(w.phase.chunk, Feed(w.phase.chunk, w.state)))
      else PostKeepsValid(w, Error(SessionFailed)); Post(w, Error(SessionFailed)).(phase := Stalled(w.phase.chunk))
    case RunSettled => if w.phase.Running? then Finish(w, session) else w
    case Unrecognised => w
  }

  function Run(w: Worker, es: seq<Event>, session: Session): (r: Worker)
    requires Valid(w)
    ensures Valid(r)
    decreases |es|
  {
    if |es| == 0 then w else Step(Run(w, es[..|es| - 1], session), es[|es| - 1], session)
  }

  /** Every chunk is scored at most once, in the order accepted: the outcomes posted so
      far are about a prefix of the accepted chunks, and each `complete` carries its chunk. */
  lemma Ordered(w: Worker)
    requires Valid(w)
    ensures var outs := Outcomes(w.posted);
      && |outs| <= |w.accepted| && |outs| <= Starts(w.posted)
      && forall i :: 0 <= i < |outs| ==> outs[i].Complete? ==> outs[i].chunk == w.accepted[i]
  {
    forall i | 0 <= i < |w.served|
      ensures w.served[i] == w.accepted[i]
    {
      assert w.served[i] == (w.served + Holding(w.phase))[i];
    }
  }

  /** One event leaves a stalled runner stalled and accepts nothing. */
  lemma StalledStep(w: Worker, e: Event, session: Session)
    requires Valid(w) && w.phase.Stalled?
    ensures var r := Step(w, e, session);
      r.phase == w.phase && r.processing && r.accepted == w.accepted && r.served == w.served
  {
    var r := Step(w, e, session);
    match e
    case Inference(chunk) =>
      assert r == w;
    case SessionSettled(ok) =>
      assert r == w;
    case RunSettled =>
      assert r == w;
    case _ =>
  }

  /** Once `getSession` has thrown in the runner, `processing` stays set: every later
      chunk is ignored, no chunk is accepted and nothing more is scored. */
  lemma {:induction false} StallIsPermanent(w: Worker, es: seq<Event>, session: Session)
    requires Valid(w) && w.phase.Stalled?
    ensures var r := Run(w, es, session);
      && r.phase == w.phase && r.processing
      && r.accepted == w.accepted && r.served == w.served
    decreases |es|
  {
    if |es| > 0 {
      var bs := es[..|es| - 1];
      StallIsPermanent(w, bs, session);
      StalledStep(Run(w, bs, session), es[|es| - 1], session);
    }
  }
}
