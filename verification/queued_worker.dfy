/** The queueing detector worker of nuxt-fe/assets/workers/silero.js.

    Chunks posted with `type: 'inference'` are appended to a FIFO queue; the runner
    takes the head only when no inference is in flight, awaits the session, feeds the
    chunk with the current state to the scorer, and when the run settles posts the
    result, clears the flag and runs again. Every `await` is one atomic step, so the
    model is a state machine over the worker's messages and the two continuations:
    the session becoming available (or failing) and the run settling.

    The worker also records its history (`enqueued`, `started`, `served`), which the
    source does not keep, to state the ordering properties. */
module QueuedWorker {
  import opened Seqs
  import opened Silero

  datatype Job = Job(chunk: seq<real>, sequenceNumber: int)

  /** What the runner is doing. A `Stalled` runner saw `getSession` throw outside the
      `try`: its job is lost and `isProcessing` is never cleared. */
  datatype Phase =
    | Idle
    | AwaitingSession(job: Job)
    | Running(job: Job, inputs: Inputs)
    | Stalled(job: Job)

  /** `resetDuringRun` records a reset that arrived while a run was in flight; only
      the corrected runner reads it. */
  datatype Worker = Worker(
    state: Tensor,
    queue: seq<Job>,
    isProcessing: bool,
    phase: Phase,
    resetDuringRun: bool,
    posted: seq<Message>,
    enqueued: seq<Job>,
    started: seq<Job>,
    served: seq<Job>)

  /** Incoming messages by `type`, and the two continuations of the runner. */
  datatype Event =
    | Load
    | LoadSettled(ok: bool)
    | Inference(chunk: seq<real>, sequenceNumber: int)
    | Healthcheck
    | Reset
    | SessionSettled(ok: bool)
    | RunSettled
    | Unrecognised

  /** The worker as it starts: a zero state, an empty queue, and `ready` posted. */
  function Init(): (w: Worker)
    ensures Valid(w) && IsZeroState(w.state) && w.queue == [] && !w.isProcessing && w.posted == [Ready]
  {
    Worker(ZeroState(), [], false, Idle, false, [Ready], [], [], [])
  }

  function Post(w: Worker, m: Message): Worker
  {
    w.(posted := w.posted + [m])
  }

  /** The jobs a runner phase holds. */
  function Holding(p: Phase): seq<Job>
  {
    if p.Idle? then [] else [p.job]
  }

  /** The i-th outcome concerns the i-th served job, and a `complete` carries its chunk
      and sequence number. */
  predicate Paired(outs: seq<Message>, served: seq<Job>)
  {
    && |outs| == |served|
    && forall i :: 0 <= i < |outs| && outs[i].Complete? ==>
         outs[i].chunk == served[i].chunk && outs[i].sequenceNumber == Some(served[i].sequenceNumber)
  }

  /** The bookkeeping that holds at every step, even before the runner was retried. */
  predicate Core(w: Worker)
  {
    && (w.isProcessing <==> !w.phase.Idle?)
    && (w.resetDuringRun ==> w.phase.Running?)
    && WellShaped(w.state)
    && w.started + w.queue == w.enqueued
    && w.served + Holding(w.phase) == w.started
    && Paired(Outcomes(w.posted), w.served)
  }

  /** At most one job is in flight, and a chunk waits only while one is. */
  predicate Valid(w: Worker)
  {
    Core(w) && (w.phase.Idle? ==> w.queue == [])
  }

  /** `runVADInference` up to its first `await`: nothing happens while a run is in
      flight or the queue is empty; otherwise the head is dequeued and the flag is set. */
  function TryRun(w: Worker): (r: Worker)
    requires Core(w)
    ensures Valid(r) && r.state == w.state && r.posted == w.posted && r.enqueued == w.enqueued
    ensures w.isProcessing || w.queue == [] ==> r == w
    ensures !w.isProcessing && w.queue != [] ==>
              r.phase == AwaitingSession(w.queue[0]) && r.queue == w.queue[1..] && r.isProcessing
  {
    if w.isProcessing || |w.queue| == 0 then w
    else
      var job := w.queue[0];
      assert w.queue == [job] + w.queue[1..];
      w.(isProcessing := true, queue := w.queue[1..], phase := AwaitingSession(job), started := w.started + [job])
  }

  /** The run settled: post the result or the error, clear the flag, run again. The
      runner adopts `stateN` when `adopt` holds. */
  function Finish(w: Worker, session: Session, adopt: bool): (r: Worker)
    requires Valid(w) && w.phase.Running?
    ensures Valid(r) && r.served == w.served + [w.phase.job] && r.enqueued == w.enqueued
    ensures var s := ReadScore(session(w.phase.inputs));
      && (s.Some? ==> r.posted == w.posted + [Complete(s.value.prob, w.phase.job.chunk, Some(w.phase.job.sequenceNumber))]
                      && r.state == (if adopt then s.value.state else w.state))
      && (s.None? ==> r.posted == w.posted + [Error(RunFailed)] && r.state == w.state)
  {
    var job := w.phase.job;
    var s := ReadScore(session(w.phase.inputs));
    var m := if s.Some? then Complete(s.value.prob, job.chunk, Some(job.sequenceNumber)) else Error(RunFailed);
    var state := if s.Some? && adopt then s.value.state else w.state;
    var w1 := w.(state := state, posted := w.posted + [m], isProcessing := false, phase := Idle,
                 resetDuringRun := false, served := w.served + [job]);
    OutcomesPost(w.posted, m);
    PairedAppend(Outcomes(w.posted), w.served, m, job);
    assert w1.served == w1.started;
    TryRun(w1)
  }

  /** Settling the next job keeps outcomes and served jobs paired. */
  lemma PairedAppend(outs: seq<Message>, served: seq<Job>, m: Message, job: Job)
    requires Paired(outs, served)
    requires m.Complete? ==> m.chunk == job.chunk && m.sequenceNumber == Some(job.sequenceNumber)
    ensures Paired(outs + [m], served + [job])
  {
    var outs', served' := outs + [m], served + [job];
    forall i | 0 <= i < |outs'| && outs'[i].Complete?
      ensures outs'[i].chunk == served'[i].chunk && outs'[i].sequenceNumber == Some(served'[i].sequenceNumber)
    {
      if i < |outs| {
        assert outs'[i] == outs[i] && served'[i] == served[i];
      }
    }
  }

  /** One event, with the reset correction: a run that was in flight when the state
      was reset does not install its `stateN`. */
  function Step(w: Worker, e: Event, session: Session): (r: Worker)
    requires Valid(w)
    ensures r.enqueued == w.enqueued + (if e.Inference? then [Job(e.chunk, e.sequenceNumber)] else [])
    // while a run is in flight, a new chunk only joins the queue
    ensures e.Inference? && w.isProcessing ==>
              r == w.(queue := w.queue + [Job(e.chunk, e.sequenceNumber)], enqueued := r.enqueued)
    // reset zeroes the state and leaves the queue, the flag and the runner alone
    ensures e.Reset? ==> IsZeroState(r.state) && r.queue == w.queue && r.isProcessing == w.isProcessing && r.phase == w.phase
    // the scorer is fed the job's chunk with the state current when the session arrived
    ensures e.SessionSettled? && e.ok && w.phase.AwaitingSession? ==>
              r.phase == Running(w.phase.job, Feed(w.phase.job.chunk, w.state)) && r.state == w.state
    // only a reset and a successful run change the state
    ensures !e.Reset? && !e.RunSettled? ==> r.state == w.state
  {
    match e
    case Load => Post(w, Loading)
    case LoadSettled(ok) =>
      // getSession posts its own error before `load` posts one
      if ok then Post(w, Ready) else Post(Post(w, Error(SessionFailed)), Error(LoadFailed))
    case Inference(chunk, sn) =>
      var job := Job(chunk, sn);
      TryRun(w.(queue := w.queue + [job], enqueued := w.enqueued + [job]))
    case Healthcheck => Post(w, Ready)
    case Reset => w.(state := ZeroState(), resetDuringRun := w.phase.Running?)
    case SessionSettled(ok) =>
      if !w.phase.AwaitingSession? then w
      else if ok then w.(phase := Running(w.phase.job, Feed(w.phase.job.chunk, w.state)))
      else Post(w, Error(SessionFailed)).(phase := Stalled(w.phase.job))
    case RunSettled =>
      if w.phase.Running? then Finish(w, session, !w.resetDuringRun) else w
    case Unrecognised => w
  }

  lemma PostKeepsCore(w: Worker, m: Message)
    requires Core(w) && !IsOutcome(m)
    ensures Core(Post(w, m)) && Outcomes(Post(w, m).posted) == Outcomes(w.posted)
  {
    OutcomesPost(w.posted, m);
  }

  /** Both runners keep the invariant: the corrected one and the one as written. */
  lemma StepValid(w: Worker, e: Event, session: Session)
    requires Valid(w)
    ensures Valid(Step(w, e, session))
    ensures Valid(StepAsWritten(w, e, session))
  {
    match e
    case Load =>
      assert Step(w, e, session) == Post(w, Loading);
      PostKeepsCore(w, Loading);
    case Healthcheck =>
      assert Step(w, e, session) == Post(w, Ready);
      PostKeepsCore(w, Ready);
    case LoadSettled(ok) =>
      if ok {
        assert Step(w, e, session) == Post(w, Ready);
        PostKeepsCore(w, Ready);
      } else {
        assert Step(w, e, session) == Post(Post(w, Error(SessionFailed)), Error(LoadFailed));
        PostKeepsCore(w, Error(SessionFailed));
        PostKeepsCore(Post(w, Error(SessionFailed)), Error(LoadFailed));
      }
    case SessionSettled(ok) =>
      if w.phase.AwaitingSession? && !ok {
        assert Step(w, e, session) == Post(w, Error(SessionFailed)).(phase := Stalled(w.phase.job));
        PostKeepsCore(w, Error(SessionFailed));
      }
    case Inference(chunk, sn) =>
      var job := Job(chunk, sn);
      assert w.started + (w.queue + [job]) == w.enqueued + [job];
    case Reset =>
      assert Step(w, e, session) == w.(state := ZeroState(), resetDuringRun := w.phase.Running?);
    case RunSettled =>
    case Unrecognised =>
  }

  /** One event handled by the runner as written (`asWritten`) or by the corrected one. */
  function Next(w: Worker, e: Event, session: Session, asWritten: bool): (r: Worker)
    requires Valid(w)
    ensures Valid(r)
  {
    StepValid(w, e, session);
    if asWritten then StepAsWritten(w, e, session) else Step(w, e, session)
  }

  /** A sequence of events, in order. */
  function Run(w: Worker, es: seq<Event>, session: Session, asWritten: bool): (r: Worker)
    requires Valid(w)
    ensures Valid(r)
    decreases |es|
  {
    if |es| == 0 then w
    else Next(Run(w, es[..|es| - 1], session, asWritten), es[|es| - 1], session, asWritten)
  }

  /** FIFO, for every run from the initial worker, as written or corrected: the i-th
      settled chunk is the i-th chunk enqueued, and a `complete` message carries the
      chunk and sequence number it was enqueued with. */
  lemma Fifo(es: seq<Event>, session: Session, asWritten: bool)
    ensures var w := Run(Init(), es, session, asWritten);
      var outs := Outcomes(w.posted);
      && |outs| <= |w.enqueued|
      && forall i :: 0 <= i < |outs| ==>
           w.served[i] == w.enqueued[i]
           && (outs[i].Complete? ==>
                 outs[i].chunk == w.enqueued[i].chunk && outs[i].sequenceNumber == Some(w.enqueued[i].sequenceNumber))
  {
    ValidFifo(Run(Init(), es, session, asWritten));
  }

  /** The ordering every valid worker satisfies. */
  lemma ValidFifo(w: Worker)
    requires Valid(w)
    ensures var outs := Outcomes(w.posted);
      && |outs| <= |w.enqueued|
      && forall i :: 0 <= i < |outs| ==>
           w.served[i] == w.enqueued[i]
           && (outs[i].Complete? ==>
                 outs[i].chunk == w.enqueued[i].chunk && outs[i].sequenceNumber == Some(w.enqueued[i].sequenceNumber))
  {
    var outs := Outcomes(w.posted);
    forall i | 0 <= i < |outs|
      ensures w.served[i] == w.enqueued[i]
    {
      assert w.served[i] == (w.served + Holding(w.phase))[i] == w.started[i] == (w.started + w.queue)[i];
    }
  }

  /** One event leaves a stalled runner stalled and scores nothing, as written or corrected. */
  lemma StalledStep(w: Worker, e: Event, session: Session, asWritten: bool)
    requires Valid(w) && w.phase.Stalled?
    ensures var r := Next(w, e, session, asWritten);
      && r.phase == w.phase && r.isProcessing
      && r.served == w.served && Outcomes(r.posted) == Outcomes(w.posted)
      && IsPrefix(w.queue, r.queue)
  {
    AsWrittenDiffersOnlyInState(w, e, session);
    var r := Step(w, e, session);
    match e
    case LoadSettled(ok) =>
      PostKeepsCore(w, if ok then Ready else Error(SessionFailed));
      if !ok {
        PostKeepsCore(Post(w, Error(SessionFailed)), Error(LoadFailed));
      }
    case Load =>
      PostKeepsCore(w, Loading);
    case Healthcheck =>
      PostKeepsCore(w, Ready);
    case Inference(chunk, sn) =>
      assert r.queue == w.queue + [Job(chunk, sn)];
    case Reset =>
    case SessionSettled(ok) =>
      assert r == w;
    case RunSettled =>
      assert r == w;
    case Unrecognised =>
  }

  /** Once `getSession` has thrown in the runner, nothing is ever scored again: the
      runner stays stalled, no chunk is served and no outcome is posted, while new
      chunks pile up in the queue. */
  lemma {:induction false} StallIsPermanent(w: Worker, es: seq<Event>, session: Session, asWritten: bool)
    requires Valid(w) && w.phase.Stalled?
    ensures var r := Run(w, es, session, asWritten);
      && r.phase == w.phase && r.isProcessing
      && r.served == w.served && Outcomes(r.posted) == Outcomes(w.posted)
      && IsPrefix(w.queue, r.queue)
    decreases |es|
  {
    if |es| > 0 {
      var bs := es[..|es| - 1];
      StallIsPermanent(w, bs, session, asWritten);
      var prev := Run(w, bs, session, asWritten);
      StalledStep(prev, es[|es| - 1], session, asWritten);
      PrefixTransitive(w.queue, prev.queue, Run(w, es, session, asWritten).queue);
    }
  }

  /** With the correction, a reset is not undone by the run that was in flight: once
      that run settles the state is still zero, so the next chunk is scored from it. */
  lemma ResetSurvivesInFlightRun(w: Worker, session: Session)
    requires Valid(w)
    ensures var r := Step(Step(w, Reset, session), RunSettled, session);
      IsZeroState(r.state)
  {
    var w1 := Step(w, Reset, session);
    StepValid(w, Reset, session);
  }

  /** The runner as written: a reset only replaces the state tensor, and a run in
      flight installs its `stateN` when it settles. */
  function StepAsWritten(w: Worker, e: Event, session: Session): (r: Worker)
    requires Valid(w)
    ensures e.Reset? ==> IsZeroState(r.state)
    ensures e.RunSettled? && w.phase.Running? && ReadScore(session(w.phase.inputs)).Some? ==>
              r.state == ReadScore(session(w.phase.inputs)).value.state
  {
    match e
    case Reset => w.(state := ZeroState())
    case RunSettled => if w.phase.Running? then Finish(w, session, true) else w
    case _ => Step(w, e, session)
  }

  /** The runner as written and the corrected one differ only in the state tensor and in
      the record of a reset during a run, so everything else proved of one holds of the
      other. */
  lemma AsWrittenDiffersOnlyInState(w: Worker, e: Event, session: Session)
    requires Valid(w)
    ensures var a := StepAsWritten(w, e, session);
      a == Step(w, e, session).(state := a.state, resetDuringRun := a.resetDuringRun)
  {
    if e.RunSettled? && w.phase.Running? {
      FinishAdoptOnly(w, session, true, !w.resetDuringRun);
    }
  }

  /** Whether a settling run adopts its `stateN` affects the state and nothing else. */
  lemma FinishAdoptOnly(w: Worker, session: Session, a: bool, b: bool)
    requires Valid(w) && w.phase.Running?
    ensures Finish(w, session, a) == Finish(w, session, b).(state := Finish(w, session, a).state)
  {
  }

  /** A scorer that always answers 0.9 with an all-ones state. */
  function OnesScorer(): Session
  {
    (i: Inputs) => Resolved(Some(Tensor([1, 1], [0.9])), Some(Tensor(StateDims, seq(StateSize, _ => 1.0))))
  }

  /** As written, a reset sent while a chunk is being scored is lost: the chunk is
      enqueued and its run started, the state is reset, and when the run settles its
      all-ones `stateN` replaces the zero state that the reset installed. */
  lemma ResetUndoneAsWritten()
    ensures var s := OnesScorer();
      var w1 := StepAsWritten(Init(), Inference([0.5], 0), s);
      var w2 := StepAsWritten(w1, SessionSettled(true), s);
      var w3 := StepAsWritten(w2, Reset, s);
      && w2.phase.Running?
      && IsZeroState(w3.state)
      && !IsZeroState(StepAsWritten(w3, RunSettled, s).state)
  {
    var s := OnesScorer();
    var w1 := StepAsWritten(Init(), Inference([0.5], 0), s);
    var w2 := StepAsWritten(w1, SessionSettled(true), s);
    var w3 := StepAsWritten(w2, Reset, s);
    var w4 := StepAsWritten(w3, RunSettled, s);
    assert w2.phase.Running?;
    assert w4.state.data[0] == 1.0;
  }
}
