/** The in-page detector of frontend/app/lib/vad.ts: a `VAD` holds the recurrent state
    between calls and feeds it, with each chunk, to the scorer.

    `process` replaces the state by the run's `stateN` output before reading the score
    and answers 0 ("no speech") when anything in the `try` throws. The state is an
    `Option`: a run whose outputs lack `stateN` leaves it `undefined`, and the `catch`
    block then throws itself while logging `this.state.dims`, so the call rejects. */
module Vad {
  import opened Seqs
  import opened Silero

  datatype Detector = Detector(state: Option<Tensor>)

  /** How a call to `process` settles: with a number (`None` is `undefined`), or rejected. */
  datatype Reply = Resolves(value: Option<real>) | Rejects

  /** One call: the detector after it, its reply, and the inputs given to the scorer
      (`None` when the scorer was not reached). */
  datatype Call = Call(next: Detector, reply: Reply, fed: Option<Inputs>)

  /** `VAD.create` after the session was created: a zero state and a rate of 16000. */
  function Create(): (d: Detector)
    ensures d.state.Some? && IsZeroState(d.state.value)
  {
    Detector(Some(ZeroState()))
  }

  function ResetState(d: Detector): (r: Detector)
    ensures r.state.Some? && IsZeroState(r.state.value)
  {
    Detector(Some(ZeroState()))
  }

  /** With an `undefined` state the first throw is the log of `this.state.dims` inside
      the `try`, before the session is reached; the `catch` block then throws again
      reading the same dims, so the call rejects without feeding the scorer. */
  function Process(d: Detector, chunk: seq<real>, session: Session): (c: Call)
    // the scorer sees the chunk as a [1, length] tensor, the current state and the rate 16000
    ensures c.fed.Some? <==> d.state.Some?
    ensures c.fed.Some? ==> c.fed.value.input.dims == [1, |chunk|] && c.fed.value.input.data == chunk
                            && c.fed.value.state == d.state.value && c.fed.value.sr == 16000
    // a full result: the first output value, and the state becomes stateN
    ensures c.fed.Some? && session(c.fed.value).Resolved? && session(c.fed.value).output.Some? ==>
              c.next.state == session(c.fed.value).stateN
              && c.reply == Resolves(First(session(c.fed.value).output.value.data))
    // a failed run: the answer is 0 and the state is untouched
    ensures c.fed.Some? && session(c.fed.value).Rejected? ==> c.next == d && c.reply == Resolves(Some(0.0))
    // outputs without a score: the state is still replaced, and the TypeError is caught
    ensures c.fed.Some? && session(c.fed.value).Resolved? && session(c.fed.value).output.None? ==>
              c.next.state == session(c.fed.value).stateN
              && c.reply == (if c.next.state.None? then Rejects else Resolves(Some(0.0)))
    // the call rejects only when the state is, or becomes, undefined
    ensures c.reply.Rejects? ==> c.next.state.None?
    ensures d.state.None? ==> c == Call(d, Rejects, None)
  {
    match d.state
    case None => Call(d, Rejects, None)
    case Some(state) =>
      var inputs := Feed(chunk, state);
      match session(inputs)
      case Rejected => Call(d, Resolves(Some(0.0)), Some(inputs))
      case Resolved(output, stateN) =>
        var next := Detector(stateN);
        if output.Some? then Call(next, Resolves(First(output.value.data)), Some(inputs))
        else if stateN.None? then Call(next, Rejects, Some(inputs))
        else Call(next, Resolves(Some(0.0)), Some(inputs))
  }

  /** A sequence of calls, in order: the detector after the last and every reply. */
  datatype Trace = Trace(last: Detector, replies: seq<Reply>)

  function Run(d: Detector, chunks: seq<seq<real>>, session: Session): (t: Trace)
    ensures |t.replies| == |chunks|
    decreases |chunks|
  {
    if |chunks| == 0 then Trace(d, [])
    else
      var c := Process(d, chunks[0], session);
      var rest := Run(c.next, chunks[1..], session);
      Trace(rest.last, [c.reply] + rest.replies)
  }

  /** A scorer that fails for this state does not disturb the stream: the call answers
      0 and the rest of the run goes exactly as if the chunk had never come. */
  lemma FailOpen(d: Detector, chunk: seq<real>, rest: seq<seq<real>>, session: Session)
    requires d.state.Some? && session(Feed(chunk, d.state.value)).Rejected?
    ensures Run(d, [chunk] + rest, session)
            == Trace(Run(d, rest, session).last, [Resolves(Some(0.0))] + Run(d, rest, session).replies)
  {
    assert ([chunk] + rest)[0] == chunk && ([chunk] + rest)[1..] == rest;
  }

  /** A scorer that always fails: every call answers 0 and the state never changes. */
  lemma {:induction false} FailingScorer(d: Detector, chunks: seq<seq<real>>, session: Session)
    requires d.state.Some?
    requires forall i :: session(i).Rejected?
    ensures Run(d, chunks, session).last == d
    ensures forall k :: 0 <= k < |chunks| ==> Run(d, chunks, session).replies[k] == Resolves(Some(0.0))
    decreases |chunks|
  {
    if |chunks| > 0 {
      FailingScorer(d, chunks[1..], session);
    }
  }

  /** A scorer whose every result carries a state keeps the detector's state defined,
      so no call rejects. */
  lemma {:induction false} StateStaysDefined(d: Detector, chunks: seq<seq<real>>, session: Session)
    requires d.state.Some?
    requires forall i :: session(i).Resolved? ==> session(i).stateN.Some?
    ensures Run(d, chunks, session).last.state.Some?
    ensures forall k :: 0 <= k < |chunks| ==> Run(d, chunks, session).replies[k].Resolves?
    decreases |chunks|
  {
    if |chunks| > 0 {
      var c := Process(d, chunks[0], session);
      StateStaysDefined(c.next, chunks[1..], session);
    }
  }
}
