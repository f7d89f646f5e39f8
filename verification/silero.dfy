/** What the three voice-activity detectors share: the Silero model's tensors, the
    inputs they feed it, and what they read back. The model itself is an abstract
    scorer: a `Session` maps the inputs of one call to the result of `session.run`. */
module Silero {
  import opened Seqs

  /** The model's sample rate input, `16000n`. */
  const SampleRate: int := 16000

  /** The recurrent state has shape `[2, 1, 128]`. */
  const StateDims: seq<nat> := [2, 1, 128]
  const StateSize: nat := 2 * 1 * 128

  datatype Tensor = Tensor(dims: seq<nat>, data: seq<real>)

  predicate IsZeroState(t: Tensor)
  {
    t.dims == StateDims && |t.data| == StateSize && forall i :: 0 <= i < |t.data| ==> t.data[i] == 0.0
  }

  /** A fresh all-zero `[2, 1, 128]` state. */
  function ZeroState(): (t: Tensor)
    ensures IsZeroState(t)
  {
    Tensor(StateDims, seq(StateSize, _ => 0.0))
  }

  /** The named inputs of one run: `input`, `state` and `sr`. */
  datatype Inputs = Inputs(input: Tensor, state: Tensor, sr: int)

  /** A chunk is fed as a `[1, length]` tensor next to the current state and the fixed rate. */
  function Feed(chunk: seq<real>, state: Tensor): (i: Inputs)
    ensures i.input.dims == [1, |chunk|] && i.input.data == chunk
    ensures i.state == state && i.sr == 16000
  {
    Inputs(Tensor([1, |chunk|], chunk), state, SampleRate)
  }

  /** What `session.run` settles with: a rejection, or the output map, where `None`
      is an absent key. */
  datatype RunResult = Rejected | Resolved(output: Option<Tensor>, stateN: Option<Tensor>)

  type Session = Inputs -> RunResult

  /** A score read back by a worker: `output.data[0]` (`None` is `undefined`, read off
      an empty output) and the next state. */
  datatype Scored = Scored(prob: Option<real>, state: Tensor)

  /** The `First` element of a tensor's data, `undefined` when there is none. */
  function First(data: seq<real>): Option<real>
  {
    if |data| == 0 then None else Some(data[0])
  }

  /** How the workers read a run: the speech probability, then a new `[2, 1, 128]`
      tensor over `stateN.data`. Reading throws (`None`) when the run rejected, a key
      is absent, or the state data does not have 256 values for the tensor's shape. */
  function ReadScore(r: RunResult): (s: Option<Scored>)
    ensures s.Some? <==> r.Resolved? && r.output.Some? && r.stateN.Some? && |r.stateN.value.data| == StateSize
    ensures s.Some? ==> s.value.state.dims == [2, 1, 128] && s.value.state.data == r.stateN.value.data
    ensures s.Some? ==> (s.value.prob.Some? <==> |r.output.value.data| > 0)
    ensures s.Some? && s.value.prob.Some? ==> s.value.prob.value == r.output.value.data[0]
  {
    match r
    case Rejected => None
    case Resolved(output, stateN) =>
      if output.None? || stateN.None? || |stateN.value.data| != StateSize then None
      else Some(Scored(First(output.value.data), Tensor(StateDims, stateN.value.data)))
  }

  /** Why a worker posted `status: 'error'`: the session could not be created (the
      message of the error), loading failed, or a run failed (the error itself). */
  datatype Failure = SessionFailed | LoadFailed | RunFailed

  /** The messages the workers post to the main thread. */
  datatype Message =
    | Ready
    | Loading
    | Start
    | Complete(prob: Option<real>, chunk: seq<real>, sequenceNumber: Option<int>)
    | Error(failure: Failure)

  /** A state tensor of the model's shape. */
  predicate WellShaped(t: Tensor)
  {
    t.dims == StateDims && |t.data| == StateSize
  }

  /** The messages that settle a scored chunk: `complete`, or the `error` of a failed run. */
  predicate IsOutcome(m: Message)
  {
    m.Complete? || m == Error(RunFailed)
  }

  function Outcomes(ms: seq<Message>): seq<Message>
  {
    if |ms| == 0 then [] else Outcomes(ms[..|ms| - 1]) + (if IsOutcome(ms[|ms| - 1]) then [ms[|ms| - 1]] else [])
  }

  lemma OutcomesPost(ms: seq<Message>, m: Message)
    ensures Outcomes(ms + [m]) == Outcomes(ms) + (if IsOutcome(m) then [m] else [])
  {
    assert (ms + [m])[..|ms|] == ms;
  }
}
