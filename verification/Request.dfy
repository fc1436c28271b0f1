/** The request lifecycle (crates/einf-control/src/request.rs).

    `Req` is the value of a request and `Request` the mutable object.  Every lifecycle
    operation returns the request it leaves, also when it fails half way. */
module Requests {
  import opened Base

  datatype CompletionReason = Eos | Length

  datatype SamplingParams = SamplingParams(
    temperature: real, topK: Option<nat>, topP: real, minP: real,
    seed: nat, stopTokenIds: seq<Token>, numLogprobs: nat)

  datatype RequestSpec = RequestSpec(
    requestId: RequestId, promptTokenIds: seq<Token>, maxNewLen: nat, samplingParams: SamplingParams)

  datatype AdvanceResult = AdvanceResult(
    generatedTokenIds: seq<Token>, cachedLenDelta: nat, completionReason: Option<CompletionReason>)

  datatype Req = Req(
    id: RequestId,
    prompt: seq<Token>,
    arrival: nat,
    maxNewLen: nat,
    params: SamplingParams,
    sampleIndex: nat,
    generated: seq<Token>,
    state: RequestState,
    cachedLen: nat,
    completion: Option<CompletionReason>,
    error: Option<string>)
  {
    function Context(): seq<Token> { prompt + generated }

    predicate WorkIsDecode() { cachedLen >= |prompt| }

    /** `assert_invariants`. */
    function CheckInvariants(): Status {
      if |generated| > maxNewLen then
        Failure(RequestInvariant(id, TooManyGenerated))
      else if sampleIndex != |generated| then
        Failure(RequestInvariant(id, SampleIndexMismatch))
      else match state
        case Waiting | Running =>
          if completion.Some? || error.Some? then Failure(RequestInvariant(id, ActiveWithTerminalData)) else Done
        case Cancelled =>
          if completion.Some? || error.Some? then Failure(RequestInvariant(id, CancelledWithTerminalData)) else Done
        case Finished =>
          if completion.None? || error.Some?
          then Failure(RequestInvariant(id, FinishedDataWrong)) else Done
        case Failed =>
          if completion.Some? || error.None?
          then Failure(RequestInvariant(id, FailedDataWrong)) else Done
    }

    function CheckState(expected: RequestState): Status {
      if state == expected then Done else Failure(InvalidState(id, state))
    }

    /** The guards at the head of most operations: the invariants, then the state. */
    function Guard(expected: RequestState): Status {
      if CheckInvariants().Failure? then CheckInvariants() else CheckState(expected)
    }

    function Admit(): (Req, Status) {
      if Guard(Waiting).Failure? then (this, Guard(Waiting))
      else var r := this.(state := Running); (r, r.CheckInvariants())
    }

    function Reuse(reusedLen: nat): (Req, Status) {
      if Guard(Running).Failure? then (this, Guard(Running))
      else
        var r := this.(cachedLen := cachedLen + reusedLen);
        (r, if r.cachedLen >= |prompt| then Failure(Panicked) else r.CheckInvariants())
    }

    function Preempt(): (Req, Status) {
      if Guard(Running).Failure? then (this, Guard(Running))
      else var r := this.(state := Waiting, cachedLen := 0); (r, r.CheckInvariants())
    }

    /** The checks `advance` makes before it writes anything. */
    function AdvanceChecks(result: AdvanceResult): Status {
      if Guard(Running).Failure? then Guard(Running)
      else if |generated| + |result.generatedTokenIds| > maxNewLen
      then Failure(RequestInvariant(id, AdvanceTooLong))
      else Done
    }

    function Advance(result: AdvanceResult): (Req, Status) {
      if AdvanceChecks(result).Failure? then (this, AdvanceChecks(result))
      else
        var r := this.(
          state := if result.completionReason.Some? then Finished else state,
          completion := if result.completionReason.Some? then result.completionReason else completion,
          generated := generated + result.generatedTokenIds,
          sampleIndex := sampleIndex + |result.generatedTokenIds|,
          cachedLen := cachedLen + result.cachedLenDelta);
        (r, r.CheckInvariants())
    }

    function RollbackAdvance(extra: nat, oldSampleIndex: nat, oldCachedLen: nat,
                             oldState: RequestState, oldReason: Option<CompletionReason>): Req
    {
      this.(generated := generated[..Max(0, |generated| - extra)],
            sampleIndex := oldSampleIndex, cachedLen := oldCachedLen,
            state := oldState, completion := oldReason)
    }

    function RollbackFail(): Req { this.(state := Running, error := None) }

    function Fail(message: string): (Req, Status) {
      if Guard(Running).Failure? then (this, Guard(Running))
      else var r := this.(state := Failed, error := Some(message)); (r, r.CheckInvariants())
    }

    function Cancel(): (Req, Status) {
      if CheckInvariants().Failure? then (this, CheckInvariants())
      else if state.Waiting? || state.Running? then
        var r := this.(state := Cancelled); (r, r.CheckInvariants())
      else if state.Cancelled? then (this, Done)
      else (this, Failure(InvalidState(id, state)))
    }
  }

  function Create(spec: RequestSpec, arrival: nat): Result<Req> {
    if spec.promptTokenIds == [] then Err(InvalidConfig(EmptyPrompt))
    else if spec.maxNewLen == 0 then Err(InvalidConfig(ZeroOutputBudget))
    else
      Ok(Req(spec.requestId, spec.promptTokenIds, arrival, spec.maxNewLen, spec.samplingParams,
             0, [], Waiting, 0, None, None))
  }

  // -------------------------------------------------------------- invariant

  /** What every request of the scheduler satisfies between two calls. */
  ghost predicate ReqOk(r: Req) {
    && r.CheckInvariants() == Done
    && r.prompt != [] && r.maxNewLen > 0
    && (r.state.Waiting? ==> r.cachedLen == 0)
    && (r.state.Running? ==> r.cachedLen < |r.Context()|)
    && (r.state.Waiting? || r.state.Running? ==> |r.generated| < r.maxNewLen)
  }

  lemma CreatedOk(spec: RequestSpec, arrival: nat)
    ensures var r := Create(spec, arrival);
            && (r.Ok? <==> spec.promptTokenIds != [] && spec.maxNewLen > 0)
            && (r.Ok? ==>
                  && ReqOk(r.value) && r.value.Context() == spec.promptTokenIds
                  && r.value == Req(spec.requestId, spec.promptTokenIds, arrival, spec.maxNewLen, spec.samplingParams,
                                    0, [], Waiting, 0, None, None))
  {
    var r := Create(spec, arrival);
    if r.Ok? { assert r.value.prompt + [] == r.value.prompt; }
  }

  /** `rollback_advance`, called with the values recorded before `advance`, restores the
      request exactly when `advance` got past its checks or there was nothing to cut off:
      after an early failure it would drop tokens that `advance` never added. */
  lemma RollbackAdvanceExact(r: Req, result: AdvanceResult)
    ensures var back := r.Advance(result).0.RollbackAdvance(
                          |result.generatedTokenIds|, r.sampleIndex, r.cachedLen, r.state, r.completion);
            back == r <==>
              r.AdvanceChecks(result) == Done || result.generatedTokenIds == [] || r.generated == []
  {
    var r1 := r.Advance(result).0;
    var extra := |result.generatedTokenIds|;
    var cut := r1.generated[..Max(0, |r1.generated| - extra)];
    if r.AdvanceChecks(result) == Done {
      assert cut == r.generated;
    } else if extra > 0 && r.generated != [] {
      assert |cut| < |r.generated|;
    } else {
      assert cut == r.generated;
    }
  }

  /** `rollback_fail` undoes `fail` exactly on running requests without an error. */
  lemma RollbackFailExact(r: Req, message: string)
    ensures r.Fail(message).0.RollbackFail() == r <==> r.state == Running && r.error == None
  {
  }

  /** A request in good order that is advanced within its limits stays in good order: it runs
      on with at least one token left to compute, or it is finished. */
  lemma AdvanceOk(r: Req, result: AdvanceResult)
    requires ReqOk(r) && r.state == Running
    requires |r.generated| + |result.generatedTokenIds| <= r.maxNewLen
    requires result.completionReason.None? ==>
               && |r.generated| + |result.generatedTokenIds| < r.maxNewLen
               && r.cachedLen + result.cachedLenDelta < |r.Context()| + |result.generatedTokenIds|
    ensures var (r1, s) := r.Advance(result);
            && s == Done && ReqOk(r1)
            && r1.Context() == r.Context() + result.generatedTokenIds
            && r1.state == if result.completionReason.Some? then Finished else Running
  {
    var r1 := r.Advance(result).0;
    assert r1.Context() == r.Context() + result.generatedTokenIds;
  }

  // ----------------------------------------------------------------- object

  class Request {
    const requestId: RequestId
    const promptTokenIds: seq<Token>
    const arrivalIndex: nat
    const maxNewLen: nat
    const samplingParams: SamplingParams
    var sampleIndex: nat
    var generatedTokenIds: seq<Token>
    var state: RequestState
    var cachedLen: nat
    var completionReason: Option<CompletionReason>
    var error: Option<string>

    function View(): Req
      reads this
    {
      Req(requestId, promptTokenIds, arrivalIndex, maxNewLen, samplingParams,
          sampleIndex, generatedTokenIds, state, cachedLen, completionReason, error)
    }

    constructor (spec: RequestSpec, arrival: nat)
      ensures View() == Req(spec.requestId, spec.promptTokenIds, arrival, spec.maxNewLen,
                            spec.samplingParams, 0, [], Waiting, 0, None, None)
    {
      requestId := spec.requestId;
      promptTokenIds := spec.promptTokenIds;
      arrivalIndex := arrival;
      maxNewLen := spec.maxNewLen;
      samplingParams := spec.samplingParams;
      sampleIndex, generatedTokenIds, state, cachedLen := 0, [], Waiting, 0;
      completionReason, error := None, None;
    }

    method CheckInvariants() returns (s: Status)
      ensures s == View().CheckInvariants()
    {
      if |generatedTokenIds| > maxNewLen {
        return Failure(RequestInvariant(requestId, TooManyGenerated));
      }
      if sampleIndex != |generatedTokenIds| {
        return Failure(RequestInvariant(requestId, SampleIndexMismatch));
      }
      match state
      case Waiting | Running =>
        return if completionReason.Some? || error.Some?
               then Failure(RequestInvariant(requestId, ActiveWithTerminalData)) else Done;
      case Cancelled =>
        return if completionReason.Some? || error.Some?
               then Failure(RequestInvariant(requestId, CancelledWithTerminalData)) else Done;
      case Finished =>
        return if completionReason.None? || error.Some?
               then Failure(RequestInvariant(requestId, FinishedDataWrong)) else Done;
      case Failed =>
        return if completionReason.Some? || error.None?
               then Failure(RequestInvariant(requestId, FailedDataWrong)) else Done;
    }

    method Guard(expected: RequestState) returns (s: Status)
      ensures s == View().Guard(expected)
    {
      s := CheckInvariants();
      if s == Done {
        s := if state == expected then Done else Failure(InvalidState(requestId, state));
      }
    }

    method Admit() returns (s: Status)
      modifies this
      ensures (View(), s) == old(View().Admit())
    {
      s := Guard(Waiting);
      if s.Failure? { return; }
      state := Running;
      s := CheckInvariants();
    }

    method Reuse(reusedLen: nat) returns (s: Status)
      modifies this
      ensures (View(), s) == old(View().Reuse(reusedLen))
    {
      s := Guard(Running);
      if s.Failure? { return; }
      cachedLen := cachedLen + reusedLen;
      if cachedLen >= |promptTokenIds| {
        return Failure(Panicked);
      }
      s := CheckInvariants();
    }

    method Preempt() returns (s: Status)
      modifies this
      ensures (View(), s) == old(View().Preempt())
    {
      s := Guard(Running);
      if s.Failure? { return; }
      state := Waiting;
      cachedLen := 0;
      s := CheckInvariants();
    }

    method Advance(result: AdvanceResult) returns (s: Status)
      modifies this
      ensures (View(), s) == old(View().Advance(result))
    {
      s := Guard(Running);
      if s.Failure? { return; }
      if |generatedTokenIds| + |result.generatedTokenIds| > maxNewLen {
        return Failure(RequestInvariant(requestId, AdvanceTooLong));
      }
      if result.completionReason.Some? {
        state := Finished;
        completionReason := result.completionReason;
      }
      generatedTokenIds := generatedTokenIds + result.generatedTokenIds;
      sampleIndex := sampleIndex + |result.generatedTokenIds|;
      cachedLen := cachedLen + result.cachedLenDelta;
      s := CheckInvariants();
    }

    method RollbackAdvance(extra: nat, oldSampleIndex: nat, oldCachedLen: nat,
                           oldState: RequestState, oldReason: Option<CompletionReason>)
      modifies this
      ensures View() == old(View().RollbackAdvance(extra, oldSampleIndex, oldCachedLen, oldState, oldReason))
    {
      generatedTokenIds := generatedTokenIds[..Max(0, |generatedTokenIds| - extra)];
      sampleIndex := oldSampleIndex;
      cachedLen := oldCachedLen;
      state := oldState;
      completionReason := oldReason;
    }

    method RollbackFail()
      modifies this
      ensures View() == old(View().RollbackFail())
    {
      state := Running;
      error := None;
    }

    method Fail(message: string) returns (s: Status)
      modifies this
      ensures (View(), s) == old(View().Fail(message))
    {
      s := Guard(Running);
      if s.Failure? { return; }
      state := Failed;
      error := Some(message);
      s := CheckInvariants();
    }

    method Cancel() returns (s: Status)
      modifies this
      ensures (View(), s) == old(View().Cancel())
    {
      s := CheckInvariants();
      if s.Failure? { return; }
      if state.Waiting? || state.Running? {
        state := Cancelled;
        s := CheckInvariants();
      } else if !state.Cancelled? {
        s := Failure(InvalidState(requestId, state));
      }
    }
  }
}
