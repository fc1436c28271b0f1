/** When a request samples.  Work is told apart by the length of the prompt alone
    (crates/einf-control/src/request.rs:171-173), so a request that was preempted after it had
    generated tokens may be taken to be decoding before its recomputation is done. */
module SampleTiming {
  import opened Base
  import opened KvCaches
  import opened Requests
  import opened Policies
  import opened Schedules
  import opened SchedulerInvariants
  import opened SchedulerResults
  import opened FirstComeFirstServed
  import opened Serving

  /** The request computes its next token at the end of its context, or has generated at most one:
      then there is nothing that recomputing it could stop in. */
  predicate InStep(r: Req) { |r.generated| <= 1 || r.cachedLen + 1 == |r.Context()| }

  predicate Active(r: Req) { r.state == Waiting || r.state == Running }

  /** An item samples exactly when it reaches the end of the context. */
  predicate SamplesAtEnd(r: Req, it: ScheduledRequest) {
    it.needSample <==> it.start + |it.input| == |r.Context()|
  }

  /** An item that decodes takes the last token of the context. */
  predicate Timely(r: Req, it: ScheduledRequest) {
    it.workType == Decode ==> it.start + 1 == |r.Context()|
  }

  /** An item samples in time exactly when it is timely: unless its request's cached tokens cover
      the prompt and more than one is left to compute. */
  lemma SamplesInTime(st: State, it: ScheduledRequest)
    requires ItemOk(st, it)
    ensures var r := st.requests[it.id];
            && (SamplesAtEnd(r, it) <==> Timely(r, it))
            && (Timely(r, it) <==> !(|r.prompt| <= r.cachedLen && r.cachedLen + 1 < |r.Context()|))
            && (InStep(r) ==> Timely(r, it))
  {
    var r := st.requests[it.id];
    assert |r.Context()| == |r.prompt| + |r.generated|;
  }

  /** That case does arise: a request preempted after it generated several tokens, once the first
      chunks of its recomputation cover the prompt, is taken to be decoding and samples from
      the middle of its context. */
  lemma RecomputeSamplesEarly(r: Req, config: Config, remaining: nat)
    requires ReqOk(r) && r.state == Running && remaining > 0
    requires |r.prompt| == config.maxPrefillChunkLen && |r.generated| > 1 && remaining >= |r.prompt|
    ensures var r0 := r.Preempt().0.Admit().0;
            var first := ChunkOf(config, r0, None, remaining);
            var r1 := r0.Advance(AdvanceResult([], first.len, None)).0;
            var next := ChunkOf(config, r1, None, remaining);
            && r.Preempt().1 == Done && r.Preempt().0.Admit().1 == Done
            && first.len != first.pending
            && r0.Advance(AdvanceResult([], first.len, None)).1 == Done && r1.state == Running
            && next.workType == Decode && next.len == next.pending
            && next.start + next.len < |r1.Context()|
  {
    var r0 := r.Preempt().0.Admit().0;
    var first := ChunkOf(config, r0, None, remaining);
    var r1 := r0.Advance(AdvanceResult([], first.len, None)).0;
    assert r1.Context() == r.Context();
  }

  /** A result keeps a request in step. */
  lemma AnswerInStep(st: State, batch: seq<ScheduledRequest>, item: RequestResult)
    requires Inv(st, batch) && Answers(batch, item)
    ensures item.id in st.requests
    ensures InStep(st.requests[item.id]) ==> InStep(Advanced(st.requests[item.id], item))
  {
    hide CacheInv, LengthsOk, ListsOk, FindItem, BatchOk;
    AnsweredItem(st, batch, item);
    AnsweredRequest(st, batch, item);
    assert ReqOk(st.requests[item.id]);
  }

  // ---------------------------------------------------------------- whole runs

  /** A step that takes computed cells of a request back after its second generated token. */
  predicate TakenBack(s: System, s1: System, id: RequestId) {
    && id in s.st.requests && id in s1.st.requests
    && var r, r1 := s.st.requests[id], s1.st.requests[id];
       |r.generated| > 1 && Active(r1) && r1.cachedLen < r.cachedLen
  }

  ghost predicate StaysInStep(s: System, id: RequestId) {
    id in s.st.requests && (Active(s.st.requests[id]) ==> InStep(s.st.requests[id]))
  }

  /** What a scheduling round may make of a request: nothing, or a waiting or failed one, or one
      that runs with other cells cached. */
  predicate RoundReq(r: Req, r1: Req) {
    r1 == r || (Active(r) && r1 == r.(state := r1.state, cachedLen := r1.cachedLen, error := r1.error))
  }

  lemma RoundRequests(st: State, id: RequestId)
    requires Consistent(st) && st.outstanding == None && id in st.requests
    ensures var st1 := st.Schedule().0; id in st1.requests && RoundReq(st.requests[id], st1.requests[id])
  {
    hide Sweep.RunAll, Sweep.AdmitAll, Inv, AdmissionBlocked, Fifo, PreemptedLater, BatchFirst, SweepFrame, OnlyAdmitted;
    SweepPreemptsLater(st);
    var sw := SweepOf(st).0;
    SweepAdmits(st, sw);
    AdmitAllOk(st.config, sw);
    AdmitAllFifo(st.config, sw);
    var sw1 := sw.AdmitAll().0;
    RoundOne(st, sw.st, sw.selected, sw1.st, sw1.selected, id);
  }

  lemma RoundOne(st: State, mid: State, sel: seq<ScheduledRequest>, st1: State, batch: seq<ScheduledRequest>, id: RequestId)
    requires SweepFrame(st, mid) && OnlyAdmitted(mid, sel, st1, batch) && id in st.requests
    ensures id in st1.requests && RoundReq(st.requests[id], st1.requests[id])
  {
    hide BatchIds, SealedWithin;
    assert SweptReq(st.requests[id], mid.requests[id]);
  }

  /** A running request has a token left to compute, a waiting one has everything. */
  lemma ActiveLengths(st: State, id: RequestId)
    requires Consistent(st) && id in st.requests
    ensures var r := st.requests[id];
            && |r.Context()| == |r.prompt| + |r.generated| && r.prompt != []
            && (r.state == Running ==> r.cachedLen < |r.Context()|) && (r.state == Waiting ==> r.cachedLen == 0)
  {
    hide CacheOk, BatchOk, LengthsOk, ListsOk;
    assert ReqOk(st.requests[id]);
  }

  lemma RoundInStep(s: System, s1: System, id: RequestId)
    requires Consistent(s.st) && Consistent(s1.st) && StaysInStep(s, id) && id in s1.st.requests
    requires RoundReq(s.st.requests[id], s1.st.requests[id])
    ensures StaysInStep(s1, id) <==> !TakenBack(s, s1, id)
  {
    hide Consistent;
    ActiveLengths(s.st, id);
    ActiveLengths(s1.st, id);
    var r, r1 := s.st.requests[id], s1.st.requests[id];
    assert r1.Context() == r.Context();
    assert Active(r) || r1 == r;
    if |r.generated| > 1 && Active(r) {
      assert r.state == Running && r.cachedLen + 1 == |r.Context()|;
      assert r1.state == Waiting ==> TakenBack(s, s1, id) && !StaysInStep(s1, id);
    }
  }

  lemma NoRound(st: State)
    requires st.outstanding != None
    ensures st.Schedule().0 == st
  {
  }

  lemma ResultInStep(s: System, s1: System, result: ExecutionResult, id: RequestId)
    requires SystemOk(s) && Next(s, Apply(result), s1) && StaysInStep(s, id)
    ensures id in s1.st.requests && StaysInStep(s1, id) && !TakenBack(s, s1, id)
  {
    hide Inv, Advanced, State.ApplyResult, Answers, BatchIds, InStep;
    ApplyResultOk(s.st, result);
    if s.st.ApplyResult(result).1 == Done {
      var batch := s.st.outstanding.value.requests;
      if id in BatchIds(batch) {
        assert id in ResultIds(result.results);
        var i :| 0 <= i < |result.results| && result.results[i].id == id;
        AnswerInStep(s.st, batch, result.results[i]);
        AnsweredRequest(s.st, batch, result.results[i]);
      }
    }
  }

  /** A request falls out of step exactly in the steps that take its cells back. */
  lemma NextInStep(s: System, e: Event, s1: System, id: RequestId)
    requires SystemOk(s) && Next(s, e, s1) && StaysInStep(s, id)
    ensures id in s1.st.requests && (StaysInStep(s1, id) <==> !TakenBack(s, s1, id))
  {
    hide Inv, State.Submit, State.Cancel, State.ApplyResult, State.FailBatch, State.Schedule, InStep;
    NextOk(s, e, s1);
    match e {
      case SubmitRequest(spec) => SubmitOk(s.st, spec);
      case CancelRequest(x) => CancelOk(s.st, x);
      case ScheduleBatch =>
        if s.st.outstanding == None { RoundRequests(s.st, id); } else { NoRound(s.st); }
        RoundInStep(s, s1, id);
      case Apply(result) => ResultInStep(s, s1, result, id);
      case Fail(batch, message) => FailBatchOk(s.st, batch, message);
      case _ =>
    }
  }

  /** The request has been out of step since step `k` took its cells back. */
  ghost predicate OutSince(states: seq<System>, id: RequestId, k: nat, n: nat)
    requires k < n < |states|
  {
    TakenBack(states[k], states[k + 1], id) && forall m :: k < m <= n ==> !StaysInStep(states[m], id)
  }

  lemma {:induction false} OutOfStepExactly(states: seq<System>, events: seq<Event>, id: RequestId, n: nat)
    requires Trace(states, events) && n <= |events| && SystemOk(states[0]) && StaysInStep(states[0], id)
    ensures !StaysInStep(states[n], id) <==> exists k :: 0 <= k < n && OutSince(states, id, k, n)
  {
    hide SystemOk, Next, StaysInStep, TakenBack;
    if n > 0 {
      OutOfStepExactly(states, events, id, n - 1);
      TraceOk(states, events, n - 1);
      if StaysInStep(states[n - 1], id) {
        NextInStep(states[n - 1], events[n - 1], states[n], id);
        if !StaysInStep(states[n], id) { assert OutSince(states, id, n - 1, n); }
      } else if !StaysInStep(states[n], id) {
        var k :| 0 <= k < n - 1 && OutSince(states, id, k, n - 1);
        assert OutSince(states, id, k, n);
      }
    }
  }

  /** Over any run, an item samples before the end of its context if and only if the cached tokens of
      its request cover the prompt and the request has been out of step since some step took its
      cells back. */
  lemma SamplesAtEndExactly(states: seq<System>, events: seq<Event>, i: nat)
    requires Trace(states, events) && Reachable(states[0])
    requires var last := states[|events|]; last.st.outstanding.Some? && i < |last.st.outstanding.value.requests|
    requires var id := states[|events|].st.outstanding.value.requests[i].id;
             id in states[0].st.requests && states[0].st.requests[id].generated == []
    ensures var n, last := |events|, states[|events|];
            var it := last.st.outstanding.value.requests[i];
            && it.id in last.st.requests
            && var r := last.st.requests[it.id];
               SamplesAtEnd(r, it) <==>
                 !(|r.prompt| <= r.cachedLen && exists k :: 0 <= k < n && OutSince(states, it.id, k, n))
  {
    hide Reachable, Next, CacheInv, LengthsOk, ListsOk, OutSince;
    var n, last := |events|, states[|events|];
    var it := last.st.outstanding.value.requests[i];
    ReachableOk(states[0]);
    OutOfStepExactly(states, events, it.id, n);
    TraceOk(states, events, n);
    assert ItemOk(last.st, it);
    SamplesInTime(last.st, it);
  }
}
