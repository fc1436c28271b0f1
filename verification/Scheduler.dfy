/** The scheduler as a mutable object (crates/einf-control/src/scheduler.rs), proved to do
    what the functions of `Schedules.State` say. */
module SchedulerObjects {
  import opened Base
  import opened KvCaches
  import opened Requests
  import opened Policies
  import opened Schedules

  /** The stack of undo actions of a transaction (crates/einf-control/src/rollback.rs). */
  class RollbackScope {
    var actions: seq<Undo>

    constructor ()
      ensures actions == []
    {
      actions := [];
    }

    method Defer(action: Undo)
      modifies this
      ensures actions == old(actions) + [action]
    {
      actions := actions + [action];
    }
  }

  /** The second half of a committing round: seal what was filled, and retire who is done. */
  function Settled(st: State, id: RequestId, oldCachedLen: nat, snap: bool, log: seq<Undo>): (State, seq<Undo>, Status)
    requires id in st.requests
  {
    var log1 := if snap then log + [RestoreCache(st.cache)] else log;
    var (st1, s) := st.SealFilled(id, oldCachedLen);
    if s.Failure? then (st1, log1, s)
    else if st.requests[id].state.IsTerminal() then st1.Retire(id, log1)
    else (st1, log1, Done)
  }

  lemma CommitOneIs(st: State, item: RequestResult, log: seq<Undo>, snapshotted: bool)
    ensures item.id !in st.requests ==>
              st.CommitOne(item, log, snapshotted) == (st, log, snapshotted, Failure(Panicked))
    ensures item.id in st.requests ==>
              var r, reason, bl := st.requests[item.id], st.Reason(item), st.cache.blockLen;
              var log1 := log + [UndoAdvance(item.id, |item.generated|, r.sampleIndex, r.cachedLen, r.state, r.completion)];
              var (r1, s1) := r.Advance(AdvanceResult(item.generated, item.cachedLenDelta, reason));
              var st1 := st.(requests := st.requests[item.id := r1]);
              var snap := ((r.cachedLen + item.cachedLenDelta) / bl > r.cachedLen / bl || reason.Some?) && !snapshotted;
              var (st2, log2, s2) := Settled(st1, item.id, r.cachedLen, snap, log1);
              st.CommitOne(item, log, snapshotted) ==
                if s1.Failure? then (st1, log1, snapshotted, s1) else (st2, log2, snapshotted || snap, s2)
  {
    hide State.SealFilled, State.Retire, Req.Advance;
  }

  lemma {:induction false} CheckIgnoresOutstanding(st: State, plan: BatchPlan, seen: set<RequestId>, items: seq<RequestResult>)
    ensures st.(outstanding := None).CheckResults(plan, seen, items) == st.CheckResults(plan, seen, items)
    decreases |items|
  {
    if items != [] {
      CheckIgnoresOutstanding(st, plan, seen + {items[0].id}, items[1..]);
    }
  }

  lemma ValidateIgnoresOutstanding(st: State, plan: BatchPlan, result: ExecutionResult)
    ensures st.(outstanding := None).Validate(plan, result) == st.Validate(plan, result)
  {
    CheckIgnoresOutstanding(st, plan, {}, result.results);
  }

  class Scheduler {
    const config: Config
    const policy: Policy
    var cache: KvCacheManager
    var requests: map<RequestId, Request>
    var waiting: seq<RequestId>
    var running: seq<RequestId>
    var nextArrival: nat
    var nextStep: nat
    var outstanding: Option<BatchPlan>

    ghost function Repr(): set<object>
      reads this
    {
      {this, cache, cache.pool} + requests.Values
    }

    /** No two ids share a request object. */
    ghost predicate Valid()
      reads this
    {
      forall a, b :: a in requests && b in requests && a != b ==> requests[a] != requests[b]
    }

    ghost function Views(): map<RequestId, Req>
      reads `requests, requests.Values
    {
      map id | id in requests :: requests[id].View()
    }

    ghost function View(): State
      reads this, cache, cache.pool, requests.Values
    {
      State(config, policy, cache.View(), Views(), waiting, running, nextArrival, nextStep, outstanding)
    }

    constructor (config: Config, policy: Policy, cache: KvCacheManager)
      ensures Valid() && this.cache == cache && requests == map[]
      ensures View() == State(config, policy, cache.View(), map[], [], [], 0, 0, None)
    {
      this.config := config;
      this.policy := policy;
      this.cache := cache;
      requests := map[];
      waiting, running, nextArrival, nextStep, outstanding := [], [], 0, 0, None;
    }

    method Submit(spec: RequestSpec) returns (s: Status)
      requires Valid()
      modifies this
      ensures Valid() && cache == old(cache) && fresh(Repr() - old(Repr()))
      ensures (View(), s) == old(View().Submit(spec))
    {
      if spec.requestId in requests {
        return Failure(DuplicateRequest(spec.requestId));
      }
      if spec.promptTokenIds == [] {
        return Failure(InvalidConfig(EmptyPrompt));
      }
      if spec.maxNewLen == 0 {
        return Failure(InvalidConfig(ZeroOutputBudget));
      }
      var request := new Request(spec, nextArrival);
      nextArrival := nextArrival + 1;
      requests := requests[spec.requestId := request];
      waiting := waiting + [spec.requestId];
      assert Views() == old(Views())[spec.requestId := request.View()];
      return Done;
    }

    /** The view after one request object changed and nothing else. */
    twostate lemma OneChanged(id: RequestId)
      requires old(Valid()) && id in old(requests) && unchanged(this) && unchanged(cache) && unchanged(cache.pool)
      requires forall x :: x in requests && x != id ==> unchanged(requests[x])
      ensures View() == old(View()).(requests := old(View()).requests[id := requests[id].View()])
    {
      assert Views() == old(Views())[id := requests[id].View()];
    }

    lemma ViewOf(id: RequestId)
      ensures id in requests <==> id in View().requests
      ensures id in requests ==> View().requests[id] == requests[id].View()
      ensures View().cache.blockLen == cache.blockLen
    {
    }

    method ReleaseCache(id: RequestId) returns (s: Status)
      modifies cache, cache.pool
      ensures (View(), s) == old(View()).ReleaseCache(id)
    {
      hide Cache.Release;
      label before:
      s := cache.Release(id);
      forall x | x in requests ensures unchanged@before(requests[x]) {}
      assert Views() == old(Views());
    }

    method Cancel(id: RequestId) returns (s: Status)
      requires Valid()
      modifies Repr()
      ensures Valid() && Repr() == old(Repr())
      ensures (View(), s) == old(View()).Cancel(id)
    {
      hide Req.Cancel, Cache.Release, Views;
      ViewOf(id);
      if id !in requests {
        return Failure(UnknownRequest(id));
      }
      if outstanding.Some? && FindItem(outstanding.value.requests, id).Some? {
        return Failure(RequestInFlight(id));
      }
      s := requests[id].Cancel();
      OneChanged(id);
      if s.Failure? {
        return;
      }
      running := Without(running, id);
      waiting := Without(waiting, id);
      s := ReleaseCache(id);
    }

    method PreemptId(id: RequestId) returns (s: Status)
      requires Valid()
      modifies Repr()
      ensures Valid() && Repr() == old(Repr())
      ensures (View(), s) == old(View()).PreemptId(id)
    {
      hide Req.Preempt, Cache.Release, Views;
      ViewOf(id);
      if id !in requests {
        return Failure(UnknownRequest(id));
      }
      s := requests[id].Preempt();
      OneChanged(id);
      if s.Failure? {
        return;
      }
      running := Without(running, id);
      waiting := [id] + waiting;
      s := ReleaseCache(id);
    }

    method FailId(id: RequestId) returns (s: Status)
      requires Valid()
      modifies Repr()
      ensures Valid() && Repr() == old(Repr())
      ensures (View(), s) == old(View()).FailId(id)
    {
      hide Req.Fail, Cache.Release, Views;
      ViewOf(id);
      if id !in requests {
        return Failure(UnknownRequest(id));
      }
      s := requests[id].Fail(OutOfMemory);
      OneChanged(id);
      if s.Failure? {
        return;
      }
      running := Without(running, id);
      s := ReleaseCache(id);
    }

    // ------------------------------------------------------------ scheduling

    method OrderedRunning() returns (ordered: seq<PolicyRequest>)
      ensures ordered == View().OrderedRunning()
    {
      var live: seq<PolicyRequest> := [];
      for i := 0 to |running|
        invariant live + View().PolicyRequests(running[i..]) == View().PolicyRequests(running)
      {
        var id := running[i];
        assert running[i..][0] == id && running[i..][1..] == running[i + 1..];
        if id in requests && requests[id].state == Running {
          var decode := requests[id].cachedLen >= |requests[id].promptTokenIds|;
          var entry := PolicyRequest(id, requests[id].arrivalIndex, Running, if decode then Decode else Prefill);
          assert entry == View().PolicyRequestOf(id);
          assert live + ([entry] + View().PolicyRequests(running[i + 1..]))
              == live + [entry] + View().PolicyRequests(running[i + 1..]);
          live := live + [entry];
        }
      }
      assert running[|running|..] == [] && live + [] == live;
      return Sort(policy, live);
    }

    method VictimId(protected: set<RequestId>) returns (victim: Option<RequestId>)
      ensures victim == View().VictimId(protected)
    {
      var ordered := OrderedRunning();
      return LastUnprotected(ordered, protected);
    }

    method ScheduleOne(id: RequestId, plan: Option<ReusePlan>, remaining: nat)
      returns (r: Result<Option<ScheduledRequest>>)
      modifies cache, cache.pool
      ensures (View(), r) == old(View()).ScheduleOne(id, plan, remaining)
    {
      hide Cache.ReserveTo;
      if id !in requests {
        return Err(UnknownRequest(id));
      }
      var request := requests[id];
      var context := request.promptTokenIds + request.generatedTokenIds;
      var start, workType := request.cachedLen, Prefill;
      if plan.Some? {
        start := plan.value.reusedLen;
      } else if request.cachedLen >= |request.promptTokenIds| {
        workType := Decode;
      }
      var pending, scheduledLen := 1, Min(1, remaining);
      if workType == Prefill {
        pending := Max(0, |context| - start);
        scheduledLen := Min(Min(config.maxPrefillChunkLen, pending), remaining);
      }
      ghost var chunk := ChunkOf(config, request.View(), plan, remaining);
      assert chunk == Chunk(start, workType, pending, scheduledLen);
      if scheduledLen == 0 {
        return Ok(None);
      }
      if start + scheduledLen > |context| {
        return Err(InvalidExecutionResult(NoInputToken));
      }
      var table := Reserve(id, plan, start + scheduledLen);
      if table.Err? {
        return Err(table.error);
      }
      var needSample := scheduledLen == pending;
      var item := ScheduledRequest(
        id, context[start..start + scheduledLen], workType, start, table.value, needSample,
        if needSample then Some(SamplingPlan(request.samplingParams, request.sampleIndex)) else None);
      assert item == ScheduledItem(request.View(), id, chunk, table.value);
      return Ok(Some(item));
    }

    method Reserve(id: RequestId, plan: Option<ReusePlan>, tokens: nat) returns (r: Result<seq<BlockId>>)
      modifies cache, cache.pool
      ensures var (c, r0) := old(View()).cache.ReserveTo(id, plan, tokens);
              r == r0 && View() == old(View()).(cache := c)
    {
      hide Cache.ReserveTo;
      label before:
      r := cache.ReserveTo(id, plan, tokens);
      forall x | x in requests ensures unchanged@before(requests[x]) {}
      assert Views() == old(Views());
    }

    /** Retry until the request is scheduled, preempting the last unprotected request while
        blocks are missing; when that is the request itself, fail it. */
    method TrySchedule(id: RequestId, remaining: nat, protected: set<RequestId>)
      returns (r: Result<Option<ScheduledRequest>>)
      requires Valid()
      modifies Repr()
      ensures Valid() && Repr() == old(Repr())
      ensures (View(), r) == old(View()).TrySchedule(id, remaining, protected)
    {
      hide State.ScheduleOne, State.PreemptId, State.FailId, State.VictimId, Views;
      ghost var target := View().TrySchedule(id, remaining, protected);
      while true
        invariant Valid() && Repr() == old(Repr())
        invariant View().TrySchedule(id, remaining, protected) == target
        decreases |running|
      {
        ghost var before := View();
        r := ScheduleOne(id, None, remaining);
        if r.Ok? || !r.error.InsufficientBlocks? {
          return;
        }
        ghost var blocked := View();
        assert blocked.running == before.running by { ScheduleOneKeeps(before, id, None, remaining); }
        var victim := VictimId(protected);
        if victim == None || victim == Some(id) {
          var s := FailId(id);
          return if s.Failure? then Err(s.error) else Ok(None);
        }
        var s := PreemptId(victim.value);
        if s.Failure? {
          return Err(s.error);
        }
        VictimRuns(blocked, protected);
        PreemptShrinks(blocked, victim.value);
        assert View().running == running;
      }
    }

    /** The lifecycle part of an admission: `admit`, then `reuse` if something is reused. */
    method AdmitRequest(id: RequestId, reusedLen: nat) returns (s: Status)
      requires Valid() && id in requests
      modifies requests[id]
      ensures var (r, s1) := AdmitAndReuse(old(View()).requests[id], reusedLen);
              s == s1 && View() == old(View()).(requests := old(View()).requests[id := r])
    {
      hide Req.Admit, Req.Reuse;
      s := requests[id].Admit();
      if s == Done && reusedLen != 0 {
        s := requests[id].Reuse(reusedLen);
      }
      OneChanged(id);
    }

    method Admit(id: RequestId, reusedLen: nat) returns (s: Status)
      requires Valid() && id in requests && waiting != []
      modifies Repr()
      ensures Valid() && Repr() == old(Repr())
      ensures var (r, s1) := AdmitAndReuse(old(View()).requests[id], reusedLen);
              var st2 := old(View()).(waiting := old(waiting)[1..], requests := old(View()).requests[id := r]);
              s == s1 && View() == if s1.Failure? then st2 else st2.(running := old(running) + [id])
      ensures waiting == old(waiting)[1..]
    {
      hide AdmitAndReuse, Views;
      s := AdmitRequest(id, reusedLen);
      waiting := waiting[1..];
      if s == Done {
        running := running + [id];
      }
    }

    method Schedule() returns (r: Result<Option<BatchPlan>>)
      requires Valid()
      modifies Repr()
      ensures Valid() && Repr() == old(Repr())
      ensures (View(), r) == old(View()).Schedule()
    {
      hide Sweep.RunAll, Sweep.AdmitAll, State.OrderedRunning, Views;
      if outstanding.Some? {
        return Err(InvalidExecutionResult(BatchOutstanding));
      }
      var swept, remaining, protected, selected := RunAll();
      if swept.Failure? {
        return Err(swept.error);
      }
      var admitted;
      admitted, remaining, protected, selected := AdmitAll(remaining, protected, selected);
      if admitted.Failure? {
        return Err(admitted.error);
      }
      if selected == [] {
        return Ok(None);
      }
      var plan := BatchPlan(nextStep, selected);
      nextStep := nextStep + 1;
      outstanding := Some(plan);
      return Ok(Some(plan));
    }

    /** The loop over the running requests. */
    method RunAll() returns (s: Status, remaining: nat, protected: set<RequestId>, selected: seq<ScheduledRequest>)
      requires Valid()
      modifies Repr()
      ensures Valid() && Repr() == old(Repr())
      ensures (Sweep(View(), remaining, protected, selected), s) ==
                Sweep(old(View()), config.maxBatchLen, {}, []).RunAll(Ids(old(View()).OrderedRunning()))
    {
      hide Sweep.RunAll, State.TrySchedule, State.OrderedRunning, Views;
      remaining, protected, selected := config.maxBatchLen, {}, [];
      var ordered := OrderedRunning();
      ghost var ids := Ids(ordered);
      ghost var target := Sweep(View(), remaining, protected, selected).RunAll(ids);
      var i := 0;
      assert ids[0..] == ids;
      while i < |ordered| && remaining > 0
        invariant 0 <= i <= |ordered|
        invariant Valid() && Repr() == old(Repr())
        invariant Sweep(View(), remaining, protected, selected).RunAll(ids[i..]) == target
      {
        var id := ordered[i].id;
        assert ids[i..][0] == id && ids[i..][1..] == ids[i + 1..];
        RunAllRound(Sweep(View(), remaining, protected, selected), ids[i..]);
        ViewOf(id);
        if id in requests && requests[id].state == Running {
          var tried := TrySchedule(id, remaining, protected);
          if tried.Err? {
            s := Failure(tried.error);
            return;
          }
          if tried.value.Some? {
            var item := tried.value.value;
            remaining := remaining - |item.input|;
            protected := protected + {item.id};
            selected := selected + [item];
          }
        }
        i := i + 1;
      }
      RunAllRound(Sweep(View(), remaining, protected, selected), ids[i..]);
      s := Done;
    }

    /** One round of the loop over the waiting requests. */
    method AdmitHead(budget: nat, initial: set<RequestId>, chosen: seq<ScheduledRequest>)
      returns (stop: bool, s: Status, remaining: nat, protected: set<RequestId>, selected: seq<ScheduledRequest>)
      requires Valid() && budget > 0 && waiting != []
      modifies Repr()
      ensures Valid() && Repr() == old(Repr())
      ensures var before, after := Sweep(old(View()), budget, initial, chosen), Sweep(View(), remaining, protected, selected);
              if stop then before.AdmitAll() == (after, s)
              else before.AdmitAll() == after.AdmitAll() && |waiting| < |old(waiting)|
    {
      hide Sweep.AdmitAll, Sweep.Admitted, State.ScheduleOne, Cache.PlanReuse, AdmitAndReuse, Views;
      ghost var sw := Sweep(View(), budget, initial, chosen);
      AdmitAllRound(sw);
      stop, s, remaining, protected, selected := false, Done, budget, initial, chosen;
      var id := waiting[0];
      ViewOf(id);
      if id !in requests || requests[id].state != Waiting {
        waiting := waiting[1..];
        return;
      }
      var plan := cache.PlanReuse(requests[id].promptTokenIds);
      ScheduleOneKeeps(sw.st, id, plan, budget);
      var scheduled := ScheduleOne(id, plan, budget);
      if scheduled.Err? {
        stop, s := true, if scheduled.error.InsufficientBlocks? then Done else Failure(scheduled.error);
        return;
      }
      if scheduled.value.None? {
        stop := true;
        return;
      }
      var item := scheduled.value.value;
      AdmittedIs(sw, View(), id, item, if plan.Some? then plan.value.reusedLen else 0);
      s := Admit(id, if plan.Some? then plan.value.reusedLen else 0);
      if s.Failure? {
        stop := true;
        return;
      }
      remaining := budget - |item.input|;
      protected := initial + {item.id};
      selected := chosen + [item];
    }

    /** The loop over the waiting requests. */
    method AdmitAll(budget: nat, initial: set<RequestId>, chosen: seq<ScheduledRequest>)
      returns (s: Status, remaining: nat, protected: set<RequestId>, selected: seq<ScheduledRequest>)
      requires Valid()
      modifies Repr()
      ensures Valid() && Repr() == old(Repr())
      ensures (Sweep(View(), remaining, protected, selected), s) == Sweep(old(View()), budget, initial, chosen).AdmitAll()
    {
      hide Sweep.AdmitAll;
      remaining, protected, selected := budget, initial, chosen;
      ghost var target := Sweep(View(), remaining, protected, selected).AdmitAll();
      while remaining > 0 && waiting != []
        invariant Valid() && Repr() == old(Repr())
        invariant Sweep(View(), remaining, protected, selected).AdmitAll() == target
        decreases |waiting|
      {
        var stop;
        stop, s, remaining, protected, selected := AdmitHead(remaining, protected, selected);
        if stop {
          return;
        }
      }
      AdmitAllRound(Sweep(View(), remaining, protected, selected));
      s := Done;
    }

    // --------------------------------------------------------------- results

    method CheckResult(plan: BatchPlan, seen: set<RequestId>, item: RequestResult) returns (s: Status)
      ensures s == View().CheckResult(plan, seen, item)
    {
      if item.id in seen {
        return Failure(InvalidExecutionResult(DuplicateResult));
      }
      var found := FindItem(plan.requests, item.id);
      if found.None? {
        return Failure(InvalidExecutionResult(UnknownResult));
      }
      var scheduled := found.value;
      if item.cachedLenDelta != |scheduled.input| {
        return Failure(InvalidExecutionResult(CachedLenDelta));
      }
      if item.id !in requests {
        return Failure(UnknownRequest(item.id));
      }
      var request := requests[item.id];
      if request.state != Running {
        return Failure(InvalidState(item.id, request.state));
      }
      if |request.generatedTokenIds| + |item.generated| > request.maxNewLen {
        return Failure(InvalidExecutionResult(TooManyTokens));
      }
      if |item.generated| > 1 {
        return Failure(InvalidExecutionResult(MoreThanOneToken));
      }
      if scheduled.needSample != scheduled.samplingPlan.Some? {
        return Failure(InvalidExecutionResult(PlanWithoutSample));
      }
      if (item.generated == []) != !scheduled.needSample {
        return Failure(InvalidExecutionResult(TokenPresence));
      }
      if scheduled.samplingPlan.Some? && scheduled.samplingPlan.value.sampleIndex != request.sampleIndex {
        return Failure(InvalidExecutionResult(SampleIndex));
      }
      return Done;
    }

    method Validate(plan: BatchPlan, result: ExecutionResult) returns (s: Status)
      ensures s == View().Validate(plan, result)
    {
      hide State.CheckResult;
      if result.stepId != plan.stepId {
        return Failure(StaleBatch(plan.stepId, result.stepId));
      }
      if |result.results| != |plan.requests| {
        return Failure(InvalidExecutionResult(ResultCount));
      }
      var seen: set<RequestId> := {};
      var items := result.results;
      assert items[0..] == items;
      for i := 0 to |items|
        invariant View().CheckResults(plan, seen, items[i..]) == View().CheckResults(plan, {}, items)
      {
        assert items[i..][0] == items[i] && items[i..][1..] == items[i + 1..];
        s := CheckResult(plan, seen, items[i]);
        if s.Failure? {
          return;
        }
        seen := seen + {items[i].id};
      }
      return Done;
    }

    method SealFilled(id: RequestId, oldCachedLen: nat) returns (s: Status)
      modifies cache, cache.pool
      ensures (View(), s) == old(View()).SealFilled(id, oldCachedLen)
    {
      hide Cache.SealBlocks;
      if id !in requests {
        return Failure(Panicked);
      }
      var request, bl := requests[id], cache.blockLen;
      var context := request.promptTokenIds + request.generatedTokenIds;
      var sealedLen, sealEnd := oldCachedLen / bl * bl, request.cachedLen / bl * bl;
      assert context == View().requests[id].Context();
      if !(0 <= sealedLen <= sealEnd <= |context|) {
        return Failure(Panicked);
      }
      s := SealRange(id, context[sealedLen..sealEnd], sealedLen);
    }

    method SealRange(id: RequestId, tokens: seq<Token>, sealedLen: nat) returns (s: Status)
      modifies cache, cache.pool
      ensures var (c, r) := old(View()).cache.SealBlocks(id, tokens, sealedLen);
              View() == old(View()).(cache := c) && s == if r.Err? then Failure(r.error) else Done
    {
      hide Cache.SealBlocks;
      label before:
      var r := cache.SealBlocks(id, tokens, sealedLen);
      forall x | x in requests ensures unchanged@before(requests[x]) {}
      assert Views() == old(Views());
      s := if r.Err? then Failure(r.error) else Done;
    }

    method Retire(id: RequestId, scope: RollbackScope) returns (s: Status)
      requires Valid()
      modifies this, cache, cache.pool, scope
      ensures Valid() && Repr() == old(Repr())
      ensures (View(), scope.actions, s) == old(View()).Retire(id, old(scope.actions))
    {
      hide Cache.Release;
      var index := IndexOf(running, id);
      if index.Some? {
        scope.Defer(InsertRunning(index.value, id));
        running := RemoveAt(running, index.value);
      }
      s := ReleaseCache(id);
    }

    method AdvanceRequest(id: RequestId, result: AdvanceResult) returns (s: Status)
      requires Valid() && id in requests
      modifies requests[id]
      ensures var (r, s1) := old(View()).requests[id].Advance(result);
              s == s1 && View() == old(View()).(requests := old(View()).requests[id := r])
    {
      hide Req.Advance;
      s := requests[id].Advance(result);
      OneChanged(id);
    }

    /** The rest of a committing round, once the request has advanced. */
    method Settle(id: RequestId, oldCachedLen: nat, snap: bool, scope: RollbackScope) returns (s: Status)
      requires Valid() && id in requests
      modifies this, cache, cache.pool, scope
      ensures Valid() && Repr() == old(Repr())
      ensures (View(), scope.actions, s) == Settled(old(View()), id, oldCachedLen, snap, old(scope.actions))
    {
      hide State.SealFilled, State.Retire;
      if snap {
        scope.Defer(RestoreCache(cache.View()));
      }
      s := SealFilled(id, oldCachedLen);
      if s.Failure? {
        return;
      }
      if requests[id].state.IsTerminal() {
        s := Retire(id, scope);
      }
    }

    method CompletionOf(item: RequestResult) returns (reason: Option<CompletionReason>)
      requires item.id in requests
      ensures item.id in View().requests && reason == View().Reason(item)
    {
      var request := requests[item.id];
      reason :=
        if item.isEos then Some(Eos)
        else if |request.generatedTokenIds| + |item.generated| == request.maxNewLen then Some(Length)
        else None;
    }

    /** The undo of `advance` is registered before `advance` runs. */
    method CommitAdvance(item: RequestResult, reason: Option<CompletionReason>, scope: RollbackScope) returns (s: Status)
      requires Valid() && item.id in requests
      modifies requests[item.id], scope
      ensures item.id in old(View()).requests
      ensures var r := old(View()).requests[item.id];
              var (r1, s1) := r.Advance(AdvanceResult(item.generated, item.cachedLenDelta, reason));
              && s == s1 && View() == old(View()).(requests := old(View()).requests[item.id := r1])
              && scope.actions == old(scope.actions) +
                   [UndoAdvance(item.id, |item.generated|, r.sampleIndex, r.cachedLen, r.state, r.completion)]
    {
      hide Req.Advance;
      var request := requests[item.id];
      scope.Defer(UndoAdvance(item.id, |item.generated|, request.sampleIndex, request.cachedLen,
                              request.state, request.completionReason));
      s := AdvanceRequest(item.id, AdvanceResult(item.generated, item.cachedLenDelta, reason));
    }

    /** One round of the committing loop. */
    method CommitOne(item: RequestResult, scope: RollbackScope, taken: bool)
      returns (snapshotted: bool, s: Status)
      requires Valid()
      modifies Repr(), scope
      ensures Valid() && Repr() == old(Repr())
      ensures (View(), scope.actions, snapshotted, s) == old(View()).CommitOne(item, old(scope.actions), taken)
    {
      hide State.CommitOne, Settled, Req.Advance, Views, State.Reason;
      ghost var st0 := View();
      CommitOneIs(st0, item, scope.actions, taken);
      ViewOf(item.id);
      if item.id !in requests {
        return taken, Failure(Panicked);
      }
      var reason := CompletionOf(item);
      var oldCachedLen, bl := requests[item.id].cachedLen, cache.blockLen;
      s := CommitAdvance(item, reason, scope);
      if s.Failure? {
        return taken, s;
      }
      var snap := ((oldCachedLen + item.cachedLenDelta) / bl > oldCachedLen / bl || reason.Some?) && !taken;
      snapshotted := taken || snap;
      s := Settle(item.id, oldCachedLen, snap, scope);
    }

    /** The committing loop of `apply_result`. */
    method Commit(items: seq<RequestResult>, scope: RollbackScope) returns (s: Status)
      requires Valid()
      modifies Repr(), scope
      ensures Valid() && Repr() == old(Repr())
      ensures (View(), scope.actions, s) == old(View()).Commit(items, old(scope.actions), false)
    {
      hide State.CommitOne, Views;
      var snapshotted := false;
      ghost var target := View().Commit(items, scope.actions, false);
      assert items[0..] == items;
      for i := 0 to |items|
        invariant Valid() && Repr() == old(Repr())
        invariant View().Commit(items[i..], scope.actions, snapshotted) == target
      {
        assert items[i..][0] == items[i] && items[i..][1..] == items[i + 1..];
        snapshotted, s := CommitOne(items[i], scope, snapshotted);
        if s.Failure? {
          return;
        }
      }
      return Done;
    }

    /** Run one undo action. */
    method Undo(u: Undo)
      requires Valid()
      modifies Repr()
      ensures Valid() && fresh(Repr() - old(Repr()))
      ensures View() == old(View()).Undone(u)
    {
      hide Req.RollbackAdvance, Req.RollbackFail;
      match u
      case UndoAdvance(id, extra, sampleIndex, cachedLen, state, reason) =>
        if id in requests {
          requests[id].RollbackAdvance(extra, sampleIndex, cachedLen, state, reason);
          OneChanged(id);
        }
      case UndoFail(id) =>
        if id in requests {
          requests[id].RollbackFail();
          OneChanged(id);
        }
      case RestoreCache(snapshot) =>
        Restore(snapshot);
      case InsertRunning(index, id) =>
        running := InsertAt(running, index, id);
    }

    method Restore(snapshot: Cache)
      requires Valid()
      modifies this
      ensures Valid() && fresh(Repr() - old(Repr()))
      ensures View() == old(View()).(cache := snapshot)
    {
      label before:
      cache := new KvCacheManager.Of(snapshot);
      forall x | x in requests ensures unchanged@before(requests[x]) {}
      assert Views() == old(Views());
    }

    /** Drain the undo stack, last in first out. */
    method Unwind(scope: RollbackScope)
      requires Valid()
      modifies Repr(), scope
      ensures Valid() && fresh(Repr() - old(Repr()))
      ensures View() == old(View()).Unwind(old(scope.actions))
    {
      hide State.Undone, Views;
      ghost var target := View().Unwind(scope.actions);
      while scope.actions != []
        invariant Valid() && fresh(Repr() - old(Repr()))
        invariant View().Unwind(scope.actions) == target
        decreases |scope.actions|
      {
        var last := scope.actions[|scope.actions| - 1];
        scope.actions := scope.actions[..|scope.actions| - 1];
        Undo(last);
      }
    }

    method ApplyResult(result: ExecutionResult) returns (s: Status)
      requires Valid()
      modifies Repr()
      ensures Valid() && fresh(Repr() - old(Repr()))
      ensures (View(), s) == old(View()).ApplyResult(result)
    {
      hide State.Commit, State.Unwind, State.Validate, Views;
      if outstanding.None? {
        return Failure(NoOutstandingBatch);
      }
      var plan := outstanding.value;
      ValidateIgnoresOutstanding(View(), plan, result);
      outstanding := None;
      s := Validate(plan, result);
      if s.Failure? {
        outstanding := Some(plan);
        return;
      }
      s := Transact(result.results);
      if s.Failure? && s.error != Panicked {
        outstanding := Some(plan);
      }
    }

    /** Commit within a rollback scope: on an error that is not a panic, run the undo stack. */
    method Transact(items: seq<RequestResult>) returns (s: Status)
      requires Valid()
      modifies Repr()
      ensures Valid() && fresh(Repr() - old(Repr()))
      ensures var (st, log, s1) := old(View()).Commit(items, [], false);
              s == s1 && View() == if s1.Failure? && s1.error != Panicked then st.Unwind(log) else st
    {
      hide State.Commit, State.Unwind, Views;
      var scope := new RollbackScope();
      s := Commit(items, scope);
      if s.Failure? && s.error != Panicked {
        Unwind(scope);
      }
    }

    method FailOne(item: ScheduledRequest, message: string, scope: RollbackScope) returns (s: Status)
      requires Valid()
      modifies Repr(), scope
      ensures Valid() && Repr() == old(Repr())
      ensures (View(), scope.actions, s) == old(View()).FailOne(item, message, old(scope.actions))
    {
      hide Req.Fail, State.Retire, Views;
      ViewOf(item.id);
      if item.id !in requests {
        return Failure(UnknownRequest(item.id));
      }
      scope.Defer(UndoFail(item.id));
      s := requests[item.id].Fail(message);
      OneChanged(item.id);
      if s.Failure? {
        return;
      }
      s := Retire(item.id, scope);
    }

    method FailAll(items: seq<ScheduledRequest>, message: string, scope: RollbackScope) returns (s: Status)
      requires Valid()
      modifies Repr(), scope
      ensures Valid() && Repr() == old(Repr())
      ensures (View(), scope.actions, s) == old(View()).FailAll(items, message, old(scope.actions))
    {
      hide State.FailOne, Views;
      ghost var target := View().FailAll(items, message, scope.actions);
      assert items[0..] == items;
      for i := 0 to |items|
        invariant Valid() && Repr() == old(Repr())
        invariant View().FailAll(items[i..], message, scope.actions) == target
      {
        assert items[i..][0] == items[i] && items[i..][1..] == items[i + 1..];
        s := FailOne(items[i], message, scope);
        if s.Failure? {
          return;
        }
      }
      return Done;
    }

    method FailBatch(batch: BatchPlan, message: string) returns (s: Status)
      requires Valid()
      modifies Repr()
      ensures Valid() && fresh(Repr() - old(Repr()))
      ensures (View(), s) == old(View()).FailBatch(batch, message)
    {
      hide State.FailAll, State.Unwind, Views;
      if outstanding.None? {
        return Failure(NoOutstandingBatch);
      }
      var plan := outstanding.value;
      if plan != batch {
        return Failure(StaleBatch(plan.stepId, batch.stepId));
      }
      outstanding := None;
      var scope := new RollbackScope();
      scope.Defer(RestoreCache(cache.View()));
      assert scope.actions == [RestoreCache(View().cache)];
      s := FailAll(plan.requests, message, scope);
      if s.Failure? && s.error != Panicked {
        Unwind(scope);
      }
    }
  }
}
