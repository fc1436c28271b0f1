/** What the scheduler does (crates/einf-control/src/scheduler.rs), as functions of its state.

    Every operation returns the state it leaves, also when it fails: an error in the middle
    leaves behind what was done before it, as `?` does. */
module Schedules {
  import opened Base
  import opened KvCaches
  import opened Requests
  import opened Policies

  datatype Config = Config(maxBatchLen: Positive, maxPrefillChunkLen: Positive)

  datatype SamplingPlan = SamplingPlan(params: SamplingParams, sampleIndex: nat)

  datatype ScheduledRequest = ScheduledRequest(
    id: RequestId, input: seq<Token>, workType: WorkType, start: nat,
    blockTable: seq<BlockId>, needSample: bool, samplingPlan: Option<SamplingPlan>)

  datatype BatchPlan = BatchPlan(stepId: nat, requests: seq<ScheduledRequest>)

  datatype RequestResult = RequestResult(
    id: RequestId, generated: seq<Token>, cachedLenDelta: nat, isEos: bool)

  datatype ExecutionResult = ExecutionResult(stepId: nat, results: seq<RequestResult>)

  /** The undo actions that a transaction registers. */
  datatype Undo =
    | UndoAdvance(id: RequestId, extra: nat, sampleIndex: nat, cachedLen: nat,
                  state: RequestState, reason: Option<CompletionReason>)
    | UndoFail(failed: RequestId)
    | RestoreCache(snapshot: Cache)
    | InsertRunning(index: nat, removed: RequestId)

  function WorkTypeOf(r: Req): WorkType { if r.WorkIsDecode() then Decode else Prefill }

  /** What one request would compute in this batch. */
  datatype Chunk = Chunk(start: nat, workType: WorkType, pending: nat, len: nat)

  function ChunkOf(config: Config, r: Req, plan: Option<ReusePlan>, remaining: nat): Chunk {
    var start := if plan.Some? then plan.value.reusedLen else r.cachedLen;
    var workType := if plan.Some? then Prefill else WorkTypeOf(r);
    var pending := if workType == Prefill then Max(0, |r.Context()| - start) else 1;
    var len := if workType == Prefill
               then Min(Min(config.maxPrefillChunkLen, pending), remaining) else Min(1, remaining);
    Chunk(start, workType, pending, len)
  }

  function ScheduledItem(r: Req, id: RequestId, chunk: Chunk, table: seq<BlockId>): ScheduledRequest
    requires chunk.start + chunk.len <= |r.Context()|
  {
    var needSample := chunk.len == chunk.pending;
    ScheduledRequest(
      id, r.Context()[chunk.start..chunk.start + chunk.len], chunk.workType, chunk.start, table, needSample,
      if needSample then Some(SamplingPlan(r.params, r.sampleIndex)) else None)
  }

  /** The first item of a batch for a request. */
  function FindItem(batch: seq<ScheduledRequest>, id: RequestId): Option<ScheduledRequest> {
    if batch == [] then None
    else if batch[0].id == id then Some(batch[0])
    else FindItem(batch[1..], id)
  }

  function IndexOf(s: seq<RequestId>, id: RequestId): Option<nat> {
    if s == [] then None
    else if s[0] == id then Some(0)
    else
      var k := IndexOf(s[1..], id);
      if k.Some? then Some(k.value + 1) else None
  }

  datatype State = State(
    config: Config,
    policy: Policy,
    cache: Cache,
    requests: map<RequestId, Req>,
    waiting: seq<RequestId>,
    running: seq<RequestId>,
    nextArrival: nat,
    nextStep: nat,
    outstanding: Option<BatchPlan>)
  {
    // ------------------------------------------------------ submit and cancel

    function Submit(spec: RequestSpec): (State, Status) {
      if spec.requestId in requests then (this, Failure(DuplicateRequest(spec.requestId)))
      else
        var r := Create(spec, nextArrival);
        if r.Err? then (this, Failure(r.error))
        else
          (this.(nextArrival := nextArrival + 1,
                 requests := requests[spec.requestId := r.value],
                 waiting := waiting + [spec.requestId]),
           Done)
    }

    predicate BatchContains(id: RequestId) {
      outstanding.Some? && FindItem(outstanding.value.requests, id).Some?
    }

    function ReleaseCache(id: RequestId): (State, Status) {
      var (c, s) := cache.Release(id);
      (this.(cache := c), s)
    }

    function Cancel(id: RequestId): (State, Status) {
      if id !in requests then (this, Failure(UnknownRequest(id)))
      else if BatchContains(id) then (this, Failure(RequestInFlight(id)))
      else
        var (r, s) := requests[id].Cancel();
        var st := this.(requests := requests[id := r]);
        if s.Failure? then (st, s)
        else st.(running := Without(running, id), waiting := Without(waiting, id)).ReleaseCache(id)
    }

    // -------------------------------------------------------------- scheduling

    predicate IsIn(id: RequestId, state: RequestState) {
      id in requests && requests[id].state == state
    }

    function PolicyRequestOf(id: RequestId): PolicyRequest
      requires id in requests
    {
      PolicyRequest(id, requests[id].arrival, requests[id].state, WorkTypeOf(requests[id]))
    }

    function PolicyRequests(ids: seq<RequestId>): seq<PolicyRequest> {
      if ids == [] then []
      else if IsIn(ids[0], Running) then [PolicyRequestOf(ids[0])] + PolicyRequests(ids[1..])
      else PolicyRequests(ids[1..])
    }

    function OrderedRunning(): seq<PolicyRequest> { Sort(policy, PolicyRequests(running)) }

    function VictimId(protected: set<RequestId>): Option<RequestId> {
      LastUnprotected(OrderedRunning(), protected)
    }

    function PreemptId(id: RequestId): (State, Status) {
      if id !in requests then (this, Failure(UnknownRequest(id)))
      else
        var (r, s) := requests[id].Preempt();
        var st := this.(requests := requests[id := r]);
        if s.Failure? then (st, s)
        else st.(running := Without(running, id), waiting := [id] + waiting).ReleaseCache(id)
    }

    function FailId(id: RequestId): (State, Status) {
      if id !in requests then (this, Failure(UnknownRequest(id)))
      else
        var (r, s) := requests[id].Fail(OutOfMemory);
        var st := this.(requests := requests[id := r]);
        if s.Failure? then (st, s)
        else st.(running := Without(running, id)).ReleaseCache(id)
    }

    function ScheduleOne(id: RequestId, plan: Option<ReusePlan>, remaining: nat)
      : (r: (State, Result<Option<ScheduledRequest>>))
      ensures r.1.Ok? && r.1.value.Some? ==> 0 < |r.1.value.value.input| <= remaining
    {
      if id !in requests then (this, Err(UnknownRequest(id)))
      else
        var chunk := ChunkOf(config, requests[id], plan, remaining);
        if chunk.len == 0 then (this, Ok(None))
        else if chunk.start + chunk.len > |requests[id].Context()| then
          (this, Err(InvalidExecutionResult(NoInputToken)))
        else
          var (c, table) := cache.ReserveTo(id, plan, chunk.start + chunk.len);
          (this.(cache := c),
           if table.Err? then Err(table.error)
           else Ok(Some(ScheduledItem(requests[id], id, chunk, table.value))))
    }

    function TrySchedule(id: RequestId, remaining: nat, protected: set<RequestId>)
      : (r: (State, Result<Option<ScheduledRequest>>))
      ensures r.1.Ok? && r.1.value.Some? ==> 0 < |r.1.value.value.input| <= remaining
      decreases |running|
    {
      var (st, r) := ScheduleOne(id, None, remaining);
      if r.Ok? || !r.error.InsufficientBlocks? then (st, r)
      else
        var victim := st.VictimId(protected);
        if victim == None || victim == Some(id) then
          var (st1, s) := st.FailId(id);
          (st1, if s.Failure? then Err(s.error) else Ok(None))
        else
          VictimRuns(st, protected);
          var (st1, s) := st.PreemptId(victim.value);
          if s.Failure? then (st1, Err(s.error)) else
          assert |st1.running| < |running| by { PreemptShrinks(st, victim.value); }
          st1.TrySchedule(id, remaining, protected)
    }

    function Schedule(): (State, Result<Option<BatchPlan>>) {
      if outstanding.Some? then (this, Err(InvalidExecutionResult(BatchOutstanding)))
      else
        var (sw, s) := Sweep(this, config.maxBatchLen, {}, []).RunAll(Ids(OrderedRunning()));
        if s.Failure? then (sw.st, Err(s.error))
        else
          var (sw1, s1) := sw.AdmitAll();
          if s1.Failure? then (sw1.st, Err(s1.error))
          else if sw1.selected == [] then (sw1.st, Ok(None))
          else
            var plan := BatchPlan(sw1.st.nextStep, sw1.selected);
            (sw1.st.(nextStep := sw1.st.nextStep + 1, outstanding := Some(plan)), Ok(Some(plan)))
    }

    // ---------------------------------------------------------------- results

    /** The checks of `apply_result` on one item. */
    function CheckResult(plan: BatchPlan, seen: set<RequestId>, item: RequestResult): Status {
      if item.id in seen then Failure(InvalidExecutionResult(DuplicateResult))
      else
        var found := FindItem(plan.requests, item.id);
        if found.None? then Failure(InvalidExecutionResult(UnknownResult))
        else if item.cachedLenDelta != |found.value.input| then Failure(InvalidExecutionResult(CachedLenDelta))
        else if item.id !in requests then Failure(UnknownRequest(item.id))
        else if requests[item.id].state != Running then Failure(InvalidState(item.id, requests[item.id].state))
        else if |requests[item.id].generated| + |item.generated| > requests[item.id].maxNewLen then
          Failure(InvalidExecutionResult(TooManyTokens))
        else if |item.generated| > 1 then Failure(InvalidExecutionResult(MoreThanOneToken))
        else if found.value.needSample != found.value.samplingPlan.Some? then
          Failure(InvalidExecutionResult(PlanWithoutSample))
        else if (item.generated == []) != !found.value.needSample then
          Failure(InvalidExecutionResult(TokenPresence))
        else if found.value.samplingPlan.Some?
                && found.value.samplingPlan.value.sampleIndex != requests[item.id].sampleIndex then
          Failure(InvalidExecutionResult(SampleIndex))
        else Done
    }

    function CheckResults(plan: BatchPlan, seen: set<RequestId>, items: seq<RequestResult>): Status
      decreases |items|
    {
      if items == [] then Done
      else
        var s := CheckResult(plan, seen, items[0]);
        if s.Failure? then s else CheckResults(plan, seen + {items[0].id}, items[1..])
    }

    function Validate(plan: BatchPlan, result: ExecutionResult): Status {
      if result.stepId != plan.stepId then Failure(StaleBatch(plan.stepId, result.stepId))
      else if |result.results| != |plan.requests| then Failure(InvalidExecutionResult(ResultCount))
      else CheckResults(plan, {}, result.results)
    }

    function Reason(item: RequestResult): Option<CompletionReason>
      requires item.id in requests
    {
      if item.isEos then Some(Eos)
      else if |requests[item.id].generated| + |item.generated| == requests[item.id].maxNewLen then Some(Length)
      else None
    }

    /** `Scheduler::seal_blocks`: seal the blocks filled since `oldCachedLen`. */
    function SealFilled(id: RequestId, oldCachedLen: nat): (State, Status) {
      if id !in requests then (this, Failure(Panicked))
      else
        var bl := cache.blockLen;
        var sealedLen, sealEnd := oldCachedLen / bl * bl, requests[id].cachedLen / bl * bl;
        if !(0 <= sealedLen <= sealEnd <= |requests[id].Context()|) then (this, Failure(Panicked))
        else
          var (c, r) := cache.SealBlocks(id, requests[id].Context()[sealedLen..sealEnd], sealedLen);
          (this.(cache := c), if r.Err? then Failure(r.error) else Done)
    }

    /** A request that completed leaves the running list, recording where it stood. */
    function Retire(id: RequestId, log: seq<Undo>): (State, seq<Undo>, Status) {
      var index := IndexOf(running, id);
      var st := if index.None? then this else this.(running := RemoveAt(running, index.value));
      var log1 := if index.None? then log else log + [InsertRunning(index.value, id)];
      var (st1, s) := st.ReleaseCache(id);
      (st1, log1, s)
    }

    /** One round of the committing loop of `apply_result`. */
    function CommitOne(item: RequestResult, log: seq<Undo>, snapshotted: bool)
      : (State, seq<Undo>, bool, Status)
    {
      if item.id !in requests then (this, log, snapshotted, Failure(Panicked))
      else
        var r := requests[item.id];
        var reason := Reason(item);
        var bl := cache.blockLen;
        var log1 := log + [UndoAdvance(item.id, |item.generated|, r.sampleIndex, r.cachedLen, r.state, r.completion)];
        var (r1, s1) := r.Advance(AdvanceResult(item.generated, item.cachedLenDelta, reason));
        var st1 := this.(requests := requests[item.id := r1]);
        if s1.Failure? then (st1, log1, snapshotted, s1)
        else
          var willSeal := (r.cachedLen + item.cachedLenDelta) / bl > r.cachedLen / bl;
          var snap := (willSeal || reason.Some?) && !snapshotted;
          var log2 := if snap then log1 + [RestoreCache(cache)] else log1;
          var (st2, s2) := st1.SealFilled(item.id, r.cachedLen);
          if s2.Failure? then (st2, log2, snapshotted || snap, s2)
          else if r1.state.IsTerminal() then
            var (st3, log3, s3) := st2.Retire(item.id, log2);
            (st3, log3, snapshotted || snap, s3)
          else (st2, log2, snapshotted || snap, Done)
    }

    function Commit(items: seq<RequestResult>, log: seq<Undo>, snapshotted: bool)
      : (State, seq<Undo>, Status)
      decreases |items|
    {
      if items == [] then (this, log, Done)
      else
        var (st, log1, snap, s) := CommitOne(items[0], log, snapshotted);
        if s.Failure? then (st, log1, s) else st.Commit(items[1..], log1, snap)
    }

    function Undone(u: Undo): State {
      match u
      case UndoAdvance(id, extra, sampleIndex, cachedLen, state, reason) =>
        if id !in requests then this
        else this.(requests := requests[id :=
               requests[id].RollbackAdvance(extra, sampleIndex, cachedLen, state, reason)])
      case UndoFail(id) =>
        if id !in requests then this else this.(requests := requests[id := requests[id].RollbackFail()])
      case RestoreCache(snapshot) => this.(cache := snapshot)
      case InsertRunning(index, id) => this.(running := InsertAt(running, index, id))
    }

    /** Running the undo log last in, first out. */
    function Unwind(log: seq<Undo>): State
      decreases |log|
    {
      if log == [] then this else Undone(log[|log| - 1]).Unwind(log[..|log| - 1])
    }

    function ApplyResult(result: ExecutionResult): (State, Status) {
      if outstanding.None? then (this, Failure(NoOutstandingBatch))
      else
        var plan := outstanding.value;
        var checked := Validate(plan, result);
        if checked.Failure? then (this, checked)
        else
          var (st, log, s) := this.(outstanding := None).Commit(result.results, [], false);
          match s
          case Done => (st, Done)
          case Failure(Panicked) => (st, s)
          case Failure(_) => (st.Unwind(log).(outstanding := Some(plan)), s)
    }

    function FailOne(item: ScheduledRequest, message: string, log: seq<Undo>): (State, seq<Undo>, Status) {
      if item.id !in requests then (this, log, Failure(UnknownRequest(item.id)))
      else
        var log1 := log + [UndoFail(item.id)];
        var (r, s) := requests[item.id].Fail(message);
        var st := this.(requests := requests[item.id := r]);
        if s.Failure? then (st, log1, s) else st.Retire(item.id, log1)
    }

    function FailAll(items: seq<ScheduledRequest>, message: string, log: seq<Undo>): (State, seq<Undo>, Status)
      decreases |items|
    {
      if items == [] then (this, log, Done)
      else
        var (st, log1, s) := FailOne(items[0], message, log);
        if s.Failure? then (st, log1, s) else st.FailAll(items[1..], message, log1)
    }

    /** On an error the undo log is run, but the batch is not made outstanding again. */
    function FailBatch(batch: BatchPlan, message: string): (State, Status) {
      if outstanding.None? then (this, Failure(NoOutstandingBatch))
      else if outstanding.value != batch then (this, Failure(StaleBatch(outstanding.value.stepId, batch.stepId)))
      else
        var (st, log, s) := this.(outstanding := None).FailAll(batch.requests, message, [RestoreCache(cache)]);
        match s
        case Done => (st, Done)
        case Failure(Panicked) => (st, s)
        case Failure(_) => (st.Unwind(log), s)
    }
  }

  const OutOfMemory := "Insufficient memory"

  function Ids(s: seq<PolicyRequest>): seq<RequestId> {
    seq(|s|, i requires 0 <= i < |s| => s[i].id)
  }

  function LastUnprotected(s: seq<PolicyRequest>, protected: set<RequestId>): Option<RequestId> {
    if s == [] then None
    else if s[|s| - 1].id !in protected then Some(s[|s| - 1].id)
    else LastUnprotected(s[..|s| - 1], protected)
  }

  function RemoveAt(s: seq<RequestId>, index: nat): seq<RequestId> {
    if index < |s| then s[..index] + s[index + 1..] else s
  }

  function InsertAt(s: seq<RequestId>, index: nat, id: RequestId): seq<RequestId> {
    if index <= |s| then s[..index] + [id] + s[index..] else s
  }

  lemma {:induction false} LastUnprotectedIn(s: seq<PolicyRequest>, protected: set<RequestId>)
    ensures var v := LastUnprotected(s, protected);
            v.Some? ==> exists x :: x in s && x.id == v.value && v.value !in protected
  {
    if s != [] && s[|s| - 1].id in protected {
      LastUnprotectedIn(s[..|s| - 1], protected);
    }
  }

  lemma {:induction false} InsertElements(p: Policy, x: PolicyRequest, s: seq<PolicyRequest>)
    ensures forall y :: y in Insert(p, x, s) <==> y == x || y in s
  {
    if s != [] && !p.Before(x, s[0]) {
      InsertElements(p, x, s[1..]);
      assert forall y :: y in s <==> y == s[0] || y in s[1..];
    }
  }

  lemma {:induction false} SortElements(p: Policy, s: seq<PolicyRequest>)
    ensures forall y :: y in Sort(p, s) <==> y in s
  {
    if s != [] {
      var front := s[..|s| - 1];
      SortElements(p, front);
      InsertElements(p, s[|s| - 1], Sort(p, front));
      assert forall y :: y in s <==> y == s[|s| - 1] || y in front;
    }
  }

  lemma {:induction false} PolicyRequestsAre(st: State, ids: seq<RequestId>)
    ensures forall y :: y in st.PolicyRequests(ids) <==>
              y.id in ids && st.IsIn(y.id, Running) && y == st.PolicyRequestOf(y.id)
  {
    if ids != [] {
      PolicyRequestsAre(st, ids[1..]);
      assert forall x :: x in ids <==> x == ids[0] || x in ids[1..];
    }
  }

  lemma VictimRuns(st: State, protected: set<RequestId>)
    ensures var v := st.VictimId(protected); v.Some? ==> v.value in st.running
  {
    LastUnprotectedIn(st.OrderedRunning(), protected);
    SortElements(st.policy, st.PolicyRequests(st.running));
    PolicyRequestsAre(st, st.running);
  }

  lemma ScheduleOneKeeps(st: State, id: RequestId, plan: Option<ReusePlan>, remaining: nat)
    ensures var st1 := st.ScheduleOne(id, plan, remaining).0; st1 == st.(cache := st1.cache)
  {
  }

  lemma PreemptShrinks(st: State, id: RequestId)
    requires id in st.running && st.PreemptId(id).1 == Done
    ensures |st.PreemptId(id).0.running| < |st.running|
  {
    WithoutElements(st.running, id);
  }

  /** The progress of one call of `schedule`. */
  datatype Sweep = Sweep(
    st: State, remaining: nat, protected: set<RequestId>, selected: seq<ScheduledRequest>)
  {
    function Select(st1: State, item: ScheduledRequest): Sweep
      requires |item.input| <= remaining
    {
      Sweep(st1, remaining - |item.input|, protected + {item.id}, selected + [item])
    }

    /** The loop over the running requests. */
    function RunAll(ids: seq<RequestId>): (Sweep, Status)
      decreases |ids|
    {
      if ids == [] || remaining == 0 then (this, Done)
      else if !st.IsIn(ids[0], Running) then RunAll(ids[1..])
      else
        var (st1, r) := st.TrySchedule(ids[0], remaining, protected);
        match r
        case Err(e) => (this.(st := st1), Failure(e))
        case Ok(None) => this.(st := st1).RunAll(ids[1..])
        case Ok(Some(item)) => Select(st1, item).RunAll(ids[1..])
    }

    /** Admission of the first waiting request, once its chunk is scheduled. */
    function Admitted(st1: State, id: RequestId, item: ScheduledRequest, reusedLen: nat): (Sweep, Status)
      requires |item.input| <= remaining && id in st1.requests && st1.waiting != []
    {
      var (r1, s1) := st1.requests[id].Admit();
      var st2 := st1.(waiting := st1.waiting[1..], requests := st1.requests[id := r1]);
      if s1.Failure? then (this.(st := st2), s1)
      else
        var (r2, s2) := if reusedLen != 0 then r1.Reuse(reusedLen) else (r1, Done);
        var st3 := st2.(requests := st2.requests[id := r2]);
        if s2.Failure? then (this.(st := st3), s2)
        else (Select(st3.(running := st3.running + [id]), item), Done)
    }

    /** The loop over the waiting requests. */
    function AdmitAll(): (Sweep, Status)
      decreases |st.waiting|
    {
      if remaining == 0 || st.waiting == [] then (this, Done)
      else
        var id := st.waiting[0];
        if !st.IsIn(id, Waiting) then this.(st := st.(waiting := st.waiting[1..])).AdmitAll()
        else
          var plan := st.cache.PlanReuse(st.requests[id].prompt);
          var (st1, r) := st.ScheduleOne(id, plan, remaining);
          match r
          case Err(e) => (this.(st := st1), if e.InsufficientBlocks? then Done else Failure(e))
          case Ok(None) => (this.(st := st1), Done)
          case Ok(Some(item)) =>
            var (sw, s) := Admitted(st1, id, item, if plan.Some? then plan.value.reusedLen else 0);
            if s.Failure? then (sw, s) else sw.AdmitAll()
    }
  }

  /** One round of the admission loop, spelled out. */
  lemma AdmitAllRound(sw: Sweep)
    ensures sw.remaining == 0 || sw.st.waiting == [] ==> sw.AdmitAll() == (sw, Done)
    ensures sw.remaining > 0 && sw.st.waiting != [] && !sw.st.IsIn(sw.st.waiting[0], Waiting) ==>
              sw.AdmitAll() == sw.(st := sw.st.(waiting := sw.st.waiting[1..])).AdmitAll()
    ensures sw.remaining > 0 && sw.st.waiting != [] && sw.st.IsIn(sw.st.waiting[0], Waiting) ==>
              var id := sw.st.waiting[0];
              var plan := sw.st.cache.PlanReuse(sw.st.requests[id].prompt);
              var (st1, r) := sw.st.ScheduleOne(id, plan, sw.remaining);
              match r
              case Err(e) => sw.AdmitAll() == (sw.(st := st1), if e.InsufficientBlocks? then Done else Failure(e))
              case Ok(None) => sw.AdmitAll() == (sw.(st := st1), Done)
              case Ok(Some(item)) =>
                && id in st1.requests && st1.waiting != [] && |item.input| <= sw.remaining
                && var (sw1, s) := sw.Admitted(st1, id, item, if plan.Some? then plan.value.reusedLen else 0);
                   sw.AdmitAll() == if s.Failure? then (sw1, s) else sw1.AdmitAll()
  {
    hide Cache.PlanReuse, Sweep.Admitted;
    if sw.st.waiting != [] && sw.st.IsIn(sw.st.waiting[0], Waiting) {
      var id := sw.st.waiting[0];
      ScheduleOneKeeps(sw.st, id, sw.st.cache.PlanReuse(sw.st.requests[id].prompt), sw.remaining);
    }
  }

  lemma RunAllRound(sw: Sweep, ids: seq<RequestId>)
    ensures ids == [] || sw.remaining == 0 ==> sw.RunAll(ids) == (sw, Done)
    ensures ids != [] && sw.remaining > 0 && !sw.st.IsIn(ids[0], Running) ==> sw.RunAll(ids) == sw.RunAll(ids[1..])
    ensures ids != [] && sw.remaining > 0 && sw.st.IsIn(ids[0], Running) ==>
              var (st1, r) := sw.st.TrySchedule(ids[0], sw.remaining, sw.protected);
              match r
              case Err(e) => sw.RunAll(ids) == (sw.(st := st1), Failure(e))
              case Ok(None) => sw.RunAll(ids) == sw.(st := st1).RunAll(ids[1..])
              case Ok(Some(item)) => |item.input| <= sw.remaining && sw.RunAll(ids) == sw.Select(st1, item).RunAll(ids[1..])
  {
    hide State.TrySchedule;
  }

  /** `admit` and then `reuse` on a request. */
  function AdmitAndReuse(r: Req, reusedLen: nat): (Req, Status) {
    var (r1, s1) := r.Admit();
    if s1.Failure? then (r1, s1) else if reusedLen != 0 then r1.Reuse(reusedLen) else (r1, Done)
  }

  lemma AdmittedIs(sw: Sweep, st1: State, id: RequestId, item: ScheduledRequest, reusedLen: nat)
    requires |item.input| <= sw.remaining && id in st1.requests && st1.waiting != []
    ensures var (r, s) := AdmitAndReuse(st1.requests[id], reusedLen);
            var st2 := st1.(waiting := st1.waiting[1..], requests := st1.requests[id := r]);
            sw.Admitted(st1, id, item, reusedLen) ==
              if s.Failure? then (sw.(st := st2), s)
              else (sw.Select(st2.(running := st1.running + [id]), item), Done)
  {
    hide Req.Admit, Req.Reuse;
    var r1 := st1.requests[id].Admit().0;
    var r := AdmitAndReuse(st1.requests[id], reusedLen).0;
    assert st1.requests[id := r1][id := r] == st1.requests[id := r];
  }
}
