/** Whole runs: the scheduler, the device memory it addresses and an executor, under any
    sequence of calls. */
module Serving {
  import opened Attention
  import opened Base
  import opened BlockPools
  import opened KvCaches
  import opened Requests
  import opened Policies
  import opened Schedules
  import opened SchedulerInvariants
  import opened SchedulerResults
  import opened Transparency
  import opened FirstComeFirstServed

  /** `executed` says that the outstanding batch has been run. */
  datatype System = System(st: State, memory: Memory, executed: bool)

  datatype Event =
    | SubmitRequest(spec: RequestSpec)
    | CancelRequest(id: RequestId)
    | ScheduleBatch
    | Execute
    | Interrupt
    | Apply(result: ExecutionResult)
    | Fail(batch: BatchPlan, message: string)

  function NewScheduler(config: Config, policy: Policy, blocks: nat, blockLen: Positive): State {
    State(config, policy, Cache(blockLen, NewPool(blocks), map[]), map[], [], [], 0, 0, None)
  }

  /** A batch may be run, or interrupted half way with anything in its own slots; a result
      comes from a batch that was run. */
  ghost predicate Next(s: System, e: Event, s1: System) {
    match e
    case SubmitRequest(spec) => s1 == s.(st := s.st.Submit(spec).0)
    case CancelRequest(id) => s1 == s.(st := s.st.Cancel(id).0)
    case ScheduleBatch => s1 == s.(st := s.st.Schedule().0)
    case Execute =>
      && s.st.outstanding.Some?
      && Executed(s.memory, s1.memory, s.st.outstanding.value.requests, s.st.cache.blockLen)
      && s1 == s.(memory := s1.memory, executed := true)
    case Interrupt =>
      && s.st.outstanding.Some?
      && OnlyBatchWritten(s.memory, s1.memory, s.st.outstanding.value.requests, s.st.cache.blockLen)
      && s1 == s.(memory := s1.memory, executed := false)
    case Apply(result) =>
      && s.executed
      && var (st1, status) := s.st.ApplyResult(result);
         s1 == s.(st := st1, executed := status != Done)
    case Fail(batch, message) =>
      var (st1, status) := s.st.FailBatch(batch, message);
      s1 == s.(st := st1, executed := s.executed && status != Done)
  }

  /** `s1` is reached from `s` by `events`. */
  ghost predicate Runs(s: System, events: seq<Event>, s1: System)
    decreases |events|
  {
    if events == [] then s1 == s
    else exists mid :: Next(s, events[0], mid) && Runs(mid, events[1..], s1)
  }

  /** A run with the states it goes through. */
  ghost predicate Trace(states: seq<System>, events: seq<Event>) {
    && |states| == |events| + 1
    && forall k :: 0 <= k < |events| ==> Next(states[k], events[k], states[k + 1])
  }

  /** `s` is reached from a new scheduler, over memory with any contents, by some events. */
  ghost predicate Reachable(s: System) {
    exists config, policy, blocks, blockLen: Positive, memory, events ::
      Runs(System(NewScheduler(config, policy, blocks, blockLen), memory, false), events, s)
  }

  function Ran(s: System): seq<ScheduledRequest> {
    if s.executed && s.st.outstanding.Some? then s.st.outstanding.value.requests else []
  }

  ghost predicate SystemOk(s: System) {
    && Consistent(s.st)
    && (s.executed ==> s.st.outstanding.Some?)
    && KvOk(s.st, s.memory, Ran(s))
  }

  lemma NewSchedulerOk(config: Config, policy: Policy, blocks: nat, blockLen: Positive, m: Memory)
    ensures var st := NewScheduler(config, policy, blocks, blockLen); Consistent(st) && KvOk(st, m, [])
  {
    var st := NewScheduler(config, policy, blocks, blockLen);
    NewCacheInv(blocks, blockLen);
    assert OwnedOf(st) == map[];
  }

  lemma NextApply(s: System, result: ExecutionResult, s1: System)
    requires SystemOk(s) && Next(s, Apply(result), s1)
    ensures SystemOk(s1)
  {
    hide Consistent, KvOk, AnswersAll, Advanced, CommitFrame, State.ApplyResult;
    ApplyResultOk(s.st, result);
    ApplyKv(s.st, s.memory, result);
  }

  lemma NextFail(s: System, batch: BatchPlan, message: string, s1: System)
    requires SystemOk(s) && Next(s, Fail(batch, message), s1)
    ensures SystemOk(s1)
  {
    hide Consistent, KvOk, CommitFrame, State.FailBatch;
    FailBatchOk(s.st, batch, message);
    if s.st.outstanding == Some(batch) {
      ForgetRan(s);
      FailBatchKv(s.st, s.memory, batch, message);
    }
  }

  /** What holds with tokens in flight holds without them. */
  lemma ForgetRan(s: System)
    requires SystemOk(s)
    ensures KvOk(s.st, s.memory, [])
  {
    RunningKnown(s.st);
    FewerTablesKv(s.st, s.st, s.memory, Ran(s), []);
  }

  lemma NextRun(s: System, e: Event, s1: System)
    requires SystemOk(s) && Next(s, e, s1) && (e.Execute? || e.Interrupt?)
    ensures SystemOk(s1)
  {
    hide Inv, KvOk, Executed, OnlyBatchWritten;
    ForgetRan(s);
    var batch := s.st.outstanding.value.requests;
    if e.Execute? {
      ExecuteKv(s.st, s.memory, s1.memory, batch);
    } else {
      ScribbleKv(s.st, s.memory, s1.memory, batch);
    }
  }

  lemma NextSchedule(s: System, s1: System)
    requires SystemOk(s) && Next(s, ScheduleBatch, s1)
    ensures SystemOk(s1)
  {
    hide Consistent, KvOk, Sweep.RunAll, Sweep.AdmitAll;
    if s.st.outstanding.None? {
      hide State.Schedule;
      ScheduleOk(s.st);
      ScheduleKv(s.st, s.memory);
    }
  }

  lemma NextOther(s: System, e: Event, s1: System)
    requires SystemOk(s) && Next(s, e, s1) && (e.SubmitRequest? || e.CancelRequest?)
    ensures SystemOk(s1)
  {
    hide Consistent, KvOk, State.Submit, State.Cancel, Stopped;
    match e {
      case SubmitRequest(spec) =>
        SubmitOk(s.st, spec);
        SubmitKv(s.st, s.memory, spec, Ran(s));
      case CancelRequest(id) =>
        CancelOk(s.st, id);
        CancelKv(s.st, s.memory, id, Ran(s));
    }
  }

  /** Every call, in any order, keeps scheduler and memory in step. */
  lemma NextOk(s: System, e: Event, s1: System)
    requires SystemOk(s) && Next(s, e, s1)
    ensures SystemOk(s1)
  {
    hide SystemOk, Next;
    match e {
      case SubmitRequest(_) => NextOther(s, e, s1);
      case CancelRequest(_) => NextOther(s, e, s1);
      case ScheduleBatch => NextSchedule(s, s1);
      case Execute => NextRun(s, e, s1);
      case Interrupt => NextRun(s, e, s1);
      case Apply(result) => NextApply(s, result, s1);
      case Fail(batch, message) => NextFail(s, batch, message, s1);
    }
  }

  lemma {:induction false} RunsOk(s: System, events: seq<Event>, s1: System)
    requires SystemOk(s) && Runs(s, events, s1)
    ensures SystemOk(s1)
    decreases |events|
  {
    hide SystemOk, Next;
    if events != [] {
      var mid :| Next(s, events[0], mid) && Runs(mid, events[1..], s1);
      NextOk(s, events[0], mid);
      RunsOk(mid, events[1..], s1);
    }
  }

  lemma {:induction false} TraceOk(states: seq<System>, events: seq<Event>, n: nat)
    requires Trace(states, events) && n <= |events| && SystemOk(states[0])
    ensures SystemOk(states[n])
  {
    hide SystemOk, Next;
    if n > 0 {
      TraceOk(states, events, n - 1);
      NextOk(states[n - 1], events[n - 1], states[n]);
    }
  }

  lemma NewSystemOk(config: Config, policy: Policy, blocks: nat, blockLen: Positive, memory: Memory)
    ensures SystemOk(System(NewScheduler(config, policy, blocks, blockLen), memory, false))
  {
    NewSchedulerOk(config, policy, blocks, blockLen, memory);
  }

  /** The scheduler's invariant holds, and memory agrees with it, after every run. */
  lemma ReachableOk(s: System)
    requires Reachable(s)
    ensures SystemOk(s)
  {
    hide SystemOk, Runs;
    var config, policy, blocks, blockLen: Positive, memory, events :|
      Runs(System(NewScheduler(config, policy, blocks, blockLen), memory, false), events, s);
    NewSystemOk(config, policy, blocks, blockLen, memory);
    RunsOk(System(NewScheduler(config, policy, blocks, blockLen), memory, false), events, s);
  }

  /** Prefix-cache transparency.  In every reachable state, each cached position of a running
      request has a slot, and the slot holds what a forward pass over the request's own
      context alone would have left there. */
  lemma CacheIsTransparent(s: System, id: RequestId, p: nat)
    requires Reachable(s) && id in s.st.running
    ensures id in s.st.requests && id in s.st.cache.tables
    ensures var r, table, bl := s.st.requests[id], s.st.cache.tables[id], s.st.cache.blockLen;
            && r.cachedLen < |r.Context()|
            && (p < r.cachedLen ==>
                  p / bl < |table| && s.memory(SlotOf(table, p, bl)) == Ideal(r.Context(), p))
  {
    hide Ideal, SlotOf, Inv, InFlight;
    ReachableOk(s);
    var batch := if s.st.outstanding.Some? then s.st.outstanding.value.requests else [];
    PositionsHaveSlots(s.st, batch, id, p);
    InvRunning(s.st, batch, id);
    var r, table, bl := s.st.requests[id], s.st.cache.tables[id], s.st.cache.blockLen;
    assert Holds(s.memory, table, r.Context(), r.cachedLen + InFlight(Ran(s), id), bl);
  }

  lemma InvRunning(st: State, batch: seq<ScheduledRequest>, id: RequestId)
    requires Inv(st, batch) && id in st.running
    ensures st.IsIn(id, Running) && st.requests[id].cachedLen < |st.requests[id].Context()|
  {
    hide CacheInv, BatchOk, LengthsOk, ReqOk;
    ListsMember(st, id);
    RunningWithin(st, id);
  }

  lemma ItemRuns(st: State, batch: seq<ScheduledRequest>, i: nat)
    requires Inv(st, batch) && i < |batch|
    ensures batch[i].id in st.running
  {
    hide CacheInv, LengthsOk;
    assert ItemOk(st, batch[i]);
  }

  /** An item's cells hold what its request alone would have computed, up to its last token. */
  ghost predicate AttendsOwn(s: System, it: ScheduledRequest) {
    && it.id in s.st.requests
    && var ctx, n := s.st.requests[it.id].Context(), it.start + |it.input|;
       n <= |ctx| && ReadUpTo(s.memory, it.blockTable, n, s.st.cache.blockLen) == IdealUpTo(ctx, n)
  }

  /** The slots of an executed item hold its request's own context. */
  lemma ItemHolds(s: System, i: nat)
    requires SystemOk(s) && s.executed && i < |Ran(s)|
    ensures var it := Ran(s)[i];
            && it.id in s.st.requests
            && Holds(s.memory, it.blockTable, s.st.requests[it.id].Context(), it.start + |it.input|, s.st.cache.blockLen)
  {
    hide Inv, InFlight, ItemOk, SlotOf, Ideal;
    var it := Ran(s)[i];
    BatchStarts(s.st, Ran(s), i);
    ItemFacts(s.st, it);
    ItemRuns(s.st, Ran(s), i);
    PositionsHaveSlots(s.st, Ran(s), it.id, 0);
  }

  /** What the last token of an executed item attends to, itself included, is what it would
      attend to had its request been served alone. */
  lemma AttendsToOwnContext(s: System, i: nat)
    requires Reachable(s) && s.executed && i < |Ran(s)|
    ensures AttendsOwn(s, Ran(s)[i])
  {
    hide Inv, InFlight, ItemOk, SlotOf, Ideal, SystemOk, Reachable;
    ReachableOk(s);
    ItemHolds(s, i);
    var it := Ran(s)[i];
    ReadHeld(s.memory, it.blockTable, s.st.requests[it.id].Context(), it.start + |it.input|, s.st.cache.blockLen);
  }

  /** So two servers, whatever else they served and however they are configured, compute the
      same from the same tokens. */
  lemma ServersAgree(s: System, i: nat, s1: System, i1: nat)
    requires Reachable(s) && s.executed && i < |Ran(s)|
    requires Reachable(s1) && s1.executed && i1 < |Ran(s1)|
    requires Ran(s)[i].start + |Ran(s)[i].input| == Ran(s1)[i1].start + |Ran(s1)[i1].input|
    ensures var it, it1 := Ran(s)[i], Ran(s1)[i1];
            var n := it.start + |it.input|;
            && it.id in s.st.requests && it1.id in s1.st.requests
            && n <= |s.st.requests[it.id].Context()| && n <= |s1.st.requests[it1.id].Context()|
            && (s.st.requests[it.id].Context()[..n] == s1.st.requests[it1.id].Context()[..n] ==>
                  ReadUpTo(s.memory, it.blockTable, n, s.st.cache.blockLen)
                    == ReadUpTo(s1.memory, it1.blockTable, n, s1.st.cache.blockLen))
  {
    hide Reachable, Ideal, ReadUpTo, IdealUpTo;
    AttendsToOwnContext(s, i);
    AttendsToOwnContext(s1, i1);
    var it, it1 := Ran(s)[i], Ran(s1)[i1];
    var n := it.start + |it.input|;
    if s.st.requests[it.id].Context()[..n] == s1.st.requests[it1.id].Context()[..n] {
      IdealOfPrefix(s.st.requests[it.id].Context(), s1.st.requests[it1.id].Context(), n, n);
    }
  }

  /** Under Fcfs every call keeps the arrival order. */
  lemma NextFifo(s: System, e: Event, s1: System)
    requires SystemOk(s) && Next(s, e, s1) && Fifo(s.st)
    ensures Fifo(s1.st)
  {
    hide Fifo, Inv, KvOk, Executed, OnlyBatchWritten, State.Submit, State.Cancel, State.ApplyResult, State.FailBatch;
    match e {
      case SubmitRequest(spec) => SubmitFifo(s.st, spec);
      case CancelRequest(id) => CancelFifo(s.st, id);
      case ScheduleBatch => if s.st.outstanding == None { ScheduleFifo(s.st); }
      case Apply(result) => ApplyFifo(s.st, result);
      case Fail(batch, message) => FailBatchFifo(s.st, batch, message);
      case _ =>
    }
  }

  lemma {:induction false} RunsFifo(s: System, events: seq<Event>, s1: System)
    requires SystemOk(s) && Fifo(s.st) && Runs(s, events, s1)
    ensures Fifo(s1.st)
    decreases |events|
  {
    hide SystemOk, Next, Fifo;
    if events != [] {
      var mid :| Next(s, events[0], mid) && Runs(mid, events[1..], s1);
      NextOk(s, events[0], mid);
      NextFifo(s, events[0], mid);
      RunsFifo(mid, events[1..], s1);
    }
  }

  lemma NewIsFifo(config: Config, blocks: nat, blockLen: Positive)
    ensures Fifo(NewScheduler(config, Fcfs, blocks, blockLen))
  {
  }

  /** In every state that a first-come-first-served scheduler reaches, the waiting list is in
      arrival order and everyone running arrived before everyone waiting. */
  lemma ArrivalOrder(config: Config, blocks: nat, blockLen: Positive, memory: Memory, events: seq<Event>, s: System)
    requires Runs(System(NewScheduler(config, Fcfs, blocks, blockLen), memory, false), events, s)
    ensures Ascending(s.st, s.st.waiting)
    ensures forall a, b :: a in s.st.running && b in s.st.waiting ==>
              a in s.st.requests && b in s.st.requests && s.st.requests[a].arrival < s.st.requests[b].arrival
  {
    hide Runs, SystemOk;
    NewSystemOk(config, Fcfs, blocks, blockLen, memory);
    NewIsFifo(config, blocks, blockLen);
    RunsFifo(System(NewScheduler(config, Fcfs, blocks, blockLen), memory, false), events, s);
    QueueOrder(s.st);
  }

  lemma QueueOrder(st: State)
    requires Fifo(st)
    ensures Ascending(st, st.waiting)
    ensures forall a, b :: a in st.running && b in st.waiting ==>
              a in st.requests && b in st.requests && st.requests[a].arrival < st.requests[b].arrival
  {
    var q, n := Queue(st), |st.running|;
    assert forall i :: 0 <= i < |st.waiting| ==> q[n + i] == st.waiting[i];
    assert forall i :: 0 <= i < n ==> q[i] == st.running[i];
    forall a, b | a in st.running && b in st.waiting
      ensures a in st.requests && b in st.requests && st.requests[a].arrival < st.requests[b].arrival
    {
      var i :| 0 <= i < n && st.running[i] == a;
      var j :| 0 <= j < |st.waiting| && st.waiting[j] == b;
      assert q[i] == a && q[n + j] == b;
    }
  }
}
