/** First come, first served: the order that the queues keep; and, under either policy, for whom
    running requests are preempted. */
module FirstComeFirstServed {
  import opened Base
  import opened KvCaches
  import opened Requests
  import opened Policies
  import opened Schedules
  import opened SchedulerInvariants
  import opened SchedulerResults

  /** The ids arrived in this order. */
  ghost predicate Ascending(st: State, q: seq<RequestId>) {
    && (forall i :: 0 <= i < |q| ==> q[i] in st.requests)
    && (forall i, j :: 0 <= i < j < |q| ==> st.requests[q[i]].arrival < st.requests[q[j]].arrival)
  }

  function Queue(st: State): seq<RequestId> { st.running + st.waiting }

  /** Everyone running arrived before everyone waiting, and both lists are in arrival order. */
  ghost predicate Fifo(st: State) { st.policy == Fcfs && Ascending(st, Queue(st)) }

  ghost predicate SameArrivals(st: State, st1: State) {
    forall x :: x in st.requests ==> x in st1.requests && st1.requests[x].arrival == st.requests[x].arrival
  }

  lemma AscendingFrame(st: State, st1: State, q: seq<RequestId>)
    requires Ascending(st, q) && SameArrivals(st, st1)
    ensures Ascending(st1, q)
  {
  }

  lemma {:induction false} AscendingWithout(st: State, q: seq<RequestId>, x: RequestId)
    requires Ascending(st, q)
    ensures Ascending(st, Without(q, x))
  {
    if q != [] {
      AscendingWithout(st, q[1..], x);
      var w := Without(q[1..], x);
      if q[0] != x {
        forall j | 0 <= j < |w| ensures w[j] in st.requests && st.requests[q[0]].arrival < st.requests[w[j]].arrival {
          assert w[j] in w;
          TailLater(st, q, x, w[j]);
        }
      }
    }
  }

  lemma TailLater(st: State, q: seq<RequestId>, x: RequestId, y: RequestId)
    requires Ascending(st, q) && q != [] && y in Without(q[1..], x)
    ensures y in st.requests && st.requests[q[0]].arrival < st.requests[y].arrival
  {
    WithoutElements(q[1..], x);
    var k :| 0 <= k < |q[1..]| && q[1..][k] == y;
    assert q[k + 1] == y;
  }

  lemma FifoWithout(st: State, st1: State, x: RequestId)
    requires Fifo(st) && SameArrivals(st, st1) && st1.policy == st.policy
    requires st1.running == Without(st.running, x)
    requires st1.waiting == Without(st.waiting, x)
    ensures Fifo(st1)
  {
    WithoutConcat(st.running, st.waiting, x);
    AscendingWithout(st, Queue(st), x);
    AscendingFrame(st, st1, Queue(st1));
  }

  lemma FifoDropRunning(st: State, st1: State, x: RequestId)
    requires Fifo(st) && ListsOk(st) && SameArrivals(st, st1) && st1.policy == st.policy && x in st.running
    requires st1.running == Without(st.running, x) && st1.waiting == st.waiting
    ensures Fifo(st1)
  {
    NotWaiting(st, x);
    FifoWithout(st, st1, x);
  }

  // ------------------------------------------------------------ submit, cancel

  lemma SubmitFifo(st: State, spec: RequestSpec)
    requires Consistent(st) && Fifo(st)
    ensures Fifo(st.Submit(spec).0)
  {
    hide State.Submit, Inv;
    SubmitOk(st, spec);
    var (st1, s) := st.Submit(spec);
    if s == Done {
      SubmitPolicy(st, spec);
      QueuedLast(st, st1, spec.requestId);
    }
  }

  lemma SubmitPolicy(st: State, spec: RequestSpec)
    requires Consistent(st)
    ensures st.Submit(spec).0.policy == st.policy
    ensures forall x :: x in st.requests ==> st.requests[x].arrival < st.nextArrival
  {
    hide CacheOk, BatchOk, LengthsOk;
  }

  lemma QueuedLast(st: State, st1: State, id: RequestId)
    requires Fifo(st) && st1.policy == st.policy
    requires forall x :: x in st.requests ==> x in st1.requests && st1.requests[x] == st.requests[x]
    requires id in st1.requests && forall x :: x in st.requests ==> st.requests[x].arrival < st1.requests[id].arrival
    requires st1.running == st.running && st1.waiting == st.waiting + [id]
    ensures Fifo(st1)
  {
    var q, q1 := Queue(st), Queue(st1);
    assert q1 == q + [id];
    forall i, j | 0 <= i < j < |q1| ensures st1.requests[q1[i]].arrival < st1.requests[q1[j]].arrival {
      assert q1[i] == q[i];
    }
  }

  lemma CancelFifo(st: State, id: RequestId)
    requires Consistent(st) && Fifo(st)
    ensures Fifo(st.Cancel(id).0)
  {
    hide State.Cancel, Inv, Cache.Release;
    CancelOk(st, id);
    var (st1, s) := st.Cancel(id);
    if s == Done { FifoWithout(st, st1, id); }
  }

  // ------------------------------------------------------------------ schedule

  lemma PrecedesIsEarlier(st: State, a: RequestId, b: RequestId)
    requires st.policy == Fcfs && Precedes(st, a, b) && ArrivalsOk(st)
    ensures a in st.requests && b in st.requests && st.requests[a].arrival < st.requests[b].arrival
  {
    PrecedesIrreflexive(st, a);
  }

  /** Under Fcfs the victim is the last of the running list, so preempting it leaves the order
      of the two lists together as it was. */
  lemma VictimIsLast(st0: State, st: State, batch: seq<ScheduledRequest>, v: RequestId)
    requires SweepInv(st0, st, batch) && Fifo(st) && st0.policy == Fcfs && ArrivalsOk(st0)
    requires v in st.running && v !in BatchIds(batch)
    requires forall u :: u in st.running && u !in BatchIds(batch) && u != v ==> Precedes(st, u, v)
    ensures st.running[|st.running| - 1] == v
    ensures Without(st.running, v) == st.running[..|st.running| - 1]
  {
    hide Inv, SweepFrame, Precedes, PreemptedLater;
    var n := |st.running| - 1;
    var last := st.running[n];
    assert last in st.running;
    InvLists(st, batch);
    SweptArrivals(st0, st);
    if last != v {
      var k :| 0 <= k < n && st.running[k] == v;
      assert Queue(st)[k] == v && Queue(st)[n] == last;
      if last in BatchIds(batch) {
        var i :| 0 <= i < |batch| && batch[i].id == last;
        PrecedesIsEarlier(st0, last, v);
      } else {
        PrecedesIsEarlier(st, last, v);
      }
      assert false;
    }
    DropLast(st.running);
    ListsDistinct(st);
  }

  lemma SweptArrivals(st0: State, st: State)
    requires SweepFrame(st0, st)
    ensures st.requests.Keys == st0.requests.Keys && st.policy == st0.policy && SameArrivals(st0, st) && SameArrivals(st, st0)
  {
  }

  lemma DropLast(s: seq<RequestId>)
    requires s != []
    ensures Distinct(s) ==> Without(s, s[|s| - 1]) == s[..|s| - 1]
  {
    var front, last := s[..|s| - 1], s[|s| - 1];
    assert s == front + [last];
    WithoutConcat(front, [last], last);
    WithoutElements(front, last);
    assert Without([last], last) == [];
  }

  lemma PreemptFifo(st0: State, st: State, batch: seq<ScheduledRequest>, v: RequestId)
    requires SweepInv(st0, st, batch) && Fifo(st) && st0.policy == Fcfs && ArrivalsOk(st0)
    requires v in st.running && v !in BatchIds(batch)
    requires forall u :: u in st.running && u !in BatchIds(batch) && u != v ==> Precedes(st, u, v)
    ensures Fifo(st.PreemptId(v).0)
  {
    hide Inv, SweepInv, Precedes, State.PreemptId;
    var st1 := st.PreemptId(v).0;
    NotInIds(batch, v);
    assert Inv(st, batch) by { SweepHasInv(st0, st, batch); }
    InvLists(st, batch);
    ListsMember(st, v);
    PreemptOk(st, batch, v);
    VictimIsLast(st0, st, batch, v);
    PreemptPolicy(st, v);
    assert Queue(st1) == Queue(st);
    AscendingFrame(st, st1, Queue(st));
  }

  lemma SweepHasInv(st0: State, st: State, batch: seq<ScheduledRequest>)
    requires SweepInv(st0, st, batch)
    ensures Inv(st, batch) && SweepFrame(st0, st)
  {
  }

  lemma PreemptPolicy(st: State, id: RequestId)
    ensures st.PreemptId(id).0.policy == st.policy && st.FailId(id).0.policy == st.policy
  {
    hide Req.Preempt, Req.Fail, Cache.Release;
  }

  lemma FailFifo(st: State, batch: seq<ScheduledRequest>, id: RequestId)
    requires Inv(st, batch) && Fifo(st) && id in st.running && NotIn(batch, id)
    ensures Fifo(st.FailId(id).0)
  {
    hide Inv, State.FailId;
    InvLists(st, batch);
    ListsMember(st, id);
    FailOk(st, batch, id);
    PreemptPolicy(st, id);
    FifoDropRunning(st, st.FailId(id).0, id);
  }

  /** `st1` is `st` further on in the sweep, working for `id`. */
  ghost predicate SweptFor(st0: State, st: State, st1: State, id: RequestId) {
    && (Fifo(st) && st0.policy == Fcfs ==> Fifo(st1))
    && (forall v :: v in st0.running && st1.IsIn(v, Waiting) ==> st.IsIn(v, Waiting) || Precedes(st0, id, v))
    && (forall x :: st.IsIn(x, Failed) ==> st1.IsIn(x, Failed))
  }

  /** Whoever is preempted for `id` comes after `id`; `id` itself joins the batch or fails. */
  lemma {:induction false} TryScheduleFifo(st0: State, st: State, batch: seq<ScheduledRequest>, id: RequestId, remaining: nat)
    requires SweepInv(st0, st, batch) && IsNext(st0, st, batch, id) && remaining > 0 && ArrivalsOk(st0)
    ensures var (st1, r) := st.TrySchedule(id, remaining, BatchIds(batch));
            && SweptFor(st0, st, st1, id)
            && (r == Ok(None) ==> st1.IsIn(id, Failed))
    decreases |st.running|
  {
    hide Inv, SweepFrame, PreemptedLater, BatchFirst, Fifo, Precedes, State.ScheduleOne, State.PreemptId, State.FailId, State.VictimId;
    var protected := BatchIds(batch);
    var (sta, ra) := st.ScheduleOne(id, None, remaining);
    NotInIds(batch, id);
    InvLists(st, batch);
    ScheduleOneOk(st, batch, id, remaining);
    if ra.Ok? {
      OnlyTableFifo(st, sta, id, ra.value.value.blockTable);
    } else {
      VictimOk(st, protected, id);
      var v := st.VictimId(protected).value;
      if v == id {
        SweepFail(st0, st, batch, id);
        if Fifo(st) { FailFifo(st, batch, id); }
        ListsMember(st, id);
      } else {
        SweepPreempt(st0, st, batch, v);
        if Fifo(st) && st0.policy == Fcfs { PreemptFifo(st0, st, batch, v); }
        var stb := st.PreemptId(v).0;
        PreemptShrinks(st, v);
        ListsMember(st, v);
        TryScheduleFifo(st0, stb, batch, id, remaining);
      }
    }
  }

  lemma OnlyTableFifo(st: State, st1: State, id: RequestId, table: seq<BlockId>)
    requires OnlyTable(st, st1, id, table)
    ensures (Fifo(st) ==> Fifo(st1)) && st1.requests == st.requests
  {
  }

  /** Someone who got into the batch, or was failed for want of memory. */
  ghost predicate Served(st0: State, st: State, batch: seq<ScheduledRequest>, x: RequestId) {
    x in st0.running && (x in BatchIds(batch) || st.IsIn(x, Failed))
  }

  /** Whoever was preempted was preempted for someone earlier who was served. */
  ghost predicate Justified(st0: State, st: State, batch: seq<ScheduledRequest>) {
    forall v :: v in st0.running && st.IsIn(v, Waiting) ==> exists x :: Served(st0, st, batch, x) && Precedes(st0, x, v)
  }

  lemma JustifiedStep(st0: State, st: State, batch: seq<ScheduledRequest>, st1: State, batch1: seq<ScheduledRequest>, id: RequestId)
    requires Justified(st0, st, batch) && SweptFor(st0, st, st1, id) && BatchIds(batch) <= BatchIds(batch1)
    requires id in st0.running && (id in BatchIds(batch1) || st1.IsIn(id, Failed))
    ensures Justified(st0, st1, batch1)
  {
    hide Precedes, Fifo, BatchIds;
    forall v | v in st0.running && st1.IsIn(v, Waiting)
      ensures exists x :: Served(st0, st1, batch1, x) && Precedes(st0, x, v)
    {
      if st.IsIn(v, Waiting) {
        var x :| Served(st0, st, batch, x) && Precedes(st0, x, v);
        assert Served(st0, st1, batch1, x);
      } else {
        assert Served(st0, st1, batch1, id);
      }
    }
  }

  lemma {:induction false} RunAllFifo(st0: State, sw: Sweep, ids: seq<RequestId>)
    requires SweepOk(st0, sw) && RestOk(st0, sw.st, sw.selected, ids)
    requires ArrivalsOk(st0) && Justified(st0, sw.st, sw.selected)
    requires forall i :: 0 <= i < |ids| ==> ids[i] in st0.running
    ensures var sw1 := sw.RunAll(ids).0;
            (Fifo(sw.st) && st0.policy == Fcfs ==> Fifo(sw1.st)) && Justified(st0, sw1.st, sw1.selected)
    decreases |ids|
  {
    hide SweepInv, RestOk, Bounded, BatchIds, Fifo, Justified, State.TrySchedule;
    RunAllRound(sw, ids);
    if ids != [] && sw.remaining > 0 {
      SweepLists(st0, sw);
      if !sw.st.IsIn(ids[0], Running) {
        RestSkip(st0, sw.st, sw.selected, ids, sw.st);
        RunAllFifo(st0, sw, ids[1..]);
      } else {
        RestNext(st0, sw.st, sw.selected, ids);
        TryScheduleOk(st0, sw.st, sw.selected, ids[0], sw.remaining);
        TryScheduleFifo(st0, sw.st, sw.selected, ids[0], sw.remaining);
        var (st1, r) := sw.st.TrySchedule(ids[0], sw.remaining, sw.protected);
        if r.value.None? {
          RestSkip(st0, sw.st, sw.selected, ids, st1);
          JustifiedStep(st0, sw.st, sw.selected, st1, sw.selected, ids[0]);
          RunAllFifo(st0, sw.(st := st1), ids[1..]);
        } else {
          var item := r.value.value;
          RestSelected(st0, sw.st, sw.selected, ids, st1, item);
          BoundedAppend(st0.config, sw.selected, sw.remaining, item);
          BatchIdsAppend(sw.selected, item);
          JustifiedStep(st0, sw.st, sw.selected, st1, sw.selected + [item], ids[0]);
          RunAllFifo(st0, sw.Select(st1, item), ids[1..]);
        }
      }
    }
  }

  lemma SweepFifo(st: State)
    requires Inv(st, [])
    ensures var sw := SweepOf(st).0; (Fifo(st) ==> Fifo(sw.st)) && Justified(st, sw.st, sw.selected)
  {
    hide Inv, Precedes, Fifo;
    InvLists(st, []);
    var sw0 := Sweep(st, st.config.maxBatchLen, {}, []);
    var ids := Ids(st.OrderedRunning());
    OrderedRunningOk(st);
    SweepStart(st, sw0, ids);
    forall v | v in st.running ensures !st.IsIn(v, Waiting) { ListsMember(st, v); }
    if Fifo(st) { FifoPolicy(st); }
    RunAllFifo(st, sw0, ids);
  }

  lemma FifoPolicy(st: State)
    requires Fifo(st)
    ensures st.policy == Fcfs
  {
  }

  /** What admission does: it starts waiting requests, which join the batch, and touches no
      other. */
  ghost predicate OnlyAdmitted(st: State, batch: seq<ScheduledRequest>, st1: State, batch1: seq<ScheduledRequest>) {
    && st1.requests.Keys == st.requests.Keys && BatchIds(batch) <= BatchIds(batch1)
    && forall x :: x in st.requests ==>
         if x in BatchIds(batch1) && x !in BatchIds(batch)
         then st.IsIn(x, Waiting) && st1.requests[x] == st.requests[x].(state := Running, cachedLen := st1.requests[x].cachedLen)
         else st1.requests[x] == st.requests[x]
  }

  lemma AdmitsOne(st: State, st1: State, plan: Option<ReusePlan>, item: ScheduledRequest, batch: seq<ScheduledRequest>)
    requires AdmittedState(st, st1, plan, item) && st.IsIn(item.id, Waiting) && item.id !in BatchIds(batch)
    ensures OnlyAdmitted(st, batch, st1, batch + [item])
    ensures Fifo(st) ==> Fifo(st1)
  {
    hide BatchIds;
    BatchIdsAppend(batch, item);
    assert st.waiting == [item.id] + st.waiting[1..];
    assert Queue(st1) == Queue(st);
  }

  lemma OnlyAdmittedTransitive(st: State, b: seq<ScheduledRequest>, st1: State, b1: seq<ScheduledRequest>, st2: State, b2: seq<ScheduledRequest>)
    requires OnlyAdmitted(st, b, st1, b1) && OnlyAdmitted(st1, b1, st2, b2)
    ensures OnlyAdmitted(st, b, st2, b2)
  {
    hide BatchIds;
  }

  lemma {:induction false} AdmitAllFifo(config: Config, sw: Sweep)
    requires AdmitOk(config, sw)
    ensures var sw1 := sw.AdmitAll().0;
            (Fifo(sw.st) ==> Fifo(sw1.st)) && OnlyAdmitted(sw.st, sw.selected, sw1.st, sw1.selected)
    decreases |sw.st.waiting|
  {
    hide State.ScheduleOne, Inv, Cache.PlanReuse, Sweep.Admitted, Bounded, Fifo, OnlyAdmitted;
    AdmitAllRound(sw);
    OnlyAdmittedNothing(sw.st, sw.selected);
    if sw.remaining > 0 && sw.st.waiting != [] {
      AdmitRound(config, sw);
      var id := sw.st.waiting[0];
      var plan := sw.st.cache.PlanReuse(sw.st.requests[id].prompt);
      var (st1, r) := sw.st.ScheduleOne(id, plan, sw.remaining);
      if r.Ok? {
        var sw1 := sw.Admitted(st1, id, r.value.value, ReusedLen(plan)).0;
        WaitingNotInBatch(sw.st, sw.selected, id);
        AdmitsOne(sw.st, sw1.st, plan, r.value.value, sw.selected);
        AdmitAllFifo(config, sw1);
        var sw2 := sw1.AdmitAll().0;
        OnlyAdmittedTransitive(sw.st, sw.selected, sw1.st, sw1.selected, sw2.st, sw2.selected);
      }
    }
  }

  lemma OnlyAdmittedNothing(st: State, batch: seq<ScheduledRequest>)
    ensures OnlyAdmitted(st, batch, st, batch)
  {
  }

  lemma WaitingNotInBatch(st: State, batch: seq<ScheduledRequest>, id: RequestId)
    requires Inv(st, batch) && st.IsIn(id, Waiting)
    ensures id !in BatchIds(batch)
  {
    hide CacheInv, LengthsOk;
    BatchRuns(st, batch, id);
    NotInIds(batch, id);
  }

  /** `schedule` keeps the order. */
  lemma ScheduleFifo(st: State)
    requires Consistent(st) && st.outstanding == None && Fifo(st)
    ensures Fifo(st.Schedule().0)
  {
    hide Sweep.RunAll, Sweep.AdmitAll, Inv, Fifo, OnlyAdmitted;
    SweepPreemptsLater(st);
    SweepFifo(st);
    var sw := SweepOf(st).0;
    SweepAdmits(st, sw);
    AdmitAllOk(st.config, sw);
    AdmitAllFifo(st.config, sw);
    FifoIgnores(sw.AdmitAll().0.st, st.Schedule().0);
  }

  lemma FifoIgnores(st: State, st1: State)
    requires Fifo(st) && st1.policy == st.policy && st1.requests == st.requests
    requires st1.running == st.running && st1.waiting == st.waiting
    ensures Fifo(st1)
  {
  }

  // ------------------------------------------------------------------- results

  lemma CommittedArrivals(st: State, st1: State, item: RequestResult)
    requires CommittedState(st, st1, item)
    ensures SameArrivals(st, st1) && st1.policy == st.policy && st1.waiting == st.waiting
    ensures st1.running == st.running || st1.running == Without(st.running, item.id)
  {
  }

  lemma {:induction false} CommitFifo(st: State, batch: seq<ScheduledRequest>, items: seq<RequestResult>,
                                      log: seq<Undo>, snapshotted: bool)
    requires Inv(st, batch) && AnswersAll(batch, items) && Fifo(st)
    ensures Fifo(st.Commit(items, log, snapshotted).0)
    decreases |items|
  {
    hide Inv, State.CommitOne, Answers, CommittedState;
    if items != [] {
      var item := items[0];
      AnsweredRequest(st, batch, item);
      CommitOneOk(st, batch, item, log, snapshotted);
      var (st1, log1, snap, s) := st.CommitOne(item, log, snapshotted);
      CommittedArrivals(st, st1, item);
      InvLists(st, batch);
      ListsMember(st, item.id);
      if st1.running == st.running {
        AscendingFrame(st, st1, Queue(st));
      } else {
        FifoDropRunning(st, st1, item.id);
      }
      InvBatch(st, batch);
      AnswersRest(batch, items);
      CommitFifo(st1, Drop(batch, item.id), items[1..], log1, snap);
    }
  }

  lemma ApplyFifo(st: State, result: ExecutionResult)
    requires Consistent(st) && Fifo(st)
    ensures Fifo(st.ApplyResult(result).0)
  {
    hide Inv, State.Commit, Fifo, AnswersAll, State.Validate, Advanced, CommitFrame;
    ApplyResultOk(st, result);
    if st.outstanding.Some? {
      var plan := st.outstanding.value;
      ValidateMeans(st, plan, result);
      if st.Validate(plan, result) == Done {
        var st0 := st.(outstanding := None);
        InvWithoutOutstanding(st, plan.requests);
        FifoIgnores(st, st0);
        CommitFifo(st0, plan.requests, result.results, [], false);
        CommitOk(st0, plan.requests, result.results, [], false);
      }
    }
  }

  lemma FailOneFifo(st: State, item: ScheduledRequest, batch: seq<ScheduledRequest>, message: string, log: seq<Undo>)
    requires Inv(st, [item] + batch) && Fifo(st)
    ensures Fifo(st.FailOne(item, message, log).0)
  {
    hide Inv, State.FailOne;
    FailOneOk(st, item, batch, message, log);
    var st1 := st.FailOne(item, message, log).0;
    InvLists(st, [item] + batch);
    HeadRuns(st, item, batch);
    FifoDropRunning(st, st1, item.id);
  }

  lemma HeadRuns(st: State, item: ScheduledRequest, batch: seq<ScheduledRequest>)
    requires Inv(st, [item] + batch)
    ensures item.id in st.running
  {
    hide CacheInv, LengthsOk;
    FirstItem(st, item, batch);
  }

  lemma {:induction false} FailAllFifo(st: State, batch: seq<ScheduledRequest>, message: string, log: seq<Undo>)
    requires Inv(st, batch) && Fifo(st)
    ensures Fifo(st.FailAll(batch, message, log).0)
    decreases |batch|
  {
    hide Inv, State.FailOne, Fifo, TablesWithin;
    if batch != [] {
      var item, rest := batch[0], batch[1..];
      assert batch == [item] + rest;
      FailOneOk(st, item, rest, message, log);
      FailOneFifo(st, item, rest, message, log);
      var (st1, log1, s) := st.FailOne(item, message, log);
      FailAllFifo(st1, rest, message, log1);
    }
  }

  lemma FailBatchFifo(st: State, batch: BatchPlan, message: string)
    requires Consistent(st) && Fifo(st)
    ensures Fifo(st.FailBatch(batch, message).0)
  {
    hide Inv, State.FailAll, Fifo, TablesWithin;
    if st.outstanding == Some(batch) {
      var st0 := st.(outstanding := None);
      InvWithoutOutstanding(st, batch.requests);
      FifoIgnores(st, st0);
      FailAllFifo(st0, batch.requests, message, [RestoreCache(st.cache)]);
      FailAllOk(st0, batch.requests, message, [RestoreCache(st.cache)]);
    }
  }
}
