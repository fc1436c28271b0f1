/** A run in which a request is asked to sample from the middle of its context, and then answered
    something else than the plain greedy stream. */
module EarlySampling {
  import opened Attention
  import opened Base
  import opened BlockPools
  import opened KvCaches
  import opened Requests
  import opened Policies
  import opened Schedules
  import opened SchedulerInvariants
  import opened SchedulerResults
  import opened Rollbacks
  import opened Transparency
  import opened Serving
  import opened GreedyDecoding
  import opened GreedyServing

  // ------------------------------------------------------- steps of a run

  lemma {:induction false} RunsSnoc(s: System, events: seq<Event>, mid: System, e: Event, s1: System)
    requires Runs(s, events, mid) && Next(mid, e, s1)
    ensures Runs(s, events + [e], s1)
    decreases |events|
  {
    hide Next;
    if events == [] {
      assert Runs(s1, [], s1);
      assert ([] + [e])[1..] == [];
    } else {
      var next :| Next(s, events[0], next) && Runs(next, events[1..], mid);
      RunsSnoc(next, events[1..], mid, e, s1);
      assert (events + [e])[1..] == events[1..] + [e];
    }
  }

  lemma ReachableNext(s: System, e: Event, s1: System)
    requires Reachable(s) && Next(s, e, s1)
    ensures Reachable(s1)
  {
    hide Next, Runs;
    var config, policy, blocks, blockLen: Positive, memory, events :|
      Runs(System(NewScheduler(config, policy, blocks, blockLen), memory, false), events, s);
    RunsSnoc(System(NewScheduler(config, policy, blocks, blockLen), memory, false), events, s, e, s1);
  }

  /** The scheduler gets into this state before any batch. */
  ghost predicate Arrives(st: State) {
    exists m :: Reachable(System(st, m, false))
  }

  lemma NewArrives(config: Config, policy: Policy, blocks: nat, blockLen: Positive, m: Memory)
    ensures Arrives(NewScheduler(config, policy, blocks, blockLen))
  {
    var s := System(NewScheduler(config, policy, blocks, blockLen), m, false);
    assert Runs(s, [], s);
    assert Reachable(s);
  }

  lemma SubmitArrives(st: State, spec: RequestSpec)
    requires Arrives(st)
    ensures Arrives(st.Submit(spec).0)
  {
    hide Reachable, State.Submit;
    var m :| Reachable(System(st, m, false));
    ReachableNext(System(st, m, false), SubmitRequest(spec), System(st.Submit(spec).0, m, false));
  }

  /** A model that picks 0 after four tokens and else 9. */
  const PICKS: Model := (kv: Kv) => if kv.Cell? && |kv.before| == 3 then 0 else 9

  lemma PicksIs(ctx: seq<Token>)
    requires ctx != []
    ensures NextToken(PICKS, ctx) == if |ctx| == 4 then 0 else 9
  {
    IdealUpToElements(ctx, |ctx| - 1);
  }

  /** A run from `st0`, with results that this model picks, takes the scheduler to `st`. */
  ghost predicate Served(st0: State, states: seq<System>, events: seq<Event>, st: State) {
    && GreedyTrace(PICKS, states, events) && Reachable(states[0]) && states[0].st == st0
    && states[|events|].st == st && !states[|events|].executed
  }

  ghost predicate Reaches(st0: State, st: State) {
    exists states: seq<System>, events: seq<Event> :: Served(st0, states, events, st)
  }

  lemma ArrivesReaches(st: State)
    requires Arrives(st)
    ensures Reaches(st, st)
  {
    hide Reachable, Next, GreedyEvent;
    var m :| Reachable(System(st, m, false));
    assert Served(st, [System(st, m, false)], [], st);
  }

  lemma TraceSnoc(states: seq<System>, events: seq<Event>, e: Event, s1: System)
    requires GreedyTrace(PICKS, states, events) && Next(states[|events|], e, s1) && GreedyEvent(PICKS, states[|events|], e)
    ensures GreedyTrace(PICKS, states + [s1], events + [e])
  {
    hide Next, GreedyEvent;
    var states1, events1 := states + [s1], events + [e];
    forall k | 0 <= k < |events1|
      ensures Next(states1[k], events1[k], states1[k + 1]) && GreedyEvent(PICKS, states1[k], events1[k])
    {
      if k < |events| { assert states1[k] == states[k] && states1[k + 1] == states[k + 1] && events1[k] == events[k]; }
    }
  }

  lemma ReachesNext(st0: State, states: seq<System>, events: seq<Event>, st: State, e: Event, s1: System)
    requires Served(st0, states, events, st) && Next(states[|events|], e, s1) && !s1.executed
    requires GreedyEvent(PICKS, states[|events|], e)
    ensures Reaches(st0, s1.st)
  {
    hide Next, GreedyEvent, Reachable;
    TraceSnoc(states, events, e, s1);
    assert Served(st0, states + [s1], events + [e], s1.st);
  }

  lemma TraceLength(states: seq<System>, events: seq<Event>)
    requires GreedyTrace(PICKS, states, events)
    ensures |states| == |events| + 1
  {
  }

  lemma {:induction false} TraceReachable(states: seq<System>, events: seq<Event>, n: nat)
    requires GreedyTrace(PICKS, states, events) && Reachable(states[0]) && n <= |events|
    ensures Reachable(states[n])
  {
    hide Next, GreedyEvent, Reachable;
    if n > 0 {
      TraceReachable(states, events, n - 1);
      ReachableNext(states[n - 1], events[n - 1], states[n]);
    }
  }

  lemma ReachesOk(st0: State, st: State)
    requires Reaches(st0, st)
    ensures Consistent(st)
  {
    hide Reachable, Next, GreedyEvent, Consistent, KvOk;
    var states: seq<System>, events: seq<Event> :| Served(st0, states, events, st);
    TraceReachable(states, events, |events|);
    ReachableOk(states[|events|]);
  }

  lemma ScheduleReaches(st0: State, st: State)
    requires Reaches(st0, st)
    ensures Reaches(st0, st.Schedule().0)
  {
    hide Reachable, State.Schedule, GreedyTrace;
    var states: seq<System>, events: seq<Event> :| Served(st0, states, events, st);
    TraceLength(states, events);
    ReachesNext(st0, states, events, st, ScheduleBatch, states[|events|].(st := st.Schedule().0));
  }

  lemma FailReaches(st0: State, st: State, batch: BatchPlan, message: string)
    requires Reaches(st0, st)
    ensures Reaches(st0, st.FailBatch(batch, message).0)
  {
    hide Reachable, State.FailBatch, GreedyTrace;
    var states: seq<System>, events: seq<Event> :| Served(st0, states, events, st);
    TraceLength(states, events);
    ReachesNext(st0, states, events, st, Fail(batch, message), states[|events|].(st := st.FailBatch(batch, message).0));
  }

  /** The token, if any, is what the model picks after as many tokens as the item has computed. */
  ghost predicate Picked(batch: seq<ScheduledRequest>, item: RequestResult) {
    forall i :: 0 <= i < |batch| && batch[i].id == item.id && item.generated != [] ==>
      item.generated[0] == if batch[i].start + |batch[i].input| == 4 then 0 else 9
  }

  lemma PickedIsGreedy(s: System, item: RequestResult)
    requires SystemOk(s) && s.executed && Picked(Ran(s), item)
    ensures PicksGreedily(PICKS, s, item)
  {
    hide SystemOk, PICKS, NextToken;
    var found := FindItem(Ran(s), item.id);
    if found.Some? {
      FindItemMeans(Ran(s), item.id);
      var i :| 0 <= i < |Ran(s)| && Ran(s)[i] == found.value;
      SampledToken(PICKS, s, i);
      PicksIs(s.st.requests[item.id].Context()[..found.value.start + |found.value.input|]);
    }
  }

  /** Any batch can be executed, and then any acceptable result applied. */
  lemma ServeReaches(st0: State, st: State, result: ExecutionResult)
    requires Reaches(st0, st) && st.outstanding.Some? && st.ApplyResult(result).1 == Done
    requires forall k :: 0 <= k < |result.results| ==> Picked(st.outstanding.value.requests, result.results[k])
    ensures Reaches(st0, st.ApplyResult(result).0)
  {
    hide Reachable, State.ApplyResult, Consistent, Inv, KvOk, AfterRun, Executed, GreedyTrace, Picked, PicksGreedily;
    var states: seq<System>, events: seq<Event> :| Served(st0, states, events, st);
    TraceLength(states, events);
    var s := states[|events|];
    TraceReachable(states, events, |events|);
    ReachableOk(s);
    ForgetRan(s);
    var batch := st.outstanding.value.requests;
    Executes(st, s.memory, batch);
    var s1 := System(st, AfterRun(st, s.memory, batch), true);
    NextOk(s, Execute, s1);
    TraceSnoc(states, events, Execute, s1);
    forall k | 0 <= k < |result.results| ensures PicksGreedily(PICKS, s1, result.results[k]) {
      PickedIsGreedy(s1, result.results[k]);
    }
    var s2 := System(st.ApplyResult(result).0, s1.memory, false);
    TraceSnoc(states + [s1], events + [Execute], Apply(result), s2);
    assert Served(st0, states + [s1] + [s2], events + [Execute] + [Apply(result)], s2.st);
  }

  lemma Executes(st: State, m: Memory, batch: seq<ScheduledRequest>)
    requires Consistent(st) && st.outstanding.Some? && st.outstanding.value.requests == batch && KvOk(st, m, [])
    ensures Executed(m, AfterRun(st, m, batch), batch, st.cache.blockLen)
  {
    hide Inv, KvOk, AfterRun, Executed;
    CanExecute(st, m, batch);
  }

  // ------------------------------------------------------ results that seal nothing

  /** An answer that completes nothing and fills no block. */
  predicate Quiet(st: State, item: RequestResult) {
    && item.id in st.requests && st.Reason(item) == None
    && var r := st.requests[item.id];
       (r.cachedLen + item.cachedLenDelta) / st.cache.blockLen == r.cachedLen / st.cache.blockLen
  }

  lemma QuietOne(st: State, item: RequestResult, log: seq<Undo>, snapshotted: bool)
    requires Quiet(st, item)
    ensures var st1 := st.CommitOne(item, log, snapshotted).0;
            && st1 == st.(requests := st1.requests) && st1.requests.Keys == st.requests.Keys
            && forall x :: x in st.requests && x != item.id ==> st1.requests[x] == st.requests[x]
  {
    var r := st.requests[item.id];
    var (r1, s1) := r.Advance(AdvanceResult(item.generated, item.cachedLenDelta, None));
    if s1 == Done {
      NothingToSeal(st.(requests := st.requests[item.id := r1]), item.id, r.cachedLen);
    }
  }

  lemma {:induction false} QuietCommit(st: State, items: seq<RequestResult>, log: seq<Undo>, snapshotted: bool)
    requires forall i :: 0 <= i < |items| ==> Quiet(st, items[i])
    requires forall i, j :: 0 <= i < j < |items| ==> items[i].id != items[j].id
    ensures var st1 := st.Commit(items, log, snapshotted).0; st1 == st.(requests := st1.requests)
    decreases |items|
  {
    hide State.CommitOne;
    if items != [] {
      QuietOne(st, items[0], log, snapshotted);
      var (st1, log1, snap, s) := st.CommitOne(items[0], log, snapshotted);
      forall i | 0 <= i < |items[1..]| ensures Quiet(st1, items[1..][i]) { assert Quiet(st, items[i + 1]); }
      QuietCommit(st1, items[1..], log1, snap);
    }
  }

  /** Applying such answers only advances the requests. */
  lemma QuietApply(st: State, result: ExecutionResult)
    requires Consistent(st) && st.outstanding.Some? && result.stepId == st.outstanding.value.stepId
    requires AnswersAll(st.outstanding.value.requests, result.results)
    requires forall i :: 0 <= i < |result.results| ==> Quiet(st, result.results[i])
    ensures var (st1, s) := st.ApplyResult(result);
            && s == Done && st1 == st.(requests := st1.requests, outstanding := None)
            && st1.requests.Keys == st.requests.Keys
            && (forall i :: 0 <= i < |result.results| ==>
                  var it := result.results[i];
                  it.id in st.requests && st1.requests[it.id] == Advanced(st.requests[it.id], it))
            && (forall x :: x in st.requests && x !in BatchIds(st.outstanding.value.requests) ==>
                  st1.requests[x] == st.requests[x])
  {
    hide Inv, State.Commit, State.ApplyResult, AnswersAll, Advanced, Quiet, BatchIds;
    ApplyResultOk(st, result);
    QuietState(st, result);
  }

  lemma QuietState(st: State, result: ExecutionResult)
    requires st.ApplyResult(result).1 == Done && st.outstanding.Some? && AnswersAll(st.outstanding.value.requests, result.results)
    requires forall i :: 0 <= i < |result.results| ==> Quiet(st, result.results[i])
    ensures var st1 := st.ApplyResult(result).0; st1 == st.(requests := st1.requests, outstanding := None)
  {
    hide State.Commit, State.ApplyResult, Quiet;
    AppliedIsCommitted(st, result);
    var st0 := st.(outstanding := None);
    forall i | 0 <= i < |result.results| ensures Quiet(st0, result.results[i]) { QuietIgnores(st, result.results[i]); }
    QuietCommit(st0, result.results, [], false);
  }

  lemma AppliedIsCommitted(st: State, result: ExecutionResult)
    requires st.ApplyResult(result).1 == Done
    ensures st.ApplyResult(result).0 == st.(outstanding := None).Commit(result.results, [], false).0
  {
    hide State.Commit, State.Validate, State.Unwind;
  }

  lemma QuietIgnores(st: State, item: RequestResult)
    requires Quiet(st, item)
    ensures Quiet(st.(outstanding := None), item)
  {
  }

  // ------------------------------------------------------- small reservations

  function Held(id: RequestId): PhysicalBlock { PhysicalBlock(Writable(Some(id)), 1) }

  /** The pool once its smallest free block is taken. */
  function TookLeast(p: Pool, id: RequestId): Pool
    requires p.free != {} && Least(p.free) < |p.blocks|
  {
    var b := Least(p.free);
    Pool(p.blocks[b := Held(id)], p.free - {b}, p.used + {b}, p.sealed)
  }

  /** A table that has to grow by one block takes the smallest. */
  lemma ReserveOne(c: Cache, id: RequestId, tokens: nat)
    requires CeilDiv(tokens, c.blockLen) == |c.BlockTable(id)| + 1
    requires c.pool.free != {} && Least(c.pool.free) < |c.pool.blocks| && c.pool.blocks[Least(c.pool.free)] == Fresh
    ensures var table := c.BlockTable(id) + [Least(c.pool.free)];
            c.ReserveTo(id, None, tokens) == (c.(pool := TookLeast(c.pool, id), tables := c.tables[id := table]), Ok(table))
  {
    hide CeilDiv;
    var p, b := c.pool, Least(c.pool.free);
    assert 1 <= |p.free| by { assert {b} <= p.free; SubsetCardinality({b}, p.free); }
    assert Smallest(p.free, 1) == [b] by { assert Smallest(p.free - {b}, 0) == []; }
    var p1 := TookLeast(p, id);
    assert p.TakeOne(b, id) == (p1, Done);
    assert p.TakeAll([b], id) == (p1, Done) by { assert [b][1..] == []; assert p1.TakeAll([], id) == (p1, Done); }
    assert p.Reserve(1, id) == (p1, Ok([b]));
    assert p1.RetainShared([]) == (p1, Done);
    assert [] + [b] == [b];
    assert p.ReuseAndReserve([], 1, id) == (p1, Ok([b]));
  }

  lemma ReserveOneIs(c: Cache, id: RequestId, tokens: nat, b: BlockId, table: seq<BlockId>, c1: Cache)
    requires CeilDiv(tokens, c.blockLen) == |c.BlockTable(id)| + 1 && table == c.BlockTable(id) + [b]
    requires b in c.pool.free && (forall x :: x in c.pool.free ==> b <= x)
    requires b < |c.pool.blocks| && c.pool.blocks[b] == Fresh
    requires c1.blockLen == c.blockLen && c1.tables == c.tables[id := table]
    requires c1.pool == Pool(c.pool.blocks[b := Held(id)], c.pool.free - {b}, c.pool.used + {b}, c.pool.sealed)
    ensures c.ReserveTo(id, None, tokens) == (c1, Ok(table))
  {
    hide Cache.ReserveTo, CeilDiv;
    LeastIs(c.pool.free, b);
    ReserveOne(c, id, tokens);
  }

  /** A table that is long enough stays. */
  lemma ReserveNothing(c: Cache, id: RequestId, tokens: nat)
    requires id in c.tables && CeilDiv(tokens, c.blockLen) <= |c.tables[id]|
    ensures c.ReserveTo(id, None, tokens) == (c, Ok(c.tables[id]))
  {
  }

  /** Without a free block a table cannot grow. */
  lemma ReserveFails(c: Cache, id: RequestId, tokens: nat)
    requires CeilDiv(tokens, c.blockLen) > |c.BlockTable(id)| && c.pool.free == {}
    ensures c.ReserveTo(id, None, tokens).0 == c
    ensures c.ReserveTo(id, None, tokens).1.Err? && c.ReserveTo(id, None, tokens).1.error.InsufficientBlocks?
  {
  }

  lemma LeastIs(s: set<nat>, m: nat)
    requires m in s && forall x :: x in s ==> m <= x
    ensures Least(s) == m
  {
  }

  lemma NothingSealedNoPlan(c: Cache, prompt: seq<Token>)
    requires c.pool.sealed == map[]
    ensures c.PlanReuse(prompt) == None
  {
    if |prompt| >= c.blockLen { assert c.Walk(prompt, Seed) == []; }
  }

  // ------------------------------------------------------- rounds of the loops

  /** A round of the admission loop that admits, when nothing can be reused. */
  lemma AdmitNext(sw: Sweep, id: RequestId, c: Cache, table: seq<BlockId>)
    requires sw.remaining > 0 && sw.st.waiting != [] && sw.st.waiting[0] == id && sw.st.IsIn(id, Waiting)
    requires sw.st.requests[id].CheckInvariants() == Done && sw.st.cache.pool.sealed == map[]
    requires var ch := ChunkOf(sw.st.config, sw.st.requests[id], None, sw.remaining);
             && 0 < ch.len <= sw.remaining && ch.start + ch.len <= |sw.st.requests[id].Context()|
             && sw.st.cache.ReserveTo(id, None, ch.start + ch.len) == (c, Ok(table))
    ensures var r, ch := sw.st.requests[id], ChunkOf(sw.st.config, sw.st.requests[id], None, sw.remaining);
            var item := ScheduledItem(r, id, ch, table);
            var st1 := sw.st.(cache := c, waiting := sw.st.waiting[1..], running := sw.st.running + [id],
                              requests := sw.st.requests[id := r.(state := Running)]);
            |item.input| <= sw.remaining && sw.AdmitAll() == sw.Select(st1, item).AdmitAll()
  {
    hide Cache.ReserveTo, ChunkOf, State.ScheduleOne, Sweep.Admitted, Sweep.AdmitAll, Cache.PlanReuse;
    var r := sw.st.requests[id];
    AdmitAllRound(sw);
    NothingSealedNoPlan(sw.st.cache, r.prompt);
    var ch := ChunkOf(sw.st.config, r, None, sw.remaining);
    ScheduleOneDef(sw.st, id, None, sw.remaining);
    var item := ScheduledItem(r, id, ch, table);
    assert |item.input| == ch.len;
    AdmittedIs(sw, sw.st.(cache := c), id, item, 0);
  }

  /** The same, with the sweep it leaves. */
  lemma AdmitTo(sw: Sweep, id: RequestId, ch: Chunk, c: Cache, table: seq<BlockId>, item: ScheduledRequest, sw1: Sweep)
    requires sw.remaining > 0 && sw.st.waiting != [] && sw.st.waiting[0] == id && sw.st.IsIn(id, Waiting)
    requires sw.st.requests[id].CheckInvariants() == Done && sw.st.cache.pool.sealed == map[]
    requires ch == ChunkOf(sw.st.config, sw.st.requests[id], None, sw.remaining)
    requires 0 < ch.len <= sw.remaining && ch.start + ch.len <= |sw.st.requests[id].Context()|
    requires sw.st.cache.ReserveTo(id, None, ch.start + ch.len) == (c, Ok(table))
    requires item == ScheduledItem(sw.st.requests[id], id, ch, table)
    requires sw1.remaining == sw.remaining - ch.len && sw1.protected == sw.protected + {id} && sw1.selected == sw.selected + [item]
    requires sw1.st == sw.st.(cache := c, waiting := sw1.st.waiting, running := sw1.st.running, requests := sw1.st.requests)
    requires sw1.st.waiting == sw.st.waiting[1..] && sw1.st.running == sw.st.running + [id]
    requires sw1.st.requests == sw.st.requests[id := sw.st.requests[id].(state := Running)]
    ensures sw.AdmitAll() == sw1.AdmitAll()
  {
    hide Cache.ReserveTo, ChunkOf, Sweep.AdmitAll;
    AdmitNext(sw, id, c, table);
    assert |item.input| == ch.len;
  }

  /** A round that finds no room ends the loop. */
  lemma AdmitStops(sw: Sweep, id: RequestId)
    requires sw.remaining > 0 && sw.st.waiting != [] && sw.st.waiting[0] == id && sw.st.IsIn(id, Waiting)
    requires sw.st.cache.pool.sealed == map[] && sw.st.cache.pool.free == {}
    requires var ch := ChunkOf(sw.st.config, sw.st.requests[id], None, sw.remaining);
             && 0 < ch.len && ch.start + ch.len <= |sw.st.requests[id].Context()|
             && CeilDiv(ch.start + ch.len, sw.st.cache.blockLen) > |sw.st.cache.BlockTable(id)|
    ensures sw.AdmitAll() == (sw, Done)
  {
    hide Cache.ReserveTo, ChunkOf, State.ScheduleOne, Sweep.Admitted, Sweep.AdmitAll, Cache.PlanReuse, CeilDiv;
    AdmitAllRound(sw);
    NothingSealedNoPlan(sw.st.cache, sw.st.requests[id].prompt);
    var ch := ChunkOf(sw.st.config, sw.st.requests[id], None, sw.remaining);
    ScheduleOneDef(sw.st, id, None, sw.remaining);
    ReserveFails(sw.st.cache, id, ch.start + ch.len);
  }

  lemma AdmitDone(sw: Sweep)
    requires sw.remaining == 0 || sw.st.waiting == []
    ensures sw.AdmitAll() == (sw, Done)
  {
    AdmitAllRound(sw);
  }

  /** A round of the loop over the running requests whose table is or can be made long enough. */
  lemma RunNext(sw: Sweep, ids: seq<RequestId>, c: Cache, table: seq<BlockId>)
    requires sw.remaining > 0 && ids != [] && sw.st.IsIn(ids[0], Running)
    requires var ch := ChunkOf(sw.st.config, sw.st.requests[ids[0]], None, sw.remaining);
             && 0 < ch.len <= sw.remaining && ch.start + ch.len <= |sw.st.requests[ids[0]].Context()|
             && sw.st.cache.ReserveTo(ids[0], None, ch.start + ch.len) == (c, Ok(table))
    ensures var r, ch := sw.st.requests[ids[0]], ChunkOf(sw.st.config, sw.st.requests[ids[0]], None, sw.remaining);
            var item := ScheduledItem(r, ids[0], ch, table);
            |item.input| <= sw.remaining && sw.RunAll(ids) == sw.Select(sw.st.(cache := c), item).RunAll(ids[1..])
  {
    hide Cache.ReserveTo, ChunkOf, Sweep.RunAll, State.ScheduleOne;
    RunAllRound(sw, ids);
    ScheduleOneDef(sw.st, ids[0], None, sw.remaining);
  }

  /** One that preempts the victim first. */
  lemma RunAfterPreempting(sw: Sweep, ids: seq<RequestId>, victim: RequestId, st1: State, c: Cache, table: seq<BlockId>)
    requires sw.remaining > 0 && ids != [] && sw.st.IsIn(ids[0], Running) && sw.st.cache.pool.free == {}
    requires var ch := ChunkOf(sw.st.config, sw.st.requests[ids[0]], None, sw.remaining);
             && 0 < ch.len <= sw.remaining && ch.start + ch.len <= |sw.st.requests[ids[0]].Context()|
             && CeilDiv(ch.start + ch.len, sw.st.cache.blockLen) > |sw.st.cache.BlockTable(ids[0])|
             && st1.cache.ReserveTo(ids[0], None, ch.start + ch.len) == (c, Ok(table))
    requires sw.st.VictimId(sw.protected) == Some(victim) && victim != ids[0] && sw.st.PreemptId(victim) == (st1, Done)
    ensures ids[0] in st1.requests && st1.requests[ids[0]] == sw.st.requests[ids[0]]
    ensures var r, ch := sw.st.requests[ids[0]], ChunkOf(sw.st.config, sw.st.requests[ids[0]], None, sw.remaining);
            var item := ScheduledItem(r, ids[0], ch, table);
            |item.input| <= sw.remaining && sw.RunAll(ids) == sw.Select(st1.(cache := c), item).RunAll(ids[1..])
  {
    hide Cache.ReserveTo, ChunkOf, Sweep.RunAll, State.ScheduleOne, State.VictimId, CeilDiv;
    var id, ch := ids[0], ChunkOf(sw.st.config, sw.st.requests[ids[0]], None, sw.remaining);
    RunAllRound(sw, ids);
    ScheduleOneDef(sw.st, id, None, sw.remaining);
    ReserveFails(sw.st.cache, id, ch.start + ch.len);
    assert sw.st.ScheduleOne(id, None, sw.remaining).0 == sw.st;
    assert st1.config == sw.st.config && st1.requests[id] == sw.st.requests[id];
    ScheduleOneDef(st1, id, None, sw.remaining);
    VictimRuns(sw.st, sw.protected);
    PreemptShrinks(sw.st, victim);
  }

  /** The same, with the sweep it leaves. */
  lemma RunTo(sw: Sweep, ids: seq<RequestId>, ch: Chunk, table: seq<BlockId>, item: ScheduledRequest, sw1: Sweep)
    requires sw.remaining > 0 && ids != [] && sw.st.IsIn(ids[0], Running)
    requires ch == ChunkOf(sw.st.config, sw.st.requests[ids[0]], None, sw.remaining)
    requires 0 < ch.len <= sw.remaining && ch.start + ch.len <= |sw.st.requests[ids[0]].Context()|
    requires sw.st.cache.ReserveTo(ids[0], None, ch.start + ch.len) == (sw.st.cache, Ok(table))
    requires item == ScheduledItem(sw.st.requests[ids[0]], ids[0], ch, table)
    requires sw1 == Sweep(sw.st, sw.remaining - ch.len, sw.protected + {ids[0]}, sw.selected + [item])
    ensures sw.RunAll(ids) == sw1.RunAll(ids[1..])
  {
    hide Cache.ReserveTo, ChunkOf, Sweep.RunAll;
    RunNext(sw, ids, sw.st.cache, table);
    assert |item.input| == ch.len;
    assert sw.st.(cache := sw.st.cache) == sw.st;
  }

  /** The same, with the sweep it leaves. */
  lemma PreemptTo(sw: Sweep, ids: seq<RequestId>, ch: Chunk, victim: RequestId, st1: State, c: Cache, table: seq<BlockId>,
                  item: ScheduledRequest, sw1: Sweep)
    requires sw.remaining > 0 && ids != [] && sw.st.IsIn(ids[0], Running) && sw.st.cache.pool.free == {}
    requires ch == ChunkOf(sw.st.config, sw.st.requests[ids[0]], None, sw.remaining)
    requires 0 < ch.len <= sw.remaining && ch.start + ch.len <= |sw.st.requests[ids[0]].Context()|
    requires CeilDiv(ch.start + ch.len, sw.st.cache.blockLen) > |sw.st.cache.BlockTable(ids[0])|
    requires st1.cache.ReserveTo(ids[0], None, ch.start + ch.len) == (c, Ok(table))
    requires sw.st.VictimId(sw.protected) == Some(victim) && victim != ids[0] && sw.st.PreemptId(victim) == (st1, Done)
    requires item == ScheduledItem(sw.st.requests[ids[0]], ids[0], ch, table)
    requires sw1 == Sweep(st1.(cache := c), sw.remaining - ch.len, sw.protected + {ids[0]}, sw.selected + [item])
    ensures sw.RunAll(ids) == sw1.RunAll(ids[1..])
  {
    hide Cache.ReserveTo, ChunkOf, Sweep.RunAll, State.VictimId, State.PreemptId, CeilDiv;
    RunAfterPreempting(sw, ids, victim, st1, c, table);
    assert |item.input| == ch.len;
  }

  /** Two running requests, the earlier first. */
  lemma OrderedTwo(st: State, a: RequestId, b: RequestId)
    requires st.running == [a, b] && st.policy == Fcfs && st.IsIn(a, Running) && st.IsIn(b, Running)
    requires st.requests[a].arrival < st.requests[b].arrival
    ensures Ids(st.OrderedRunning()) == [a, b]
    ensures a != b ==> st.VictimId({}) == Some(b)
  {
    var s := [st.PolicyRequestOf(a), st.PolicyRequestOf(b)];
    assert st.running[1..] == [b] && st.running[1..][1..] == [];
    assert st.PolicyRequests([b]) == [st.PolicyRequestOf(b)] by { assert [b][1..] == []; }
    assert st.PolicyRequests(st.running) == s;
    SortOfSorted(Fcfs, s);
  }

  lemma OrderedOne(st: State, a: RequestId)
    requires st.running == [a] && st.IsIn(a, Running)
    ensures Ids(st.OrderedRunning()) == [a]
  {
    var x := st.PolicyRequestOf(a);
    assert st.PolicyRequests(st.running) == [x] by { assert st.running[1..] == []; }
    SortOfSorted(st.policy, [x]);
  }

  /** Whoever stopped running on the way is passed over. */
  lemma RunSkips(sw: Sweep, ids: seq<RequestId>)
    requires ids == [] || !sw.st.IsIn(ids[0], Running)
    ensures sw.RunAll(ids) == if ids == [] then (sw, Done) else sw.RunAll(ids[1..])
  {
    hide Sweep.RunAll;
    RunAllRound(sw, ids);
    if ids != [] { RunAllRound(sw, ids[1..]); }
  }

  /** `schedule`, from the outcomes of its two loops. */
  lemma ScheduleIs(st: State, mid: Sweep, end: Sweep)
    requires st.outstanding == None && end.selected != []
    requires Sweep(st, st.config.maxBatchLen, {}, []).RunAll(Ids(st.OrderedRunning())) == (mid, Done)
    requires mid.AdmitAll() == (end, Done)
    ensures var plan := BatchPlan(end.st.nextStep, end.selected);
            st.Schedule() == (end.st.(nextStep := end.st.nextStep + 1, outstanding := Some(plan)), Ok(Some(plan)))
  {
    hide Sweep.RunAll, Sweep.AdmitAll;
  }

  // ------------------------------------------------------------------- the run

  const TWO_AT_A_TIME := Config(4, 2)

  function Params(): SamplingParams { SamplingParams(0.0, None, 1.0, 0.0, 0, [], 0) }

  /** A long prompt, in front. */
  function First(cachedLen: nat, state: RequestState, error: Option<string>): Req {
    Req("a", [1, 2, 3, 4, 5, 6], 0, 1, Params(), 0, [], state, cachedLen, None, error)
  }

  /** A short one behind it. */
  function Second(generated: seq<Token>, cachedLen: nat, state: RequestState): Req {
    Req("b", [7, 8], 1, 5, Params(), |generated|, generated, state, cachedLen, None, None)
  }

  function Sched(c: Cache, a: Req, b: Req, waiting: seq<RequestId>, running: seq<RequestId>, step: nat,
                 batch: Option<BatchPlan>): State
  {
    State(TWO_AT_A_TIME, Fcfs, c, map["a" := a, "b" := b], waiting, running, 2, step, batch)
  }

  function FirstHolds(): Cache {
    Cache(5, Pool([Held("a"), Fresh], {1}, {0}, map[]), map["a" := [0]])
  }

  function EmptyCache(): Cache { Cache(5, NewPool(2), map[]) }

  function BothHold(): Cache {
    Cache(5, Pool([Held("a"), Held("b")], {}, {0, 1}, map[]), map["a" := [0], "b" := [1]])
  }

  function FirstHoldsBoth(): Cache {
    Cache(5, Pool([Held("a"), Held("a")], {}, {0, 1}, map[]), map["a" := [0, 1]])
  }

  function SecondHolds(): Cache {
    Cache(5, Pool([Held("b"), Fresh], {1}, {0}, map[]), map["b" := [0]])
  }

  function Item(r: Req, c: Chunk, table: seq<BlockId>): ScheduledRequest
    requires c.start + c.len <= |r.Context()|
  {
    ScheduledItem(r, r.id, c, table)
  }

  /** Two blocks of five tokens, a batch of four tokens, chunks of two. */
  function Start(): State {
    Sched(EmptyCache(), First(0, Waiting, None), Second([], 0, Waiting), ["a", "b"], [], 0, None)
  }

  lemma Submitted()
    ensures Reaches(Start(), Start())
  {
    hide Arrives, Reaches, State.Submit;
    var st := NewScheduler(TWO_AT_A_TIME, Fcfs, 2, 5);
    var a, b := First(0, Waiting, None), Second([], 0, Waiting);
    NewArrives(TWO_AT_A_TIME, Fcfs, 2, 5, _ => Uninitialised(0));
    var specA, specB := RequestSpec("a", a.prompt, 1, Params()), RequestSpec("b", b.prompt, 5, Params());
    SubmitArrives(st, specA);
    var st1 := st.(nextArrival := 1, requests := map["a" := a], waiting := ["a"]);
    SubmitIs(st, specA, a, st1);
    SubmitArrives(st1, specB);
    SubmitIs(st1, specB, b, Start());
    ArrivesReaches(Start());
  }

  lemma SubmitIs(st: State, spec: RequestSpec, r: Req, st1: State)
    requires spec.requestId !in st.requests && Create(spec, st.nextArrival) == Ok(r)
    requires st1 == st.(nextArrival := st.nextArrival + 1, requests := st1.requests, waiting := st1.waiting)
    requires st1.requests == st.requests[spec.requestId := r] && st1.waiting == st.waiting + [spec.requestId]
    ensures st.Submit(spec).0 == st1
  {
    hide Create;
  }

  lemma CeilDivOne(n: nat, d: Positive)
    requires 0 < n <= d
    ensures CeilDiv(n, d) == 1
  {
    QuotientIs(n + d - 1, d, 1);
  }

  function Plan1(): BatchPlan {
    BatchPlan(0, [Item(First(0, Waiting, None), Chunk(0, Prefill, 6, 2), [0]),
                  Item(Second([], 0, Waiting), Chunk(0, Prefill, 2, 2), [1])])
  }

  function Start1(): Sweep {
    Sweep(Sched(EmptyCache(), First(0, Waiting, None), Second([], 0, Waiting), ["a", "b"], [], 0, None), 4, {}, [])
  }

  function Middle1(): Sweep {
    Sweep(Sched(FirstHolds(), First(0, Running, None), Second([], 0, Waiting), ["b"], ["a"], 0, None), 2, {"a"}, [Plan1().requests[0]])
  }

  function End1(): Sweep {
    Sweep(Sched(BothHold(), First(0, Running, None), Second([], 0, Running), [], ["a", "b"], 0, None), 0, {"a", "b"}, Plan1().requests)
  }

  lemma AdmitFirst()
    ensures Start1().AdmitAll() == Middle1().AdmitAll()
  {
    hide Sweep.AdmitAll, Cache.ReserveTo, CeilDiv;
    CeilDivOne(2, 5);
    ReserveOneIs(EmptyCache(), "a", 2, 0, [0], FirstHolds());
    AdmitTo(Start1(), "a", Chunk(0, Prefill, 6, 2), FirstHolds(), [0], Plan1().requests[0], Middle1());
  }

  lemma AdmitSecond()
    ensures Middle1().AdmitAll() == End1().AdmitAll()
  {
    hide Sweep.AdmitAll, Cache.ReserveTo, CeilDiv;
    CeilDivOne(2, 5);
    ReserveOneIs(FirstHolds(), "b", 2, 1, [1], BothHold());
    AdmitTo(Middle1(), "b", Chunk(0, Prefill, 2, 2), BothHold(), [1], Plan1().requests[1], End1());
  }

  /** Both are admitted; the second computes its whole prompt. */
  lemma Round1()
    ensures Sched(EmptyCache(), First(0, Waiting, None), Second([], 0, Waiting), ["a", "b"], [], 0, None).Schedule().0
         == Sched(BothHold(), First(0, Running, None), Second([], 0, Running), [], ["a", "b"], 1, Some(Plan1()))
  {
    hide Sweep.RunAll, Sweep.AdmitAll, State.Schedule, ScheduledItem;
    assert Ids(Start1().st.OrderedRunning()) == [];
    RunSkips(Start1(), []);
    AdmitFirst();
    AdmitSecond();
    AdmitDone(End1());
    ScheduleIs(Start1().st, Start1(), End1());
  }

  /** A batch is executed, and its requests are answered. */
  lemma ServeTo(st: State, plan: BatchPlan, results: seq<RequestResult>, st1: State)
    requires Reaches(Start(), st) && st.outstanding == Some(plan) && AnswersAll(plan.requests, results)
    requires forall i :: 0 <= i < |results| ==> Quiet(st, results[i]) && Picked(plan.requests, results[i])
    requires st1 == st.(requests := st1.requests, outstanding := None) && st1.requests.Keys == st.requests.Keys
    requires forall i :: 0 <= i < |results| ==>
               results[i].id in st.requests && st1.requests[results[i].id] == Advanced(st.requests[results[i].id], results[i])
    requires forall x :: x in st.requests && (forall i :: 0 <= i < |results| ==> results[i].id != x) ==>
               st1.requests[x] == st.requests[x]
    ensures Reaches(Start(), st1)
  {
    hide Reaches, Inv, AnswersAll, Quiet, Picked, Advanced, State.ApplyResult, BatchIds, Start;
    var result := ExecutionResult(plan.stepId, results);
    ReachesOk(Start(), st);
    QuietApply(st, result);
    AnswersAllIsBijectionOf(st, plan, results);
    var st2 := st.ApplyResult(result).0;
    forall x | x in st.requests ensures st2.requests[x] == st1.requests[x] {
      if x in ResultIds(results) { var i :| 0 <= i < |results| && results[i].id == x; }
    }
    assert st2.requests == st1.requests;
    ServeReaches(Start(), st, result);
  }

  lemma AnswersAllIsBijectionOf(st: State, plan: BatchPlan, results: seq<RequestResult>)
    requires Consistent(st) && st.outstanding == Some(plan) && AnswersAll(plan.requests, results)
    ensures ResultIds(results) == BatchIds(plan.requests)
  {
    hide CacheInv, LengthsOk, AnswersAll;
    AnswersAllIsBijection(plan.requests, results);
  }

  lemma Served1()
    requires Reaches(Start(), Sched(BothHold(), First(0, Running, None), Second([], 0, Running), [], ["a", "b"], 1, Some(Plan1())))
    ensures Reaches(Start(), Sched(BothHold(), First(2, Running, None), Second([9], 2, Running), [], ["a", "b"], 1, None))
  {
    hide Reaches;
    var st := Sched(BothHold(), First(0, Running, None), Second([], 0, Running), [], ["a", "b"], 1, Some(Plan1()));
    var st1 := Sched(BothHold(), First(2, Running, None), Second([9], 2, Running), [], ["a", "b"], 1, None);
    var results := [RequestResult("a", [], 2, false), RequestResult("b", [9], 2, false)];
    assert results[0].id == "a" && results[1].id == "b";
    ServeTo(st, Plan1(), results, st1);
  }

  function Plan2(): BatchPlan {
    BatchPlan(1, [Item(First(2, Running, None), Chunk(2, Prefill, 4, 2), [0]),
                  Item(Second([9], 2, Running), Chunk(2, Decode, 1, 1), [1])])
  }

  lemma Round2()
    ensures Sched(BothHold(), First(2, Running, None), Second([9], 2, Running), [], ["a", "b"], 1, None).Schedule().0
         == Sched(BothHold(), First(2, Running, None), Second([9], 2, Running), [], ["a", "b"], 2, Some(Plan2()))
  {
    hide Sweep.RunAll, Sweep.AdmitAll, Cache.ReserveTo, State.Schedule;
    var st := Sched(BothHold(), First(2, Running, None), Second([9], 2, Running), [], ["a", "b"], 1, None);
    var sw, sw1 := Sweep(st, 4, {}, []), Sweep(st, 2, {"a"}, [Plan2().requests[0]]);
    var sw2 := Sweep(st, 1, {"a", "b"}, Plan2().requests);
    OrderedTwo(st, "a", "b");
    ReserveNothing(BothHold(), "a", 4);
    RunTo(sw, ["a", "b"], Chunk(2, Prefill, 4, 2), [0], Plan2().requests[0], sw1);
    assert ["a", "b"][1..] == ["b"];
    ReserveNothing(BothHold(), "b", 3);
    RunTo(sw1, ["b"], Chunk(2, Decode, 1, 1), [1], Plan2().requests[1], sw2);
    assert ["b"][1..] == [];
    RunSkips(sw2, []);
    AdmitDone(sw2);
    ScheduleIs(st, sw2, sw2);
  }

  lemma Served2()
    requires Reaches(Start(), Sched(BothHold(), First(2, Running, None), Second([9], 2, Running), [], ["a", "b"], 2, Some(Plan2())))
    ensures Reaches(Start(), Sched(BothHold(), First(4, Running, None), Second([9, 9], 3, Running), [], ["a", "b"], 2, None))
  {
    hide Reaches;
    var st := Sched(BothHold(), First(2, Running, None), Second([9], 2, Running), [], ["a", "b"], 2, Some(Plan2()));
    var st1 := Sched(BothHold(), First(4, Running, None), Second([9, 9], 3, Running), [], ["a", "b"], 2, None);
    var results := [RequestResult("a", [], 2, false), RequestResult("b", [9], 1, false)];
    assert results[0].id == "a" && results[1].id == "b";
    ServeTo(st, Plan2(), results, st1);
  }

  function Plan3(): BatchPlan {
    BatchPlan(2, [Item(First(4, Running, None), Chunk(4, Prefill, 2, 2), [0, 1])])
  }

  lemma ReleaseOneIs(p: Pool, b: BlockId, p1: Pool)
    requires b in p.used && b < |p.blocks| && p.blocks[b].refCnt == 1 && p.blocks[b].state.Writable?
    requires p1.blocks == p.blocks[b := Fresh] && p1.free == p.free + {b} && p1.used == p.used - {b} && p1.sealed == p.sealed
    ensures p.ReleaseOne(b) == (p1, Done)
  {
  }

  lemma ReleaseTwo(p: Pool, a: BlockId, p1: Pool, rest: seq<BlockId>)
    requires p.ReleaseOne(a) == (p1, Done)
    ensures p.ReleaseBlocks([a] + rest) == p1.ReleaseBlocks(rest)
    ensures p1.ReleaseBlocks([]) == (p1, Done)
  {
    assert ([a] + rest)[0] == a && ([a] + rest)[1..] == rest;
  }

  /** The second gives up its block for the first, with two tokens generated. */
  lemma Preempted3()
    ensures Sched(BothHold(), First(4, Running, None), Second([9, 9], 3, Running), [], ["a", "b"], 2, None).PreemptId("b")
         == (Sched(FirstHolds(), First(4, Running, None), Second([9, 9], 0, Waiting), ["b"], ["a"], 2, None), Done)
  {
    hide Cache.Release, Pool.ReleaseBlocks, Without;
    var st := Sched(BothHold(), First(4, Running, None), Second([9, 9], 3, Running), [], ["a", "b"], 2, None);
    ReleasedSecond();
    WithoutLast("a", "b");
    var r := Second([9, 9], 0, Waiting);
    assert st.requests["b"].Preempt() == (r, Done);
    PreemptIs(st, "b", r, FirstHolds(), Sched(FirstHolds(), First(4, Running, None), r, ["b"], ["a"], 2, None));
  }

  lemma PreemptIs(st: State, id: RequestId, r: Req, c: Cache, st1: State)
    requires id in st.requests && st.requests[id].Preempt() == (r, Done) && st.cache.Release(id) == (c, Done)
    requires st1 == st.(requests := st1.requests, running := st1.running, waiting := st1.waiting, cache := c)
    requires st1.requests == st.requests[id := r] && st1.running == Without(st.running, id) && st1.waiting == [id] + st.waiting
    ensures st.PreemptId(id) == (st1, Done)
  {
    hide Req.Preempt, Cache.Release;
  }

  lemma ReleasedSecond()
    ensures BothHold().Release("b") == (FirstHolds(), Done)
  {
    var c := BothHold();
    ReleaseOneIs(c.pool, 1, FirstHolds().pool);
    ReleaseTwo(c.pool, 1, FirstHolds().pool, []);
    assert [1] + [] == [1];
    assert c.tables - {"b"} == map["a" := [0]];
  }

  lemma WithoutLast(a: RequestId, b: RequestId)
    requires a != b
    ensures Without([a, b], b) == [a]
  {
    assert [b][1..] == [];
    assert Without([b], b) == [];
    assert [a, b][1..] == [b];
  }

  lemma Round3()
    ensures Sched(BothHold(), First(4, Running, None), Second([9, 9], 3, Running), [], ["a", "b"], 2, None).Schedule().0
         == Sched(FirstHoldsBoth(), First(4, Running, None), Second([9, 9], 0, Waiting), ["b"], ["a"], 3, Some(Plan3()))
  {
    hide Sweep.RunAll, Sweep.AdmitAll, Cache.ReserveTo, State.Schedule, State.PreemptId, State.VictimId;
    var st := Sched(BothHold(), First(4, Running, None), Second([9, 9], 3, Running), [], ["a", "b"], 2, None);
    var st1 := Sched(FirstHolds(), First(4, Running, None), Second([9, 9], 0, Waiting), ["b"], ["a"], 2, None);
    var st2 := Sched(FirstHoldsBoth(), First(4, Running, None), Second([9, 9], 0, Waiting), ["b"], ["a"], 2, None);
    var sw, sw1 := Sweep(st, 4, {}, []), Sweep(st2, 2, {"a"}, Plan3().requests);
    OrderedTwo(st, "a", "b");
    Preempted3();
    ReserveOneIs(FirstHolds(), "a", 6, 1, [0, 1], FirstHoldsBoth());
    PreemptTo(sw, ["a", "b"], Chunk(4, Prefill, 2, 2), "b", st1, FirstHoldsBoth(), [0, 1], Plan3().requests[0], sw1);
    assert ["a", "b"][1..] == ["b"];
    RunSkips(sw1, ["b"]);
    assert ["b"][1..] == [];
    RunSkips(sw1, []);
    AdmitStops(sw1, "b");
    ScheduleIs(st, sw1, sw1);
  }

  /** The first fails, and all blocks are free. */
  lemma Failed3()
    ensures Sched(FirstHoldsBoth(), First(4, Running, None), Second([9, 9], 0, Waiting), ["b"], ["a"], 3, Some(Plan3())).FailBatch(Plan3(), "e").0
         == Sched(EmptyCache(), First(4, Failed, Some("e")), Second([9, 9], 0, Waiting), ["b"], [], 3, None)
  {
    var c := FirstHoldsBoth();
    var p1 := Pool([Fresh, Held("a")], {0}, {1}, map[]);
    ReleaseOneIs(c.pool, 0, p1);
    ReleaseOneIs(p1, 1, EmptyCache().pool);
    ReleaseTwo(c.pool, 0, p1, [1]);
    ReleaseTwo(p1, 1, EmptyCache().pool, []);
    assert [0] + [1] == [0, 1] && [1] + [] == [1];
    assert c.tables - {"a"} == map[];
    assert c.Release("a") == (EmptyCache(), Done);
    assert RemoveAt(["a"], 0) == [];
    assert Plan3().requests[1..] == [];
  }

  function Plan4(): BatchPlan {
    BatchPlan(3, [Item(Second([9, 9], 0, Waiting), Chunk(0, Prefill, 4, 2), [0])])
  }

  /** The second starts over and computes its prompt. */
  lemma Round4()
    ensures Sched(EmptyCache(), First(4, Failed, Some("e")), Second([9, 9], 0, Waiting), ["b"], [], 3, None).Schedule().0
         == Sched(SecondHolds(), First(4, Failed, Some("e")), Second([9, 9], 0, Running), [], ["b"], 4, Some(Plan4()))
  {
    hide Sweep.RunAll, Sweep.AdmitAll, Cache.ReserveTo, State.Schedule, CeilDiv;
    CeilDivOne(2, 5);
    var st := Sched(EmptyCache(), First(4, Failed, Some("e")), Second([9, 9], 0, Waiting), ["b"], [], 3, None);
    var sw := Sweep(st, 4, {}, []);
    var sw1 := Sweep(Sched(SecondHolds(), First(4, Failed, Some("e")), Second([9, 9], 0, Running), [], ["b"], 3, None), 2, {"b"}, Plan4().requests);
    assert Ids(st.OrderedRunning()) == [];
    RunSkips(sw, []);
    ReserveOneIs(EmptyCache(), "b", 2, 0, [0], SecondHolds());
    AdmitTo(sw, "b", Chunk(0, Prefill, 4, 2), SecondHolds(), [0], Plan4().requests[0], sw1);
    AdmitDone(sw1);
    ScheduleIs(st, sw, sw1);
  }

  lemma Served4()
    requires Reaches(Start(), Sched(SecondHolds(), First(4, Failed, Some("e")), Second([9, 9], 0, Running), [], ["b"], 4, Some(Plan4())))
    ensures Reaches(Start(), Sched(SecondHolds(), First(4, Failed, Some("e")), Second([9, 9], 2, Running), [], ["b"], 4, None))
  {
    hide Reaches;
    var st := Sched(SecondHolds(), First(4, Failed, Some("e")), Second([9, 9], 0, Running), [], ["b"], 4, Some(Plan4()));
    var st1 := Sched(SecondHolds(), First(4, Failed, Some("e")), Second([9, 9], 2, Running), [], ["b"], 4, None);
    var results := [RequestResult("b", [], 2, false)];
    assert results[0].id == "b";
    ServeTo(st, Plan4(), results, st1);
  }

  function Plan5(): BatchPlan {
    BatchPlan(4, [Item(Second([9, 9], 2, Running), Chunk(2, Decode, 1, 1), [0])])
  }

  /** It is taken to be decoding, with two more tokens to recompute. */
  lemma Round5()
    ensures Sched(SecondHolds(), First(4, Failed, Some("e")), Second([9, 9], 2, Running), [], ["b"], 4, None).Schedule().0
         == Sched(SecondHolds(), First(4, Failed, Some("e")), Second([9, 9], 2, Running), [], ["b"], 5, Some(Plan5()))
  {
    hide Sweep.RunAll, Sweep.AdmitAll, Cache.ReserveTo, State.Schedule;
    var st := Sched(SecondHolds(), First(4, Failed, Some("e")), Second([9, 9], 2, Running), [], ["b"], 4, None);
    var sw, sw1 := Sweep(st, 4, {}, []), Sweep(st, 3, {"b"}, Plan5().requests);
    OrderedOne(st, "b");
    ReserveNothing(SecondHolds(), "b", 3);
    RunTo(sw, ["b"], Chunk(2, Decode, 1, 1), [0], Plan5().requests[0], sw1);
    assert ["b"][1..] == [];
    RunSkips(sw1, []);
    AdmitDone(sw1);
    ScheduleIs(st, sw1, sw1);
  }

  function EarlyState(): State {
    Sched(SecondHolds(), First(4, Failed, Some("e")), Second([9, 9], 2, Running), [], ["b"], 5, Some(Plan5()))
  }

  lemma ReachesEarly()
    ensures Reaches(Start(), EarlyState())
  {
    hide Reaches, State.Schedule, State.FailBatch;
    Submitted();
    ScheduleReaches(Start(), Start());
    Round1();
    Served1();
    ScheduleReaches(Start(), Sched(BothHold(), First(2, Running, None), Second([9], 2, Running), [], ["a", "b"], 1, None));
    Round2();
    Served2();
    ScheduleReaches(Start(), Sched(BothHold(), First(4, Running, None), Second([9, 9], 3, Running), [], ["a", "b"], 2, None));
    Round3();
    FailReaches(Start(), Sched(FirstHoldsBoth(), First(4, Running, None), Second([9, 9], 0, Waiting), ["b"], ["a"], 3, Some(Plan3())), Plan3(), "e");
    Failed3();
    ScheduleReaches(Start(), Sched(EmptyCache(), First(4, Failed, Some("e")), Second([9, 9], 0, Waiting), ["b"], [], 3, None));
    Round4();
    Served4();
    ScheduleReaches(Start(), Sched(SecondHolds(), First(4, Failed, Some("e")), Second([9, 9], 2, Running), [], ["b"], 4, None));
    Round5();
  }

  /** The scheduler reaches a state with an item outstanding that samples before the end of its
      request's context. */
  lemma EarlySampleReachable()
    ensures exists s :: Reachable(s) && s.st.outstanding.Some? && s.st.outstanding.value.requests != []
              && var it := s.st.outstanding.value.requests[0];
                 it.id in s.st.requests && it.needSample && it.start + |it.input| < |s.st.requests[it.id].Context()|
  {
    hide Reachable, Next, GreedyEvent;
    ReachesEarly();
    var states: seq<System>, events: seq<Event> :| Served(Start(), states, events, EarlyState());
    TraceReachable(states, events, |events|);
    assert |Second([9, 9], 2, Running).Context()| == 4;
    assert Reachable(states[|events|]);
  }

  lemma Served5()
    ensures Reaches(Start(), Sched(SecondHolds(), First(4, Failed, Some("e")), Second([9, 9, 9], 3, Running), [], ["b"], 5, None))
  {
    hide Reaches;
    ReachesEarly();
    var st1 := Sched(SecondHolds(), First(4, Failed, Some("e")), Second([9, 9, 9], 3, Running), [], ["b"], 5, None);
    var results := [RequestResult("b", [9], 1, false)];
    assert results[0].id == "b";
    ServeTo(EarlyState(), Plan5(), results, st1);
  }

  /** Its answer then is not the plain greedy stream: the token that follows the first two is
      answered where another is due. */
  lemma EarlySampleBreaksStream()
    ensures exists model: Model, states: seq<System>, events: seq<Event>, id ::
              GreedyTrace(model, states, events) && Reachable(states[0])
              && id in states[0].st.requests && states[0].st.requests[id].generated == []
              && id in states[|events|].st.requests
              && var prompt, g := states[0].st.requests[id].prompt, states[|events|].st.requests[id].generated;
                 prompt != [] && g != Stream(model, prompt, |g|)
  {
    hide Reachable, Next, GreedyEvent, PICKS, NextToken, Stream;
    Served5();
    var st := Sched(SecondHolds(), First(4, Failed, Some("e")), Second([9, 9, 9], 3, Running), [], ["b"], 5, None);
    var states: seq<System>, events: seq<Event> :| Served(Start(), states, events, st);
    var plain := Stream(PICKS, [7, 8], 3);
    StreamAfter(PICKS, [7, 8], plain, 2);
    PicksIs([7, 8] + plain[..2]);
    assert plain != [9, 9, 9];
    assert GreedyTrace(PICKS, states, events) && "b" in states[0].st.requests && "b" in states[|events|].st.requests;
  }
}
