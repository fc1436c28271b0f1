/** `run_until_idle` (src/einf/lib.py:10-27) comes to an end under either policy, whatever the
    executor answers and however often it raises. */
module IdleServer {
  import opened Base
  import opened KvCaches
  import opened Requests
  import opened Policies
  import opened Schedules
  import opened SchedulerInvariants
  import opened SchedulerResults
  import opened FirstComeFirstServed
  import opened SchedulerObjects

  // ------------------------------------------------------------------- measure

  /** No context of the request ever gets longer. */
  function Longest(r: Req): nat { |r.prompt| + r.maxNewLen }

  /** How much a request still has to do: tokens to generate first, then tokens to compute. */
  function Left(r: Req): nat {
    if r.state.Waiting? || r.state.Running?
    then 1 + Span(Max(0, r.maxNewLen - |r.generated|), Longest(r) + 1) + Max(0, |r.Context()| - r.cachedLen)
    else 0
  }

  /** The tokens a request may still generate, and one more until it is done. */
  function Due(r: Req): nat {
    if r.state.Waiting? || r.state.Running? then 1 + Max(0, r.maxNewLen - |r.generated|) else 0
  }

  function DueOf(st: State, id: RequestId): nat {
    if id in st.requests then Due(st.requests[id]) else 0
  }

  function Dues(st: State, q: seq<RequestId>): nat {
    if q == [] then 0 else Dues(st, q[..|q| - 1]) + DueOf(st, q[|q| - 1])
  }

  lemma {:induction false} DuesDrop(st: State, st1: State, q: seq<RequestId>)
    requires forall k :: 0 <= k < |q| ==> DueOf(st1, q[k]) <= DueOf(st, q[k])
    ensures Dues(st1, q) <= Dues(st, q)
    ensures (exists k :: 0 <= k < |q| && DueOf(st1, q[k]) < DueOf(st, q[k])) ==> Dues(st1, q) < Dues(st, q)
  {
    hide DueOf;
    if q != [] {
      var front := q[..|q| - 1];
      assert forall k :: 0 <= k < |front| ==> front[k] == q[k];
      DuesDrop(st, st1, front);
      if k :| 0 <= k < |q| && DueOf(st1, q[k]) < DueOf(st, q[k]) {
        if k < |front| { assert front[k] == q[k]; }
      }
    }
  }

  function LeftOf(st: State, id: RequestId): nat {
    if id in st.requests then Left(st.requests[id]) else 0
  }

  /** The requests in `q` read as a number to the base `base`, the first the most significant. */
  function Rank(st: State, q: seq<RequestId>, base: nat): nat {
    if q == [] then 0 else Span(Rank(st, q[..|q| - 1], base), base) + LeftOf(st, q[|q| - 1])
  }

  ghost predicate Below(st: State, q: seq<RequestId>, base: nat) {
    forall k :: 0 <= k < |q| ==> LeftOf(st, q[k]) < base
  }

  /** Whoever has more left comes after someone who has less. */
  ghost predicate DropsFirst(st: State, st1: State, q: seq<RequestId>) {
    forall k :: 0 <= k < |q| && LeftOf(st1, q[k]) > LeftOf(st, q[k]) ==>
      exists j :: 0 <= j < k && LeftOf(st1, q[j]) < LeftOf(st, q[j])
  }

  ghost predicate DropsSomewhere(st: State, st1: State, q: seq<RequestId>) {
    exists k :: 0 <= k < |q| && LeftOf(st1, q[k]) < LeftOf(st, q[k])
  }

  lemma BelowNext(a: nat, b: nat, base: nat, x: nat)
    requires a < b && x < base
    ensures Span(a, base) + x < Span(b, base)
  {
    SpanMono(a + 1, b, base);
  }

  /** The lexicographic order: the rank falls with the first change. */
  lemma {:induction false} RankDrops(st: State, st1: State, q: seq<RequestId>, base: nat)
    requires DropsFirst(st, st1, q) && Below(st1, q, base)
    ensures Rank(st1, q, base) <= Rank(st, q, base)
    ensures DropsSomewhere(st, st1, q) ==> Rank(st1, q, base) < Rank(st, q, base)
  {
    if q != [] {
      var front, n := q[..|q| - 1], |q| - 1;
      var before, after := Rank(st, front, base), Rank(st1, front, base);
      RestDrops(st, st1, q);
      assert Below(st1, front, base);
      RankDrops(st, st1, front, base);
      if DropsSomewhere(st, st1, front) {
        BelowNext(after, before, base, LeftOf(st1, q[n]));
      } else {
        NoDropInFront(st, st1, q);
        SpanMono(after, before, base);
      }
    }
  }

  lemma RestDrops(st: State, st1: State, q: seq<RequestId>)
    requires q != [] && DropsFirst(st, st1, q)
    ensures DropsFirst(st, st1, q[..|q| - 1])
  {
    var front := q[..|q| - 1];
    forall k | 0 <= k < |front| && LeftOf(st1, front[k]) > LeftOf(st, front[k])
      ensures exists j :: 0 <= j < k && LeftOf(st1, front[j]) < LeftOf(st, front[j])
    {
      assert front[k] == q[k];
      var j :| 0 <= j < k && LeftOf(st1, q[j]) < LeftOf(st, q[j]);
      assert front[j] == q[j];
    }
  }

  lemma NoDropInFront(st: State, st1: State, q: seq<RequestId>)
    requires q != [] && DropsFirst(st, st1, q) && !DropsSomewhere(st, st1, q[..|q| - 1])
    ensures LeftOf(st1, q[|q| - 1]) <= LeftOf(st, q[|q| - 1])
    ensures DropsSomewhere(st, st1, q) ==> LeftOf(st1, q[|q| - 1]) < LeftOf(st, q[|q| - 1])
  {
    var front, n := q[..|q| - 1], |q| - 1;
    assert forall j :: 0 <= j < n ==> front[j] == q[j];
  }

  // ------------------------------------------------------------ one request

  lemma SpanPositive(n: nat, d: nat)
    requires n > 0
    ensures Span(n, d) == Span(n - 1, d) + d
  {
  }

  /** A result leaves less to do, also against what was left before admission. */
  lemma AdvancedLeft(r: Req, item: RequestResult)
    requires ReqOk(r) && r.state == Running && |r.generated| + |item.generated| <= r.maxNewLen && |item.generated| <= 1
    requires item.cachedLenDelta > 0 && r.cachedLen + item.cachedLenDelta <= |r.Context()|
    ensures Left(Advanced(r, item)) < Left(r) <= Left(Preempted(r))
  {
    var r1 := Advanced(r, item);
    assert r1.Context() == r.Context() + item.generated;
    if r1.state == Running && |item.generated| == 1 {
      SpanPositive(r.maxNewLen - |r.generated|, Longest(r) + 1);
    }
  }

  // ------------------------------------------------------------------ one round

  /** What the executor may do with a batch. */
  datatype Outcome = Answered(result: ExecutionResult) | Raised(message: string)

  /** An answer is for the batch it was given. */
  ghost predicate Fits(batch: BatchPlan, outcome: Outcome) {
    outcome.Answered? ==> outcome.result.stepId == batch.stepId && AnswersAll(batch.requests, outcome.result.results)
  }

  /** The same requests, as far as they were given at submission. */
  ghost predicate SameShapes(st: State, st1: State) {
    && st1.requests.Keys == st.requests.Keys
    && forall x :: x in st.requests ==> SameShape(st.requests[x], st1.requests[x])
  }

  ghost predicate SameShape(r: Req, r1: Req) {
    r1.arrival == r.arrival && r1.prompt == r.prompt && r1.maxNewLen == r.maxNewLen
  }

  lemma AdvancedShape(r: Req, item: RequestResult)
    ensures SameShape(r, Advanced(r, item))
  {
  }

  /** What becomes of the requests once the executor is done with a batch. */
  ghost predicate Settled(st: State, st1: State, batch: seq<ScheduledRequest>) {
    && SameShapes(st, st1)
    && (forall x :: x in st.requests && x in BatchIds(batch) ==>
          ReqOk(st.requests[x]) && LeftOf(st1, x) < LeftOf(st, x) && Left(st.requests[x]) <= Left(Preempted(st.requests[x])))
    && (forall x :: x in st.requests && x !in BatchIds(batch) ==> st1.requests[x] == st.requests[x])
    && (forall i :: 0 <= i < |batch| ==> ItemSettled(st, st1, batch[i]))
  }

  /** A sampling item brings its request closer to the end. */
  ghost predicate ItemSettled(st: State, st1: State, it: ScheduledRequest) {
    DueOf(st1, it.id) + (if it.needSample then 1 else 0) <= DueOf(st, it.id)
  }

  lemma AppliedSettles(st: State, batch: BatchPlan, result: ExecutionResult)
    requires Consistent(st) && st.outstanding == Some(batch) && Fits(batch, Answered(result))
    ensures var (st1, s) := st.ApplyResult(result); s == Done && Settled(st, st1, batch.requests)
  {
    hide Inv, Advanced, State.ApplyResult, Left, CommitFrame, Answers, BatchIds;
    ApplyResultOk(st, result);
    var st1 := st.ApplyResult(result).0;
    FrameKeys(st.(outstanding := None), st1);
    forall x | x in st.requests && x in BatchIds(batch.requests)
      ensures ReqOk(st.requests[x]) && Left(st1.requests[x]) < Left(st.requests[x]) <= Left(Preempted(st.requests[x]))
      ensures SameShape(st.requests[x], st1.requests[x])
    {
      assert x in ResultIds(result.results);
      var i :| 0 <= i < |result.results| && result.results[i].id == x;
      AnswerLeft(st, batch.requests, result.results[i]);
      AdvancedShape(st.requests[x], result.results[i]);
    }
    forall k | 0 <= k < |batch.requests| ensures ItemSettled(st, st1, batch.requests[k]) {
      var x := batch.requests[k].id;
      InBatchIds(batch.requests, k);
      assert x in ResultIds(result.results);
      var i :| 0 <= i < |result.results| && result.results[i].id == x;
      AnswerDue(st, batch.requests, result.results[i], k);
    }
  }

  lemma InBatchIds(batch: seq<ScheduledRequest>, k: nat)
    requires k < |batch|
    ensures batch[k].id in BatchIds(batch)
  {
  }

  lemma AnswerDue(st: State, batch: seq<ScheduledRequest>, item: RequestResult, k: nat)
    requires Inv(st, batch) && Answers(batch, item) && k < |batch| && batch[k].id == item.id
    ensures item.id in st.requests
    ensures Due(Advanced(st.requests[item.id], item)) + (if batch[k].needSample then 1 else 0) <= Due(st.requests[item.id])
  {
    hide CacheInv, LengthsOk, ListsOk, FindItem;
    FoundAt(st, batch, k);
    AnsweredRequest(st, batch, item);
    AnsweredItem(st, batch, item);
    AnswerFits(st, batch, item);
  }

  lemma FoundAt(st: State, batch: seq<ScheduledRequest>, k: nat)
    requires Inv(st, batch) && k < |batch|
    ensures FindItem(batch, batch[k].id) == Some(batch[k])
  {
    hide CacheInv, LengthsOk;
    FindItemAt(batch, k);
  }

  lemma FrameKeys(st: State, st1: State)
    requires CommitFrame(st, st1)
    ensures st1.requests.Keys == st.requests.Keys
  {
  }

  lemma AnswerLeft(st: State, batch: seq<ScheduledRequest>, item: RequestResult)
    requires Inv(st, batch) && Answers(batch, item)
    ensures item.id in st.requests
    ensures var r := st.requests[item.id]; ReqOk(r) && Left(Advanced(r, item)) < Left(r) <= Left(Preempted(r))
  {
    hide CacheInv, LengthsOk, ListsOk, Left, Advanced, FindItem;
    AnsweredRequest(st, batch, item);
    AnsweredItem(st, batch, item);
    var r := st.requests[item.id];
    assert ReqOk(r);
    AnswerFits(st, batch, item);
    AdvancedLeft(r, item);
  }

  lemma AnswerFits(st: State, batch: seq<ScheduledRequest>, item: RequestResult)
    requires Answers(batch, item) && item.id in st.requests && ReqOk(st.requests[item.id])
    requires ItemOk(st, FindItem(batch, item.id).value) && FindItem(batch, item.id).value.id == item.id
    ensures var r := st.requests[item.id];
            && r.state == Running && |item.generated| <= 1 && |r.generated| + |item.generated| <= r.maxNewLen
            && item.cachedLenDelta > 0 && r.cachedLen + item.cachedLenDelta <= |r.Context()|
  {
  }

  lemma FailedSettles(st: State, batch: BatchPlan, message: string)
    requires Consistent(st) && st.outstanding == Some(batch)
    ensures var (st1, s) := st.FailBatch(batch, message); s == Done && Settled(st, st1, batch.requests)
  {
    hide Inv, State.FailBatch, CommitFrame, BatchIds, TablesWithin;
    FailBatchOk(st, batch, message);
    FrameKeys(st.(outstanding := None), st.FailBatch(batch, message).0);
    forall x | x in st.requests && x in BatchIds(batch.requests)
      ensures ReqOk(st.requests[x]) && st.requests[x].state == Running
    {
      BatchMember(st, batch.requests, x);
    }
    forall k | 0 <= k < |batch.requests| ensures ItemSettled(st, st.FailBatch(batch, message).0, batch.requests[k]) {
      InBatchIds(batch.requests, k);
      BatchMember(st, batch.requests, batch.requests[k].id);
    }
  }

  lemma BatchMember(st: State, batch: seq<ScheduledRequest>, x: RequestId)
    requires Inv(st, batch) && x in BatchIds(batch)
    ensures x in st.requests && ReqOk(st.requests[x]) && st.requests[x].state == Running
  {
    hide CacheInv, LengthsOk, ReqOk;
    var i :| 0 <= i < |batch| && batch[i].id == x;
    assert ItemOk(st, batch[i]);
  }

  // ------------------------------------------------------------------- a round

  /** Where a round of scheduling went: the sweep over the running requests, then admission. */
  ghost predicate Scheduled(st: State, mid: State, sel: seq<ScheduledRequest>, st1: State, batch: seq<ScheduledRequest>) {
    && Inv(st, []) && Inv(mid, sel) && SweepFrame(st, mid) && Justified(st, mid, sel)
    && OnlyAdmitted(mid, sel, st1, batch) && BatchFirst(st, mid, sel)
    && (sel == [] ==> mid.running == [])
    && forall i :: 0 <= i < |sel| ==> mid.IsIn(sel[i].id, Running)
  }

  lemma ScheduleRound(st: State) returns (mid: State, sel: seq<ScheduledRequest>)
    requires Consistent(st) && st.outstanding == None && st.Schedule().1.Ok? && st.Schedule().1.value.Some?
    ensures Scheduled(st, mid, sel, st.Schedule().0, st.Schedule().1.value.value.requests)
  {
    hide Sweep.RunAll, Sweep.AdmitAll, Inv, Fifo, OnlyAdmitted, SweepFrame, Justified, PreemptedLater, BatchFirst;
    SweepPreemptsLater(st);
    SweepFifo(st);
    var sw := SweepOf(st).0;
    SweepAdmits(st, sw);
    AdmitAllOk(st.config, sw);
    AdmitAllFifo(st.config, sw);
    mid, sel := sw.st, sw.selected;
    var sw1 := sw.AdmitAll().0;
    forall i | 0 <= i < |sel| ensures mid.IsIn(sel[i].id, Running) { BatchStart(mid, sel, i); }
    if sel == [] { NoneLeft(st, sw); }
    OnlyAdmittedFrame(mid, sel, sw1.st, sw1.selected, st.Schedule().0);
  }

  lemma NoneLeft(st: State, sw: Sweep)
    requires SweepOk(st, sw) && sw.selected == []
    requires sw.remaining > 0 ==> forall u :: u in sw.st.running ==> u in BatchIds(sw.selected)
    ensures sw.st.running == []
  {
    hide SweepInv;
    HasMember(sw.st.running);
  }

  lemma HasMember(q: seq<RequestId>)
    ensures q != [] ==> exists x :: x in q
  {
    if q != [] { assert q[0] in q; }
  }

  lemma BatchStart(st: State, batch: seq<ScheduledRequest>, i: nat)
    requires Inv(st, batch) && i < |batch|
    ensures st.IsIn(batch[i].id, Running)
  {
    hide CacheInv, LengthsOk;
    assert ItemOk(st, batch[i]);
  }

  lemma OnlyAdmittedFrame(st: State, batch: seq<ScheduledRequest>, st1: State, batch1: seq<ScheduledRequest>, st2: State)
    requires OnlyAdmitted(st, batch, st1, batch1) && st2.requests == st1.requests
    ensures OnlyAdmitted(st, batch, st2, batch1)
  {
  }

  ghost predicate WasPreempted(st: State, mid: State, x: RequestId) { st.IsIn(x, Running) && mid.IsIn(x, Waiting) }

  /** Only who was preempted may have more left; who was served has less. */
  lemma LeftChange(st: State, mid: State, sel: seq<ScheduledRequest>, st1: State, batch: seq<ScheduledRequest>, st2: State, x: RequestId)
    requires Scheduled(st, mid, sel, st1, batch) && Settled(st1, st2, batch) && x in st.requests
    ensures LeftOf(st2, x) > LeftOf(st, x) ==> WasPreempted(st, mid, x)
    ensures x in BatchIds(sel) || (st.IsIn(x, Running) && mid.IsIn(x, Failed)) ==> LeftOf(st2, x) < LeftOf(st, x)
    ensures x in BatchIds(batch) ==> LeftOf(st2, x) < LeftOf(st, x) || WasPreempted(st, mid, x)
  {
    hide Inv, Justified, Left;
    var r, rm, r1, r2 := st.requests[x], mid.requests[x], st1.requests[x], st2.requests[x];
    assert SweptReq(r, rm);
    SelectedRun(mid, sel, x);
    KeptLeft(st, x);
    LeftPositive(r);
    LeftPositive(rm);
    if x in BatchIds(batch) && x !in BatchIds(sel) {
      assert Preempted(r1) == Preempted(rm);
      if r.state == Waiting { assert Preempted(r1) == r; }
    }
  }

  lemma SelectedRun(mid: State, sel: seq<ScheduledRequest>, x: RequestId)
    requires forall i :: 0 <= i < |sel| ==> mid.IsIn(sel[i].id, Running)
    ensures x in BatchIds(sel) ==> mid.IsIn(x, Running)
  {
  }

  lemma KeptLeft(st: State, x: RequestId)
    requires Inv(st, []) && x in st.requests
    ensures st.requests[x].state == Waiting ==> st.requests[x].cachedLen == 0
  {
    hide CacheOk, LengthsOk, BatchOk;
    assert ReqOk(st.requests[x]);
  }

  lemma LeftPositive(r: Req)
    ensures Left(r) > 0 <==> r.state.Waiting? || r.state.Running?
  {
  }

  /** `q` lists every request that is not done, in arrival order. */
  ghost predicate Agenda(st: State, q: seq<RequestId>) {
    && Ascending(st, q)
    && forall x :: x in st.requests && LeftOf(st, x) > 0 ==> x in q
  }

  /** Whoever is running is ordered by arrival: always under Fcfs, and else as long as nobody decodes. */
  ghost predicate ByArrival(st: State) {
    st.policy == Fcfs || forall u :: u in st.running ==> u in st.requests && WorkTypeOf(st.requests[u]) == Prefill
  }

  lemma PrecedesByArrival(st: State, a: RequestId, b: RequestId)
    requires ByArrival(st) && ArrivalsOk(st) && a in st.running && b in st.running && a != b && Precedes(st, a, b)
    ensures st.requests[a].arrival < st.requests[b].arrival
  {
  }

  /** Nobody has more tokens due after a round than before. */
  lemma DueKept(st: State, mid: State, sel: seq<ScheduledRequest>, st1: State, batch: seq<ScheduledRequest>, st2: State, x: RequestId)
    requires Scheduled(st, mid, sel, st1, batch) && Settled(st1, st2, batch)
    ensures DueOf(st2, x) <= DueOf(st, x)
  {
    hide Inv, Justified, BatchFirst, LeftOf, ReqOk;
    if x in st.requests {
      assert SweptReq(st.requests[x], mid.requests[x]);
      if x in BatchIds(batch) {
        var i :| 0 <= i < |batch| && batch[i].id == x;
        assert ItemSettled(st1, st2, batch[i]);
      }
    }
  }

  /** The first of the running requests in the policy's order is served in every round. */
  lemma FirstIsServed(st: State, mid: State, sel: seq<ScheduledRequest>, st1: State, batch: seq<ScheduledRequest>, d: RequestId)
    requires Scheduled(st, mid, sel, st1, batch) && d in st.running
    requires forall x :: x in st.running ==> !Precedes(st, x, d)
    ensures d in BatchIds(sel) || mid.IsIn(d, Failed)
  {
    hide CacheOk, LengthsOk, BatchOk, Precedes, BatchIds, OnlyAdmitted;
    ListsMember(st, d);
    assert SweptReq(st.requests[d], mid.requests[d]);
    ListsMember(mid, d);
    assert !(exists x :: Served(st, mid, sel, x) && Precedes(st, x, d));
    if sel != [] {
      var x := sel[0].id;
      assert mid.IsIn(x, Running) && SweptReq(st.requests[x], mid.requests[x]);
      ListsMember(st, x);
    }
  }

  /** So when somebody decodes and decoding comes first, a round leaves fewer tokens due. */
  lemma DecodingDrops(st: State, mid: State, sel: seq<ScheduledRequest>, st1: State, batch: seq<ScheduledRequest>, st2: State)
    returns (d: RequestId)
    requires Scheduled(st, mid, sel, st1, batch) && Settled(st1, st2, batch) && Inv(st1, batch) && !ByArrival(st)
    ensures d in st.requests && DueOf(st2, d) < DueOf(st, d) && LeftOf(st, d) > 0
  {
    hide Scheduled, Settled, Inv, Precedes;
    assert Inv(st, []) by { ScheduledInv(st, mid, sel, st1, batch); }
    d := FirstDecodes(st);
    FirstIsServed(st, mid, sel, st1, batch, d);
    LeftPositive(st.requests[d]);
    ServedDue(st, mid, sel, st1, batch, st2, d);
  }

  lemma ScheduledInv(st: State, mid: State, sel: seq<ScheduledRequest>, st1: State, batch: seq<ScheduledRequest>)
    requires Scheduled(st, mid, sel, st1, batch)
    ensures Inv(st, [])
  {
    hide Inv;
  }

  lemma FirstDecodes(st: State) returns (d: RequestId)
    requires Inv(st, []) && !ByArrival(st)
    ensures d in st.running && st.IsIn(d, Running) && WorkTypeOf(st.requests[d]) == Decode
    ensures forall x :: x in st.running ==> !Precedes(st, x, d)
  {
    hide CacheInv, LengthsOk;
    var e :| e in st.running && !(e in st.requests && WorkTypeOf(st.requests[e]) == Prefill);
    ListsMember(st, e);
    d := FirstInOrder(st);
    ListsMember(st, d);
    assert d != e ==> Precedes(st, d, e);
  }

  lemma FirstInOrder(st: State) returns (d: RequestId)
    requires ArrivalsOk(st) && ListsOk(st) && st.running != []
    ensures d in st.running && forall x :: x in st.running ==> !Precedes(st, x, d) && (x != d ==> Precedes(st, d, x))
  {
    hide ListsOk, Precedes, ArrivalsOk;
    OrderedRunningOk(st);
    var ids := Ids(st.OrderedRunning());
    assert st.running[0] in st.running;
    assert st.running[0] in ids;
    d := ids[0];
    assert d in ids;
    forall x | x in st.running ensures !Precedes(st, x, d) && (x != d ==> Precedes(st, d, x)) {
      assert x in ids;
      var j :| 0 <= j < |ids| && ids[j] == x;
      if j > 0 { assert Precedes(st, ids[0], ids[j]); }
      PrecedesIrreflexive(st, d);
      if x != d { NotBoth(st, d, x); }
    }
  }

  lemma NotBoth(st: State, a: RequestId, b: RequestId)
    requires ArrivalsOk(st) && a != b && Precedes(st, a, b)
    ensures !Precedes(st, b, a)
  {
    BeforeTotal(st.policy, st.PolicyRequestOf(a), st.PolicyRequestOf(b));
  }

  lemma ServedDue(st: State, mid: State, sel: seq<ScheduledRequest>, st1: State, batch: seq<ScheduledRequest>, st2: State, d: RequestId)
    requires Scheduled(st, mid, sel, st1, batch) && Settled(st1, st2, batch) && Inv(st1, batch)
    requires st.IsIn(d, Running) && WorkTypeOf(st.requests[d]) == Decode && (d in BatchIds(sel) || mid.IsIn(d, Failed))
    ensures DueOf(st2, d) < DueOf(st, d)
  {
    hide Inv, Justified, BatchFirst, LeftOf, Due;
    assert SweptReq(st.requests[d], mid.requests[d]);
    SelectedRun(mid, sel, d);
    FailedDue(st.requests[d], mid.requests[d]);
    if d in BatchIds(sel) {
      assert d in BatchIds(batch);
      var i :| 0 <= i < |batch| && batch[i].id == d;
      DecodeSamples(st1, batch, i);
      assert ItemSettled(st1, st2, batch[i]);
    }
  }

  lemma FailedDue(r: Req, r1: Req)
    ensures r.state == Running && r1.state == Failed ==> Due(r1) < Due(r)
  {
  }

  lemma DecodeSamples(st: State, batch: seq<ScheduledRequest>, i: nat)
    requires Inv(st, batch) && i < |batch|
    ensures batch[i].id in st.requests && WorkTypeOf(st.requests[batch[i].id]) == Decode ==> batch[i].needSample
  {
    hide CacheInv, LengthsOk;
    assert ItemOk(st, batch[i]);
  }

  /** The first request, in arrival order, whose remaining work changes has less left. */
  lemma RoundDrops(st: State, mid: State, sel: seq<ScheduledRequest>, st1: State, batch: seq<ScheduledRequest>, st2: State, q: seq<RequestId>)
    requires Scheduled(st, mid, sel, st1, batch) && Settled(st1, st2, batch) && Agenda(st, q)
    requires ByArrival(st) && batch != [] && batch[0].id in st.requests
    ensures DropsFirst(st, st2, q) && DropsSomewhere(st, st2, q)
  {
    hide Scheduled, Settled, LeftOf, WasPreempted;
    forall k | 0 <= k < |q| && LeftOf(st2, q[k]) > LeftOf(st, q[k])
      ensures exists j :: 0 <= j < k && LeftOf(st2, q[j]) < LeftOf(st, q[j])
    {
      LeftChange(st, mid, sel, st1, batch, st2, q[k]);
      var j := Blamed(st, mid, sel, st1, batch, st2, q, q[k]);
      EarlierIndex(st, q, j, k);
    }
    assert batch[0].id in BatchIds(batch);
    LeftChange(st, mid, sel, st1, batch, st2, batch[0].id);
    if LeftOf(st2, batch[0].id) < LeftOf(st, batch[0].id) {
      var k :| 0 <= k < |q| && q[k] == batch[0].id;
    } else {
      var j := Blamed(st, mid, sel, st1, batch, st2, q, batch[0].id);
    }
  }

  /** Nobody joins the agenda in a round. */
  lemma AgendaKept(st: State, mid: State, sel: seq<ScheduledRequest>, st1: State, batch: seq<ScheduledRequest>, st2: State, q: seq<RequestId>)
    requires Scheduled(st, mid, sel, st1, batch) && Settled(st1, st2, batch) && Agenda(st, q)
    ensures forall x :: x in st.requests && LeftOf(st2, x) > 0 ==> x in q
  {
    hide Scheduled, Settled, LeftOf, WasPreempted;
    forall x | x in st.requests && LeftOf(st2, x) > 0 ensures x in q {
      LeftChange(st, mid, sel, st1, batch, st2, x);
      PreemptedActive(st, mid, x);
    }
  }

  lemma EarlierIndex(st: State, q: seq<RequestId>, j: nat, k: nat)
    requires Ascending(st, q) && j < |q| && k < |q| && st.requests[q[j]].arrival < st.requests[q[k]].arrival
    ensures j < k
  {
  }

  lemma PreemptedActive(st: State, mid: State, x: RequestId)
    ensures WasPreempted(st, mid, x) ==> LeftOf(st, x) > 0
  {
  }

  lemma Blamed(st: State, mid: State, sel: seq<ScheduledRequest>, st1: State, batch: seq<ScheduledRequest>, st2: State,
               q: seq<RequestId>, v: RequestId) returns (j: nat)
    requires Scheduled(st, mid, sel, st1, batch) && Settled(st1, st2, batch) && Agenda(st, q)
    requires ByArrival(st) && WasPreempted(st, mid, v)
    ensures j < |q| && LeftOf(st2, q[j]) < LeftOf(st, q[j])
    ensures st.requests[q[j]].arrival < st.requests[v].arrival
  {
    hide Inv, SweepFrame, OnlyAdmitted, Settled, LeftOf, Precedes, BatchIds;
    InvLists(st, []);
    ListsMember(st, v);
    var y :| Served(st, mid, sel, y) && Precedes(st, y, v);
    if y == v { PrecedesIrreflexive(st, v); }
    PrecedesByArrival(st, y, v);
    ListsMember(st, y);
    LeftChange(st, mid, sel, st1, batch, st2, y);
    j :| 0 <= j < |q| && q[j] == y;
  }

  // ------------------------------------------------------------------- the loop

  /** An upper bound on what a request can ever have left. */
  function Bound(r: Req): nat { 2 + Span(r.maxNewLen, Longest(r) + 1) + Longest(r) }

  function Radix(st: State, q: seq<RequestId>): nat {
    if q == [] then 0
    else Max(Radix(st, q[..|q| - 1]), if q[|q| - 1] in st.requests then Bound(st.requests[q[|q| - 1]]) else 0)
  }

  lemma LeftBelowBound(r: Req)
    requires |r.generated| <= r.maxNewLen
    ensures Left(r) < Bound(r)
  {
    SpanMono(r.maxNewLen - |r.generated|, r.maxNewLen, Longest(r) + 1);
  }

  lemma {:induction false} RadixAbove(st: State, q: seq<RequestId>, k: nat)
    requires k < |q| && q[k] in st.requests
    ensures Bound(st.requests[q[k]]) <= Radix(st, q)
  {
    hide Bound;
    if k < |q| - 1 { RadixAbove(st, q[..|q| - 1], k); }
  }

  lemma {:induction false} RadixFrame(st: State, st1: State, q: seq<RequestId>)
    requires SameShapes(st, st1)
    ensures Radix(st1, q) == Radix(st, q)
  {
    if q != [] { RadixFrame(st, st1, q[..|q| - 1]); }
  }

  lemma BelowRadix(st: State, q: seq<RequestId>)
    requires RequestsOk(st) && Agenda(st, q)
    ensures Below(st, q, Radix(st, q))
  {
    hide Bound, Left;
    forall k | 0 <= k < |q| ensures LeftOf(st, q[k]) < Radix(st, q) {
      var r := st.requests[q[k]];
      assert ReqOk(r);
      RadixAbove(st, q, k);
      LeftBelowBound(r);
    }
  }

  /** What the server keeps between two rounds. */
  ghost predicate Ready(st: State, q: seq<RequestId>) {
    Consistent(st) && st.outstanding == None && Agenda(st, q)
  }

  /** One round of `run_once`, for a batch and what the executor made of it. */
  function Finish(st: State, batch: BatchPlan, outcome: Outcome): (State, Status) {
    match outcome
    case Answered(result) => st.ApplyResult(result)
    case Raised(message) => st.FailBatch(batch, message)
  }

  lemma FinishOk(st1: State, batch: BatchPlan, outcome: Outcome)
    requires Consistent(st1) && st1.outstanding == Some(batch) && Fits(batch, outcome)
    ensures var (st2, s) := Finish(st1, batch, outcome);
            s == Done && Consistent(st2) && st2.outstanding == None && Settled(st1, st2, batch.requests)
  {
    hide Inv, Settled, AnswersAll, Advanced, CommitFrame, State.ApplyResult, State.FailBatch, BatchIds, TablesWithin;
    match outcome {
      case Answered(result) =>
        AppliedSettles(st1, batch, result);
        ApplyResultOk(st1, result);
      case Raised(message) =>
        FailedSettles(st1, batch, message);
        FailBatchOk(st1, batch, message);
    }
  }

  /** Fewer tokens are due, or as many and the rank is lower. */
  ghost predicate Lighter(st: State, st1: State, q: seq<RequestId>, base: nat) {
    Dues(st1, q) < Dues(st, q) || (Dues(st1, q) == Dues(st, q) && Rank(st1, q, base) < Rank(st, q, base))
  }

  /** A round with a batch leaves less to do, under either policy and however the executor ends it:
      so `run_until_idle` terminates. */
  lemma RunOnceProgress(st: State, outcome: Outcome, q: seq<RequestId>)
    requires Ready(st, q) && st.Schedule().1.Ok? && st.Schedule().1.value.Some?
    requires Fits(st.Schedule().1.value.value, outcome)
    ensures var (st1, r) := st.Schedule();
            var (st2, s) := Finish(st1, r.value.value, outcome);
            && s == Done && Ready(st2, q) && SameShapes(st, st2)
            && Lighter(st, st2, q, Radix(st, q))
  {
    hide Inv, Settled, State.Schedule, Scheduled, Lighter, Radix, Finish, Fits, Agenda, ItemLimits, ByArrival;
    var (st1, r) := st.Schedule();
    var batch := r.value.value;
    ScheduleOk(st);
    var mid, sel := ScheduleRound(st);
    FinishOk(st1, batch, outcome);
    var st2 := Finish(st1, batch, outcome).0;
    RoundShapes(st, mid, sel, st1, batch.requests, st2);
    AgendaKept(st, mid, sel, st1, batch.requests, st2, q);
    AgendaStays(st, st2, q);
    RequestsInv(st2);
    BelowRadix(st2, q);
    RadixFrame(st, st2, q);
    RoundLighter(st, mid, sel, st1, batch.requests, st2, q, Radix(st, q));
  }

  lemma RoundLighter(st: State, mid: State, sel: seq<ScheduledRequest>, st1: State, batch: seq<ScheduledRequest>, st2: State,
                     q: seq<RequestId>, base: nat)
    requires Scheduled(st, mid, sel, st1, batch) && Settled(st1, st2, batch) && Inv(st1, batch) && batch != []
    requires Agenda(st, q) && Below(st2, q, base)
    ensures Lighter(st, st2, q, base)
  {
    hide Scheduled, Settled, Inv, Rank, Dues, DueOf, LeftOf, ByArrival, Ascending, Below;
    forall k | 0 <= k < |q| ensures DueOf(st2, q[k]) <= DueOf(st, q[k]) {
      DueKept(st, mid, sel, st1, batch, st2, q[k]);
    }
    DuesDrop(st, st2, q);
    if ByArrival(st) {
      ScheduledIds(st, mid, sel, st1, batch);
      RoundDrops(st, mid, sel, st1, batch, st2, q);
      RankDrops(st, st2, q, base);
    } else {
      var d := DecodingDrops(st, mid, sel, st1, batch, st2);
      var k :| 0 <= k < |q| && q[k] == d;
    }
  }

  lemma RequestsInv(st: State)
    requires Consistent(st)
    ensures RequestsOk(st)
  {
  }

  lemma SweptShape(r: Req, r1: Req, r2: Req)
    requires SweptReq(r, r1) && r2.(state := Running, cachedLen := 0) == r1.(state := Running, cachedLen := 0)
    ensures SameShape(r, r2)
  {
  }

  lemma RoundShapes(st: State, mid: State, sel: seq<ScheduledRequest>, st1: State, batch: seq<ScheduledRequest>, st2: State)
    requires Scheduled(st, mid, sel, st1, batch) && Settled(st1, st2, batch)
    ensures SameShapes(st, st2)
  {
    hide Inv, Justified, BatchIds, LeftOf, ReqOk, Left, SweptReq;
    forall x | x in st.requests ensures SameShape(st.requests[x], st2.requests[x]) {
      assert SweptReq(st.requests[x], mid.requests[x]);
      assert st1.requests[x].(state := Running, cachedLen := 0) == mid.requests[x].(state := Running, cachedLen := 0);
      SweptShape(st.requests[x], mid.requests[x], st1.requests[x]);
    }
  }

  lemma ScheduledIds(st: State, mid: State, sel: seq<ScheduledRequest>, st1: State, batch: seq<ScheduledRequest>)
    requires Scheduled(st, mid, sel, st1, batch) && batch != [] && Inv(st1, batch)
    ensures batch[0].id in st.requests
  {
    hide Justified, BatchIds, CacheInv, LengthsOk;
    BatchStart(st1, batch, 0);
  }

  lemma AgendaStays(st: State, st1: State, q: seq<RequestId>)
    requires Agenda(st, q) && SameShapes(st, st1)
    requires forall x :: x in st.requests && LeftOf(st1, x) > 0 ==> x in q
    ensures Agenda(st1, q)
  {
    hide LeftOf;
  }

  /** The requests of a set, in arrival order. */
  lemma {:induction false} InArrivalOrder(st: State, ids: set<RequestId>) returns (q: seq<RequestId>)
    requires ArrivalsOk(st) && ids <= st.requests.Keys
    ensures Ascending(st, q) && forall x :: x in q <==> x in ids
    decreases |ids|
  {
    if ids == {} {
      q := [];
    } else {
      var last := Latest(st, ids);
      var front := InArrivalOrder(st, ids - {last});
      forall i | 0 <= i < |front| ensures front[i] in ids && front[i] != last { assert front[i] in front; }
      q := front + [last];
    }
  }

  lemma {:induction false} Latest(st: State, ids: set<RequestId>) returns (x: RequestId)
    requires ArrivalsOk(st) && ids <= st.requests.Keys && ids != {}
    ensures x in ids && forall y :: y in ids && y != x ==> st.requests[y].arrival < st.requests[x].arrival
    decreases |ids|
  {
    x :| x in ids;
    var rest := ids - {x};
    assert forall z :: z in ids <==> z in rest || z == x;
    if rest != {} {
      var y := Latest(st, rest);
      assert st.requests[x].arrival != st.requests[y].arrival;
      if st.requests[x].arrival < st.requests[y].arrival { x := y; }
    }
  }

  lemma StartAgenda(st: State) returns (q: seq<RequestId>)
    requires Consistent(st)
    ensures Agenda(st, q)
  {
    hide CacheOk, BatchOk, LengthsOk, ListsOk, LeftOf;
    q := InArrivalOrder(st, st.requests.Keys);
  }

  /** What `run_until_idle` leaves: nothing running, and the queue empty or its head too large for
      the cache. */
  ghost predicate Idle(st: State) {
    Consistent(st) && st.outstanding == None && st.running == [] && (st.waiting == [] || HeadTooLarge(st))
  }

  class LLMServer {
    const scheduler: Scheduler
    const execute: (nat, BatchPlan) -> Outcome

    constructor (scheduler: Scheduler, execute: (nat, BatchPlan) -> Outcome)
      ensures this.scheduler == scheduler && this.execute == execute
    {
      this.scheduler := scheduler;
      this.execute := execute;
    }

    /** The executor answers, in round `k`, what it is asked, or raises. */
    ghost predicate Answers() {
      forall k: nat, batch: BatchPlan :: Fits(batch, execute(k, batch))
    }

    method RunOnce(k: nat, ghost q: seq<RequestId>) returns (more: bool)
      requires scheduler.Valid() && Ready(scheduler.View(), q) && Answers()
      modifies scheduler.Repr()
      ensures scheduler.Valid() && fresh(scheduler.Repr() - old(scheduler.Repr()))
      ensures more ==>
                && Ready(scheduler.View(), q) && SameShapes(old(scheduler.View()), scheduler.View())
                && Lighter(old(scheduler.View()), scheduler.View(), q, Radix(old(scheduler.View()), q))
      ensures !more ==> Idle(scheduler.View())
    {
      hide Inv, Agenda, State.Schedule, State.ApplyResult, State.FailBatch, Lighter, Radix, SameShapes, HeadTooLarge, Fits, ItemLimits;
      ghost var st := scheduler.View();
      ScheduleOk(st);
      var planned := scheduler.Schedule();
      if planned.Err? {
        assert false;
        return false;
      }
      if planned.value.None? {
        return false;
      }
      var batch := planned.value.value;
      var outcome := execute(k, batch);
      RunOnceProgress(st, outcome, q);
      var s;
      match outcome {
        case Answered(result) => s := scheduler.ApplyResult(result);
        case Raised(message) => s := scheduler.FailBatch(batch, message);
      }
      return true;
    }

    method RunUntilIdle()
      requires scheduler.Valid() && Answers()
      requires Consistent(scheduler.View()) && scheduler.View().outstanding == None
      modifies scheduler.Repr()
      ensures scheduler.Valid() && fresh(scheduler.Repr() - old(scheduler.Repr()))
      ensures Idle(scheduler.View())
    {
      hide Inv, Agenda, Rank, Dues, Radix, SameShapes, Idle;
      ghost var q := StartAgenda(scheduler.View());
      ghost var radix := Radix(scheduler.View(), q);
      var more, k: nat := true, 0;
      while more
        invariant scheduler.Valid() && fresh(scheduler.Repr() - old(scheduler.Repr()))
        invariant more ==> Ready(scheduler.View(), q) && Radix(scheduler.View(), q) == radix
        invariant !more ==> Idle(scheduler.View())
        decreases more, Dues(scheduler.View(), q), Rank(scheduler.View(), q, radix)
      {
        ghost var st := scheduler.View();
        more := RunOnce(k, q);
        if more { RadixFrame(st, scheduler.View(), q); }
        k := k + 1;
      }
    }
  }
}
