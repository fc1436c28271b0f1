/** Results, failures and cancellation: what they keep, and that a transaction that fails half
    way is undone exactly. */
module SchedulerResults {
  import opened Base
  import opened KvCaches
  import opened Requests
  import opened Schedules
  import opened SchedulerInvariants

  // ------------------------------------------------------- submit and cancel

  /** Submitting either refuses, leaving everything alone, or queues a new request last. */
  lemma SubmitOk(st: State, spec: RequestSpec)
    requires Consistent(st)
    ensures var (st1, s) := st.Submit(spec);
            && Consistent(st1)
            && (s == Done <==> spec.requestId !in st.requests && spec.promptTokenIds != [] && spec.maxNewLen > 0)
            && (s.Failure? ==> st1 == st)
            && (s == Done ==>
                  && st1.waiting == st.waiting + [spec.requestId] && st1.running == st.running
                  && st1.cache == st.cache && st1.outstanding == st.outstanding
                  && st1.requests.Keys == st.requests.Keys + {spec.requestId}
                  && (forall x :: x in st.requests ==> st1.requests[x] == st.requests[x])
                  && st1.nextArrival == st.nextArrival + 1
                  && st1.requests[spec.requestId] ==
                       Req(spec.requestId, spec.promptTokenIds, st.nextArrival, spec.maxNewLen, spec.samplingParams,
                           0, [], Waiting, 0, None, None))
  {
    hide CacheInv, LengthsOk, BatchOk, ReqOk;
    CreatedOk(spec, st.nextArrival);
    var (st1, s) := st.Submit(spec);
    if s == Done {
      var batch := if st.outstanding.Some? then st.outstanding.value.requests else [];
      SubmitLists(st, st1, spec.requestId);
      assert OwnedOf(st1) == OwnedOf(st);
      SubmitBatch(st, st1, batch, spec.requestId);
    }
  }

  ghost predicate Queued(st: State, st1: State, id: RequestId) {
    && id !in st.requests && st1.requests.Keys == st.requests.Keys + {id}
    && (forall x :: x in st.requests ==> st1.requests[x] == st.requests[x])
    && st1.requests[id].state == Waiting
    && st1.running == st.running && st1.waiting == st.waiting + [id] && st1.cache == st.cache
  }

  lemma SubmitLists(st: State, st1: State, id: RequestId)
    requires ListsOk(st) && Queued(st, st1, id)
    ensures ListsOk(st1)
  {
    assert id !in st.waiting && id !in st.running;
    DisjointConcat(st.waiting, [id]);
    forall x ensures x in st1.running <==> st1.IsIn(x, Running) {
      assert x in st.running <==> st.IsIn(x, Running);
    }
    forall x ensures x in st1.waiting <==> st1.IsIn(x, Waiting) {
      assert x in st.waiting <==> st.IsIn(x, Waiting);
    }
  }

  lemma SubmitBatch(st: State, st1: State, batch: seq<ScheduledRequest>, id: RequestId)
    requires BatchOk(st, batch) && LengthsOk(st, batch) && ListsOk(st) && Queued(st, st1, id)
    ensures BatchOk(st1, batch) && LengthsOk(st1, batch)
  {
    forall i | 0 <= i < |batch| ensures ItemOk(st1, batch[i]) {
      assert ItemOk(st, batch[i]);
      ItemFrame(st, st1, batch[i]);
    }
    assert id !in st.running;
  }

  /** Cancelling a waiting, running or already cancelled request outside the batch succeeds and
      takes it out of both lists and its blocks out of the cache; anything else is refused and
      changes nothing. */
  lemma CancelOk(st: State, id: RequestId)
    requires Consistent(st)
    ensures var (st1, s) := st.Cancel(id);
            && Consistent(st1)
            && (s == Done <==>
                  && id in st.requests && !st.BatchContains(id)
                  && (st.IsIn(id, Waiting) || st.IsIn(id, Running) || st.IsIn(id, Cancelled)))
            && (s.Failure? ==> st1 == st)
            && (s == Done ==>
                  && st1.requests == st.requests[id := st.requests[id].(state := Cancelled)]
                  && st1.running == Without(st.running, id) && st1.waiting == Without(st.waiting, id)
                  && st1.outstanding == st.outstanding
                  && Stopped(st, st1, id, st.requests[id].(state := Cancelled)))
  {
    hide CacheInv, LengthsOk, BatchOk, Cache.Release;
    var (st1, s) := st.Cancel(id);
    var batch := if st.outstanding.Some? then st.outstanding.value.requests else [];
    if id in st.requests {
      assert ReqOk(st.requests[id]);
      assert st.requests[id := st.requests[id]] == st.requests;
      if !st.BatchContains(id) && (st.IsIn(id, Waiting) || st.IsIn(id, Running) || st.IsIn(id, Cancelled)) {
        var r := st.requests[id].(state := Cancelled);
        WithoutElements(st.running, id);
        WithoutDistinct(st.running, id);
        FindItemMeans(batch, id);
        assert Stopped(st, st1, id, r);
        StoppedCache(st, st1, id, r);
        LeaveLists(st, st1, id, r);
        assert ReqOk(r);
        StoppedInv(st, st1, id, r, batch);
      }
    }
  }

  // ------------------------------------------------------------ one result

  function Drop(batch: seq<ScheduledRequest>, id: RequestId): seq<ScheduledRequest> {
    if batch == [] then []
    else if batch[0].id == id then Drop(batch[1..], id)
    else [batch[0]] + Drop(batch[1..], id)
  }

  lemma {:induction false} DropMeans(batch: seq<ScheduledRequest>, id: RequestId)
    ensures forall it :: it in Drop(batch, id) <==> it in batch && it.id != id
    ensures |Drop(batch, id)| <= |batch|
  {
    if batch != [] {
      DropMeans(batch[1..], id);
      assert forall it :: it in batch <==> it == batch[0] || it in batch[1..];
    }
  }

  lemma {:induction false} DropDistinct(batch: seq<ScheduledRequest>, id: RequestId)
    requires DistinctIds(batch)
    ensures DistinctIds(Drop(batch, id))
  {
    if batch != [] {
      var rest := batch[1..];
      assert DistinctIds(rest);
      DropDistinct(rest, id);
      DropMeans(rest, id);
      var d := Drop(batch, id);
      if batch[0].id != id {
        forall j | 0 < j < |d| ensures d[0].id != d[j].id {
          assert d[j] == Drop(rest, id)[j - 1];
          assert d[j] in Drop(rest, id);
          var k :| 0 <= k < |rest| && rest[k] == d[j];
          assert batch[k + 1] == d[j];
        }
      }
    }
  }

  lemma {:induction false} DropFind(batch: seq<ScheduledRequest>, id: RequestId, x: RequestId)
    ensures FindItem(Drop(batch, id), x) == if x == id then None else FindItem(batch, x)
  {
    if batch != [] { DropFind(batch[1..], id, x); }
  }

  lemma {:induction false} DropLength(batch: seq<ScheduledRequest>, id: RequestId)
    requires DistinctIds(batch) && FindItem(batch, id).Some?
    ensures |Drop(batch, id)| == |batch| - 1
  {
    var rest := batch[1..];
    assert DistinctIds(rest);
    if batch[0].id == id {
      DropNothing(rest, id);
    } else {
      DropLength(rest, id);
    }
  }

  lemma {:induction false} DropNothing(batch: seq<ScheduledRequest>, id: RequestId)
    requires forall i :: 0 <= i < |batch| ==> batch[i].id != id
    ensures Drop(batch, id) == batch
  {
    if batch != [] { DropNothing(batch[1..], id); }
  }

  /** A result item answers its batch item: the tokens computed, and one token exactly when
      one was to be sampled. */
  ghost predicate Answers(batch: seq<ScheduledRequest>, item: RequestResult) {
    var found := FindItem(batch, item.id);
    && found.Some?
    && item.cachedLenDelta == |found.value.input|
    && |item.generated| == if found.value.needSample then 1 else 0
  }

  /** The request after a result. */
  function Advanced(r: Req, item: RequestResult): Req {
    var reason := if item.isEos then Some(Eos)
                  else if |r.generated| + |item.generated| == r.maxNewLen then Some(Length) else None;
    r.(state := if reason.Some? then Finished else Running,
       completion := if reason.Some? then reason else r.completion,
       generated := r.generated + item.generated,
       sampleIndex := r.sampleIndex + |item.generated|,
       cachedLen := r.cachedLen + item.cachedLenDelta)
  }

  lemma AnsweredItem(st: State, batch: seq<ScheduledRequest>, item: RequestResult)
    requires BatchOk(st, batch) && Answers(batch, item)
    ensures ItemOk(st, FindItem(batch, item.id).value) && FindItem(batch, item.id).value.id == item.id
  {
    hide ItemOk;
    var found := FindItem(batch, item.id).value;
    FindItemMeans(batch, item.id);
    var k :| 0 <= k < |batch| && batch[k] == found;
  }

  lemma AnsweredRequest(st: State, batch: seq<ScheduledRequest>, item: RequestResult)
    requires Inv(st, batch) && Answers(batch, item)
    ensures st.IsIn(item.id, Running)
    ensures var r, r1 := st.requests[item.id], Advanced(st.requests[item.id], item);
            && r.Advance(AdvanceResult(item.generated, item.cachedLenDelta, st.Reason(item))) == (r1, Done)
            && ReqOk(r1) && r1.Context() == r.Context() + item.generated
            && r1.state == (if st.Reason(item).Some? then Finished else Running)
            && r.cachedLen < r1.cachedLen <= |r1.Context()|
            && r1.cachedLen <= |r.Context()|
            && r1.id == item.id && r1.arrival == r.arrival
  {
    hide CacheOk, LengthsOk, ListsOk, BatchOk, ArrivalsOk, FindItem;
    AnsweredItem(st, batch, item);
    var r := st.requests[item.id];
    assert ReqOk(r);
    AdvanceOk(r, AdvanceResult(item.generated, item.cachedLenDelta, st.Reason(item)));
  }

  /** The filled blocks of the advanced request, sealed after those already sealed. */
  lemma SealArithmetic(ctx: seq<Token>, ctx1: seq<Token>, was: nat, now: nat, bl: Positive)
    requires was <= now <= |ctx1| && was <= |ctx| && ctx <= ctx1
    ensures was / bl * bl == Span(was / bl, bl) <= was
    ensures now / bl * bl == Span(now / bl, bl) <= now
    ensures was / bl <= now / bl
    ensures Span(now / bl, bl) - Span(was / bl, bl) == Span(now / bl - was / bl, bl)
    ensures Take(ctx, Span(was / bl, bl)) + ctx1[Span(was / bl, bl)..Span(now / bl, bl)] == Take(ctx1, Span(now / bl, bl))
  {
    SpanOfQuotient(was, bl);
    SpanOfQuotient(now, bl);
    SpanIsProduct(was / bl, bl);
    SpanIsProduct(now / bl, bl);
    if now / bl < was / bl {
      SpanMono(now / bl + 1, was / bl, bl);
    }
    SpanSum(was / bl, now / bl - was / bl, bl);
    var a, z := Span(was / bl, bl), Span(now / bl, bl);
    SpanMono(was / bl, now / bl, bl);
    assert ctx[..a] == ctx1[..a];
    assert ctx1[..a] + ctx1[a..z] == ctx1[..z];
  }

  /** `st1` is `st` with the request advanced and what it filled sealed. */
  ghost predicate SealedState(st: State, st1: State, item: RequestResult) {
    && item.id in st.requests && item.id in st.cache.tables && item.id in st1.cache.tables
    && st1 == st.(requests := st.requests[item.id := Advanced(st.requests[item.id], item)], cache := st1.cache)
    && CacheOk(st1)
    && st1.cache.blockLen == st.cache.blockLen
    && st1.cache.tables == st.cache.tables[item.id := st1.cache.tables[item.id]]
    && |st1.cache.tables[item.id]| == |st.cache.tables[item.id]|
    && var r, bl := st.requests[item.id], st.cache.blockLen;
       SealFrame(st.cache, st1.cache, item.id, r.cachedLen / bl, Advanced(r, item).cachedLen / bl)
  }

  lemma SealFilledOk(st: State, batch: seq<ScheduledRequest>, item: RequestResult)
    requires Inv(st, batch) && Answers(batch, item)
    ensures item.id in st.requests
    ensures var r := st.requests[item.id];
            var st1 := st.(requests := st.requests[item.id := Advanced(r, item)]);
            var (st2, s) := st1.SealFilled(item.id, r.cachedLen);
            s == Done && SealedState(st, st2, item)
  {
    hide CacheInv, BatchOk, ListsOk, ReqOk, Cache.SealBlocks, State.SealFilled, FindItem, RequestsOk, ArrivalsOk;
    AnsweredRequest(st, batch, item);
    var id, bl := item.id, st.cache.blockLen;
    var r := st.requests[id];
    var r1 := Advanced(r, item);
    var st1 := st.(requests := st.requests[id := r1]);
    OwnedKeys(st);
    assert id in st.running by { ListsMember(st, id); }
    var owned := OwnedOf(st);
    assert id in owned && owned[id] == OwnedBy(r, bl);
    SealArithmetic(r.Context(), r1.Context(), r.cachedLen, r1.cachedLen, bl);
    var n0, n1 := r.cachedLen / bl, r1.cachedLen / bl;
    var tokens := r1.Context()[Span(n0, bl)..Span(n1, bl)];
    CeilDivBounds(r1.cachedLen, bl);
    assert InFlight(batch, id) == item.cachedLenDelta;
    SealBlocksEffect(st.cache, owned, id, tokens, Span(n0, bl), n1 - n0);
    var c1 := st.cache.SealBlocks(id, tokens, Span(n0, bl)).0;
    var st2 := st1.(cache := c1);
    SealFilledDef(st1, id, r.cachedLen, n0, n1);
    assert OwnedOf(st2) == owned[id := OwnedBy(r1, bl)];
    SealedKeeps(st.cache, c1, owned, id, tokens, n1 - n0, OwnedBy(r1, bl));
  }

  lemma SealFilledDef(st: State, id: RequestId, oldCachedLen: nat, n0: nat, n1: nat)
    requires id in st.requests
    requires oldCachedLen / st.cache.blockLen * st.cache.blockLen == Span(n0, st.cache.blockLen)
    requires st.requests[id].cachedLen / st.cache.blockLen * st.cache.blockLen == Span(n1, st.cache.blockLen)
    requires Span(n0, st.cache.blockLen) <= Span(n1, st.cache.blockLen) <= |st.requests[id].Context()|
    ensures var (c, r) := st.cache.SealBlocks(
              id, st.requests[id].Context()[Span(n0, st.cache.blockLen)..Span(n1, st.cache.blockLen)], Span(n0, st.cache.blockLen));
            st.SealFilled(id, oldCachedLen) == (st.(cache := c), if r.Err? then Failure(r.error) else Done)
  {
    hide Cache.SealBlocks, Span;
  }

  lemma SealedKeeps(c: Cache, c1: Cache, owned: map<RequestId, Owned>, id: RequestId, tokens: seq<Token>, k: nat, o1: Owned)
    requires id in c.tables && id in owned && SealedMore(c, c1, owned, id, tokens, k)
    requires o1 == Owned(owned[id].tokens + tokens, owned[id].count + k)
    ensures CacheInv(c1, owned[id := o1])
    ensures SealFrame(c, c1, id, owned[id].count, owned[id].count + k)
  {
    hide CacheInv, SealFrame;
  }

  lemma DropBatch(st: State, st1: State, batch: seq<ScheduledRequest>, item: RequestResult)
    requires BatchOk(st, batch) && SealedState(st, st1, item)
    ensures BatchOk(st1, Drop(batch, item.id)) && NotIn(Drop(batch, item.id), item.id)
  {
    var b1 := Drop(batch, item.id);
    DropMeans(batch, item.id);
    DropDistinct(batch, item.id);
    forall i | 0 <= i < |b1| ensures ItemOk(st1, b1[i]) && b1[i].id != item.id {
      assert b1[i] in b1;
      var k :| 0 <= k < |batch| && batch[k] == b1[i];
      assert ItemOk(st, batch[k]);
      ItemFrame(st, st1, b1[i]);
    }
  }

  lemma DropLengths(st: State, st1: State, batch: seq<ScheduledRequest>, item: RequestResult)
    requires LengthsOk(st, batch) && SealedState(st, st1, item) && Answers(batch, item) && item.id in st.running
    ensures LengthsOk(st1, Drop(batch, item.id))
  {
    hide CacheOk, FindItem;
    forall id | id in st1.requests && id in st1.running && id in st1.cache.tables
      ensures |st1.cache.tables[id]| ==
                CeilDiv(st1.requests[id].cachedLen + InFlight(Drop(batch, item.id), id), st1.cache.blockLen)
    {
      DropFind(batch, item.id, id);
      assert id in st.requests && id in st.running && id in st.cache.tables;
      assert st1.requests[id].cachedLen + InFlight(Drop(batch, item.id), id)
          == st.requests[id].cachedLen + InFlight(batch, id);
    }
  }

  lemma {:induction false} IndexOfMeans(s: seq<RequestId>, id: RequestId)
    ensures var k := IndexOf(s, id);
            && (k.Some? ==> k.value < |s| && s[k.value] == id)
            && (k.None? ==> id !in s)
  {
    if s != [] && s[0] != id {
      IndexOfMeans(s[1..], id);
      assert s == [s[0]] + s[1..];
    }
  }

  lemma {:induction false} RemoveAtIsWithout(s: seq<RequestId>, id: RequestId)
    requires Distinct(s) && id in s
    ensures IndexOf(s, id).Some? && RemoveAt(s, IndexOf(s, id).value) == Without(s, id)
  {
    IndexOfMeans(s, id);
    var rest := s[1..];
    assert Distinct(rest);
    if s[0] == id {
      assert s[0] !in rest;
      WithoutElements(rest, id);
    } else {
      assert s == [s[0]] + rest;
      RemoveAtIsWithout(rest, id);
      var k := IndexOf(rest, id).value;
      assert RemoveAt(s, k + 1) == [s[0]] + RemoveAt(rest, k);
    }
  }

  lemma RetireDef(st: State, id: RequestId, log: seq<Undo>)
    requires Distinct(st.running) && id in st.running
    ensures IndexOf(st.running, id).Some?
    ensures var (c, s) := st.cache.Release(id);
            st.Retire(id, log) ==
              (st.(running := Without(st.running, id), cache := c),
               log + [InsertRunning(IndexOf(st.running, id).value, id)], s)
  {
    hide Cache.Release;
    RemoveAtIsWithout(st.running, id);
  }

  /** The state after a result was committed. */
  ghost predicate CommittedState(st: State, st1: State, item: RequestResult) {
    && item.id in st.requests
    && var r1 := Advanced(st.requests[item.id], item);
       st1 == st.(requests := st.requests[item.id := r1], cache := st1.cache,
                  running := if r1.state == Running then st.running else Without(st.running, item.id))
  }

  lemma CommittedRunning(st: State, st1: State, batch: seq<ScheduledRequest>, item: RequestResult)
    requires Inv(st, batch) && Answers(batch, item) && SealedState(st, st1, item)
    requires Advanced(st.requests[item.id], item).state == Running
    ensures Inv(st1, Drop(batch, item.id)) && CommittedState(st, st1, item)
  {
    hide CacheInv, BatchOk, LengthsOk, ReqOk;
    AnsweredRequest(st, batch, item);
    DropBatch(st, st1, batch, item);
    DropLengths(st, st1, batch, item);
    forall x ensures x in st1.running <==> st1.IsIn(x, Running) {
      assert x in st.running <==> st.IsIn(x, Running);
    }
    forall x ensures x in st1.waiting <==> st1.IsIn(x, Waiting) {
      assert x in st.waiting <==> st.IsIn(x, Waiting);
    }
  }

  lemma CommittedFinished(st: State, st1: State, batch: seq<ScheduledRequest>, item: RequestResult)
    requires Inv(st, batch) && Answers(batch, item) && SealedState(st, st1, item)
    requires Advanced(st.requests[item.id], item).state == Finished
    ensures st1.cache.Release(item.id).1 == Done
    ensures var st2 := st1.(running := Without(st.running, item.id), cache := st1.cache.Release(item.id).0);
            Inv(st2, Drop(batch, item.id)) && CommittedState(st, st2, item)
  {
    hide CacheInv, BatchOk, LengthsOk, ReqOk, Cache.Release, ListsOk, CacheOk;
    var id := item.id;
    AnsweredRequest(st, batch, item);
    DropBatch(st, st1, batch, item);
    assert id in st.running by { ListsMember(st, id); }
    DropLengths(st, st1, batch, item);
    var r1 := Advanced(st.requests[id], item);
    var st2 := st1.(running := Without(st.running, id), cache := st1.cache.Release(id).0);
    var b1 := Drop(batch, id);
    WithoutElements(st.running, id);
    assert Distinct(st.running) by { ListsDistinct(st); }
    WithoutDistinct(st.running, id);
    assert st1.requests == st1.requests[id := r1];
    assert Stopped(st1, st2, id, r1);
    StoppedCache(st1, st2, id, r1);
    StoppedLengths(st1, st2, id, r1, b1, b1);
    StoppedBatch(st1, st2, id, r1, b1);
    NotWaiting(st, id);
    LeaveLists(st, st2, id, r1);
  }

  lemma ListsDistinct(st: State)
    requires ListsOk(st)
    ensures Distinct(st.running) && Distinct(st.waiting)
  {
  }

  lemma CommitOneDef(st: State, item: RequestResult, log: seq<Undo>, snapshotted: bool, st2: State)
    requires item.id in st.requests && Distinct(st.running) && item.id in st.running
    requires var r, r1 := st.requests[item.id], Advanced(st.requests[item.id], item);
             && r.Advance(AdvanceResult(item.generated, item.cachedLenDelta, st.Reason(item))) == (r1, Done)
             && (r1.state == Running || r1.state == Finished)
             && st.(requests := st.requests[item.id := r1]).SealFilled(item.id, r.cachedLen) == (st2, Done)
             && st2.running == st.running
    ensures var r1 := Advanced(st.requests[item.id], item);
            var (c, s) := st2.cache.Release(item.id);
            var result := st.CommitOne(item, log, snapshotted);
            if r1.state == Running then result.0 == st2 && result.3 == Done
            else result.0 == st2.(running := Without(st.running, item.id), cache := c) && result.3 == s
  {
    hide Cache.Release, State.SealFilled, Advanced, State.Retire;
    var log1 := st.CommitOne(item, log, snapshotted).1;
    forall l: seq<Undo> ensures st2.Retire(item.id, l).0 == st2.(running := Without(st.running, item.id), cache := st2.cache.Release(item.id).0)
                     && st2.Retire(item.id, l).2 == st2.cache.Release(item.id).1 {
      RetireDef(st2, item.id, l);
    }
  }

  /** Committing one result never fails; the request is advanced, sealed and, once complete,
      retired, and the rest of the batch is as it was. */
  lemma CommitOneOk(st: State, batch: seq<ScheduledRequest>, item: RequestResult, log: seq<Undo>, snapshotted: bool)
    requires Inv(st, batch) && Answers(batch, item)
    ensures var (st1, log1, snap, s) := st.CommitOne(item, log, snapshotted);
            s == Done && Inv(st1, Drop(batch, item.id)) && CommittedState(st, st1, item)
  {
    hide Inv, State.CommitOne, State.SealFilled, SealedState, CommittedState, Cache.Release;
    AnsweredRequest(st, batch, item);
    SealFilledOk(st, batch, item);
    var r := st.requests[item.id];
    var r1 := Advanced(r, item);
    var st2 := st.(requests := st.requests[item.id := r1]).SealFilled(item.id, r.cachedLen).0;
    InvLists(st, batch);
    ListsDistinct(st);
    ListsMember(st, item.id);
    assert st2.running == st.running by { SealedRunning(st, st2, item); }
    CommitOneDef(st, item, log, snapshotted, st2);
    if r1.state == Running {
      CommittedRunning(st, st2, batch, item);
    } else {
      CommittedFinished(st, st2, batch, item);
    }
  }

  lemma SealedRunning(st: State, st1: State, item: RequestResult)
    requires SealedState(st, st1, item)
    ensures st1.running == st.running
  {
  }

  // ------------------------------------------------------------ all results

  /** The results answer the batch: each item its own, nobody twice, nobody left out. */
  ghost predicate AnswersAll(batch: seq<ScheduledRequest>, items: seq<RequestResult>) {
    && |items| == |batch|
    && (forall i, j :: 0 <= i < j < |items| ==> items[i].id != items[j].id)
    && (forall i :: 0 <= i < |items| ==> Answers(batch, items[i]))
  }

  lemma AnswersRest(batch: seq<ScheduledRequest>, items: seq<RequestResult>)
    requires DistinctIds(batch) && AnswersAll(batch, items) && items != []
    ensures AnswersAll(Drop(batch, items[0].id), items[1..])
  {
    var rest := items[1..];
    DropLength(batch, items[0].id);
    forall i | 0 <= i < |rest| ensures Answers(Drop(batch, items[0].id), rest[i]) {
      assert Answers(batch, items[i + 1]);
      DropFind(batch, items[0].id, items[i + 1].id);
    }
  }

  /** What committing leaves of everything else. */
  ghost predicate CommitFrame(st: State, st1: State) {
    && st1 == st.(requests := st1.requests, cache := st1.cache, running := st1.running)
    && st1.requests.Keys == st.requests.Keys
  }

  lemma {:induction false} CommitOk(st: State, batch: seq<ScheduledRequest>, items: seq<RequestResult>, log: seq<Undo>, snapshotted: bool)
    requires Inv(st, batch) && AnswersAll(batch, items)
    ensures var (st1, log1, s) := st.Commit(items, log, snapshotted);
            && s == Done && Inv(st1, []) && CommitFrame(st, st1)
            && (forall i :: 0 <= i < |items| ==>
                  items[i].id in st.requests && st1.requests[items[i].id] == Advanced(st.requests[items[i].id], items[i]))
            && (forall x :: x in st.requests && (forall i :: 0 <= i < |items| ==> items[i].id != x) ==>
                  st1.requests[x] == st.requests[x])
    decreases |items|
  {
    hide Inv, State.CommitOne, Answers, Advanced;
    if items != [] {
      var item := items[0];
      CommitOneOk(st, batch, item, log, snapshotted);
      var (st1, log1, snap, s) := st.CommitOne(item, log, snapshotted);
      InvBatch(st, batch);
      AnswersRest(batch, items);
      CommitOk(st1, Drop(batch, item.id), items[1..], log1, snap);
      var st2 := st1.Commit(items[1..], log1, snap).0;
      forall i | 0 <= i < |items|
        ensures items[i].id in st.requests && st2.requests[items[i].id] == Advanced(st.requests[items[i].id], items[i])
      {
        if i > 0 {
          assert items[1..][i - 1] == items[i];
        } else {
          assert forall j :: 0 <= j < |items[1..]| ==> items[1..][j].id != item.id;
        }
      }
      forall x | x in st.requests && (forall i :: 0 <= i < |items| ==> items[i].id != x)
        ensures st2.requests[x] == st.requests[x]
      {
        assert forall j :: 0 <= j < |items[1..]| ==> items[1..][j].id != x;
      }
    }
  }

  lemma InvBatch(st: State, batch: seq<ScheduledRequest>)
    requires Inv(st, batch)
    ensures DistinctIds(batch)
  {
  }

  // ------------------------------------------------------------- validation

  lemma CheckResultMeans(st: State, plan: BatchPlan, seen: set<RequestId>, item: RequestResult)
    requires Inv(st, plan.requests)
    ensures st.CheckResult(plan, seen, item) == Done <==> item.id !in seen && Answers(plan.requests, item)
  {
    hide CacheOk, LengthsOk, ListsOk, BatchOk, ArrivalsOk, FindItem;
    FindItemMeans(plan.requests, item.id);
    var found := FindItem(plan.requests, item.id);
    if found.Some? {
      FoundItemOk(st, plan.requests, item.id);
      assert ReqOk(st.requests[item.id]);
    }
  }

  lemma FoundItemOk(st: State, batch: seq<ScheduledRequest>, id: RequestId)
    requires BatchOk(st, batch) && FindItem(batch, id).Some?
    ensures ItemOk(st, FindItem(batch, id).value) && FindItem(batch, id).value.id == id
  {
    hide ItemOk;
    FindItemMeans(batch, id);
    var k :| 0 <= k < |batch| && batch[k] == FindItem(batch, id).value;
  }

  lemma {:induction false} CheckResultsMeans(st: State, plan: BatchPlan, seen: set<RequestId>, items: seq<RequestResult>)
    requires Inv(st, plan.requests)
    ensures st.CheckResults(plan, seen, items) == Done <==>
              && (forall i :: 0 <= i < |items| ==> items[i].id !in seen && Answers(plan.requests, items[i]))
              && (forall i, j :: 0 <= i < j < |items| ==> items[i].id != items[j].id)
    decreases |items|
  {
    hide Inv, Answers, State.CheckResult;
    if items != [] {
      var item, rest := items[0], items[1..];
      CheckResultMeans(st, plan, seen, item);
      CheckResultsMeans(st, plan, seen + {item.id}, rest);
      assert forall i :: 0 < i < |items| ==> items[i] == rest[i - 1];
      assert forall i :: 0 <= i < |rest| ==> rest[i] == items[i + 1];
    }
  }

  /** A result is accepted exactly when it is for this step and answers every item of the
      batch, each once, with one token where one was to be sampled and none elsewhere. */
  lemma ValidateMeans(st: State, plan: BatchPlan, result: ExecutionResult)
    requires Inv(st, plan.requests)
    ensures st.Validate(plan, result) == Done <==>
              result.stepId == plan.stepId && AnswersAll(plan.requests, result.results)
  {
    hide Inv, Answers, State.CheckResults;
    CheckResultsMeans(st, plan, {}, result.results);
  }

  function ResultIds(items: seq<RequestResult>): set<RequestId> {
    set i | 0 <= i < |items| :: items[i].id
  }

  lemma {:induction false} ResultIdsCount(items: seq<RequestResult>)
    requires forall i, j :: 0 <= i < j < |items| ==> items[i].id != items[j].id
    ensures |ResultIds(items)| == |items|
  {
    if items != [] {
      var front := items[..|items| - 1];
      ResultIdsCount(front);
      ResultIdsSplit(items);
      var last := items[|items| - 1].id;
      forall i | 0 <= i < |front| ensures front[i].id != last {
        assert items[i].id != items[|items| - 1].id;
      }
    }
  }

  lemma ResultIdsSplit(items: seq<RequestResult>)
    requires items != []
    ensures ResultIds(items) == ResultIds(items[..|items| - 1]) + {items[|items| - 1].id}
  {
    var front := items[..|items| - 1];
    forall x ensures x in ResultIds(items) <==> x in ResultIds(front) || x == items[|items| - 1].id {
      if x in ResultIds(front) {
        var i :| 0 <= i < |front| && front[i].id == x;
        assert items[i].id == x;
      }
      if x in ResultIds(items) {
        var i :| 0 <= i < |items| && items[i].id == x;
        if i < |front| { assert front[i].id == x; }
      }
    }
  }

  lemma {:induction false} BatchIdsCount(batch: seq<ScheduledRequest>)
    requires DistinctIds(batch)
    ensures |BatchIds(batch)| == |batch|
  {
    if batch != [] {
      var front, last := batch[..|batch| - 1], batch[|batch| - 1];
      BatchIdsCount(front);
      assert batch == front + [last];
      BatchIdsAppend(front, last);
    }
  }

  /** By counting, an accepted result is a bijection with the batch: it names exactly the
      batch's requests. */
  lemma AnswersAllIsBijection(batch: seq<ScheduledRequest>, items: seq<RequestResult>)
    requires DistinctIds(batch) && AnswersAll(batch, items)
    ensures ResultIds(items) == BatchIds(batch)
  {
    forall x | x in ResultIds(items) ensures x in BatchIds(batch) {
      var i :| 0 <= i < |items| && items[i].id == x;
      assert Answers(batch, items[i]);
      FindItemMeans(batch, x);
      var k :| 0 <= k < |batch| && batch[k] == FindItem(batch, x).value;
    }
    ResultIdsCount(items);
    BatchIdsCount(batch);
    SubsetCardinality(ResultIds(items), BatchIds(batch));
  }

  lemma InvWithoutOutstanding(st: State, batch: seq<ScheduledRequest>)
    requires Inv(st, batch)
    ensures Inv(st.(outstanding := None), batch)
  {
    hide CacheInv;
    var st1 := st.(outstanding := None);
    forall i | 0 <= i < |batch| ensures ItemOk(st1, batch[i]) { ItemFrame(st, st1, batch[i]); }
    OwnedUnchanged(st, st1);
  }

  /** `apply_result` is all or nothing.  A rejected result leaves the state as it was, batch
      included.  An accepted one is a bijection with the batch, advances exactly the batch's
      requests, and leaves the scheduler consistent with nothing outstanding; no cache
      operation can fail on the way. */
  lemma ApplyResultOk(st: State, result: ExecutionResult)
    requires Consistent(st)
    ensures var (st1, s) := st.ApplyResult(result);
            && (s.Failure? ==> st1 == st)
            && (s == Done <==>
                  && st.outstanding.Some? && result.stepId == st.outstanding.value.stepId
                  && AnswersAll(st.outstanding.value.requests, result.results))
            && (s == Done ==>
                  && Consistent(st1) && st1.outstanding == None
                  && CommitFrame(st.(outstanding := None), st1)
                  && ResultIds(result.results) == BatchIds(st.outstanding.value.requests)
                  && (forall i :: 0 <= i < |result.results| ==>
                        var it := result.results[i];
                        it.id in st.requests && st1.requests[it.id] == Advanced(st.requests[it.id], it))
                  && (forall x :: x in st.requests && x !in BatchIds(st.outstanding.value.requests) ==>
                        st1.requests[x] == st.requests[x]))
  {
    hide Inv, State.Commit, AnswersAll, Advanced, State.Validate;
    if st.outstanding.Some? {
      var plan := st.outstanding.value;
      ValidateMeans(st, plan, result);
      if st.Validate(plan, result) == Done {
        InvWithoutOutstanding(st, plan.requests);
        CommitOk(st.(outstanding := None), plan.requests, result.results, [], false);
        InvBatch(st, plan.requests);
        AnswersAllIsBijection(plan.requests, result.results);
      }
    }
  }

  // -------------------------------------------------------------- fail_batch

  lemma FailOneOk(st: State, item: ScheduledRequest, batch: seq<ScheduledRequest>, message: string, log: seq<Undo>)
    requires Inv(st, [item] + batch)
    ensures var (st1, log1, s) := st.FailOne(item, message, log);
            && s == Done && Inv(st1, batch) && CommitFrame(st, st1)
            && item.id in st.requests
            && st1.requests == st.requests[item.id := st.requests[item.id].(state := Failed, error := Some(message))]
            && st1.running == Without(st.running, item.id)
            && TablesWithin(st1.cache, st.cache)
  {
    hide CacheInv, LengthsOk, Cache.Release, State.Retire, FindItem, BatchOk;
    var id := item.id;
    var all := [item] + batch;
    FirstItem(st, item, batch);
    var r := st.requests[id].(state := Failed, error := Some(message));
    assert ReqOk(st.requests[id]) && ReqOk(r);
    var st0 := st.(requests := st.requests[id := r]);
    ListsMember(st, id);
    RetireDef(st0, id, log + [UndoFail(id)]);
    var st1 := st0.(running := Without(st.running, id), cache := st.cache.Release(id).0);
    assert st.FailOne(item, message, log).0 == st1;
    WithoutElements(st.running, id);
    WithoutDistinct(st.running, id);
    assert Stopped(st, st1, id, r);
    StoppedCache(st, st1, id, r);
    NotWaiting(st, id);
    LeaveLists(st, st1, id, r);
    HeadDropped(st, item, batch);
    StoppedLengths(st, st1, id, r, all, batch);
    StoppedBatch(st, st1, id, r, batch);
  }

  lemma FirstItem(st: State, item: ScheduledRequest, batch: seq<ScheduledRequest>)
    requires BatchOk(st, [item] + batch)
    ensures ItemOk(st, item)
  {
    assert ItemOk(st, ([item] + batch)[0]);
  }

  lemma HeadDropped(st: State, item: ScheduledRequest, batch: seq<ScheduledRequest>)
    requires BatchOk(st, [item] + batch)
    ensures BatchOk(st, batch) && NotIn(batch, item.id)
    ensures forall x :: x != item.id ==> InFlight(batch, x) == InFlight([item] + batch, x)
  {
    var all := [item] + batch;
    assert all[1..] == batch;
    forall i | 0 <= i < |batch| ensures ItemOk(st, batch[i]) && batch[i].id != item.id {
      assert all[i + 1] == batch[i] && all[0] == item;
      assert all[0].id != all[i + 1].id;
      assert ItemOk(st, all[i + 1]);
    }
    forall i, j | 0 <= i < j < |batch| ensures batch[i].id != batch[j].id {
      assert all[i + 1] == batch[i] && all[j + 1] == batch[j];
    }
  }

  lemma {:induction false} FailAllOk(st: State, batch: seq<ScheduledRequest>, message: string, log: seq<Undo>)
    requires Inv(st, batch)
    ensures var (st1, log1, s) := st.FailAll(batch, message, log);
            && s == Done && Inv(st1, []) && CommitFrame(st, st1)
            && (forall x :: x in st.requests ==>
                  st1.requests[x] == if x in BatchIds(batch) then st.requests[x].(state := Failed, error := Some(message))
                                     else st.requests[x])
            && (forall x :: x in st1.running <==> x in st.running && x !in BatchIds(batch))
            && TablesWithin(st1.cache, st.cache)
    decreases |batch|
  {
    hide Inv, State.FailOne;
    if batch == [] {
      assert BatchIds(batch) == {};
    } else {
      var item, rest := batch[0], batch[1..];
      assert batch == [item] + rest;
      FailOneOk(st, item, rest, message, log);
      var (st1, log1, s) := st.FailOne(item, message, log);
      FailAllOk(st1, rest, message, log1);
      WithoutElements(st.running, item.id);
      HeadIds(item, rest);
      assert item.id !in BatchIds(rest) by { HeadUnique(st, item, rest); }
    }
  }

  lemma HeadUnique(st: State, item: ScheduledRequest, rest: seq<ScheduledRequest>)
    requires Inv(st, [item] + rest)
    ensures item.id !in BatchIds(rest)
  {
    HeadDropped(st, item, rest);
  }

  lemma HeadIds(item: ScheduledRequest, rest: seq<ScheduledRequest>)
    ensures BatchIds([item] + rest) == {item.id} + BatchIds(rest)
  {
    var b := [item] + rest;
    forall x ensures x in BatchIds(b) <==> x == item.id || x in BatchIds(rest) {
      if x in BatchIds(rest) {
        var i :| 0 <= i < |rest| && rest[i].id == x;
        assert b[i + 1].id == x;
      }
      if x == item.id { assert b[0].id == x; }
    }
  }

  /** `fail_batch`, for the batch that is outstanding, fails exactly the batch's requests and
      gives back their blocks; for any other it changes nothing. */
  lemma FailBatchOk(st: State, batch: BatchPlan, message: string)
    requires Consistent(st)
    ensures var (st1, s) := st.FailBatch(batch, message);
            && (s.Failure? ==> st1 == st)
            && (s == Done <==> st.outstanding == Some(batch))
            && (s == Done ==>
                  && Consistent(st1) && st1.outstanding == None
                  && CommitFrame(st.(outstanding := None), st1)
                  && (forall x :: x in st.requests ==>
                        st1.requests[x] == if x in BatchIds(batch.requests)
                                           then st.requests[x].(state := Failed, error := Some(message)) else st.requests[x])
                  && (forall x :: x in st1.running <==> x in st.running && x !in BatchIds(batch.requests))
                  && TablesWithin(st1.cache, st.cache))
  {
    hide Inv, State.FailAll;
    if st.outstanding == Some(batch) {
      InvWithoutOutstanding(st, batch.requests);
      FailAllOk(st.(outstanding := None), batch.requests, message, [RestoreCache(st.cache)]);
    }
  }
}
