/** The invariant of the scheduler, and that scheduling keeps it. */
module SchedulerInvariants {
  import opened Base
  import opened BlockPools
  import opened KvCaches
  import opened Requests
  import opened Policies
  import opened Schedules

  function Take(s: seq<Token>, n: nat): seq<Token> { if n <= |s| then s[..n] else s }

  /** What a running request has sealed: the full blocks of its cached tokens. */
  function OwnedBy(r: Req, bl: Positive): Owned {
    Owned(Take(r.Context(), Span(r.cachedLen / bl, bl)), r.cachedLen / bl)
  }

  function OwnedOf(st: State): map<RequestId, Owned> {
    map id | id in st.requests && id in st.running :: OwnedBy(st.requests[id], st.cache.blockLen)
  }

  ghost predicate RequestsOk(st: State) {
    forall id :: id in st.requests ==>
      st.requests[id].id == id && ReqOk(st.requests[id]) && st.requests[id].arrival < st.nextArrival
  }

  ghost predicate ArrivalsOk(st: State) {
    forall a, b :: a in st.requests && b in st.requests && a != b ==>
      st.requests[a].arrival != st.requests[b].arrival
  }

  /** The two queues hold exactly the running and the waiting requests, each once. */
  ghost predicate ListsOk(st: State) {
    && Distinct(st.running) && Distinct(st.waiting)
    && (forall id :: id in st.running <==> st.IsIn(id, Running))
    && (forall id :: id in st.waiting <==> st.IsIn(id, Waiting))
  }

  /** An item of a batch: the next tokens of a running request and the table to write them to.
      A prefill item samples exactly when it reaches the end of the context. */
  ghost predicate ItemOk(st: State, it: ScheduledRequest) {
    && st.IsIn(it.id, Running)
    && it.id in st.cache.tables && it.blockTable == st.cache.tables[it.id]
    && var r := st.requests[it.id];
       && it.start == r.cachedLen && it.workType == WorkTypeOf(r) && 0 < |it.input|
       && it.start + |it.input| <= |r.Context()|
       && it.input == r.Context()[it.start..it.start + |it.input|]
       && (it.needSample <==> it.samplingPlan.Some?)
       && (it.needSample ==> it.samplingPlan.value == SamplingPlan(r.params, r.sampleIndex))
       && (it.workType == Prefill ==> (it.needSample <==> it.start + |it.input| == |r.Context()|))
       && (it.workType == Decode ==> it.needSample && |it.input| == 1 && it.start >= |r.prompt|)
  }

  ghost predicate DistinctIds(batch: seq<ScheduledRequest>) {
    forall i, j :: 0 <= i < j < |batch| ==> batch[i].id != batch[j].id
  }

  ghost predicate BatchOk(st: State, batch: seq<ScheduledRequest>) {
    DistinctIds(batch) && forall i :: 0 <= i < |batch| ==> ItemOk(st, batch[i])
  }

  ghost predicate CacheOk(st: State) { CacheInv(st.cache, OwnedOf(st)) }

  /** The tokens a batch is computing for a request. */
  function InFlight(batch: seq<ScheduledRequest>, id: RequestId): nat {
    var found := FindItem(batch, id);
    if found.Some? then |found.value.input| else 0
  }

  /** Every table is exactly as long as the cached tokens and those in flight need. */
  ghost predicate LengthsOk(st: State, batch: seq<ScheduledRequest>) {
    forall id :: id in st.requests && id in st.running && id in st.cache.tables ==>
      |st.cache.tables[id]| ==
        CeilDiv(st.requests[id].cachedLen + InFlight(batch, id), st.cache.blockLen)
  }

  ghost predicate Inv(st: State, batch: seq<ScheduledRequest>) {
    && RequestsOk(st) && ArrivalsOk(st) && ListsOk(st)
    && CacheOk(st) && BatchOk(st, batch) && LengthsOk(st, batch)
  }

  /** The invariant between two calls. */
  ghost predicate Consistent(st: State) {
    Inv(st, if st.outstanding.Some? then st.outstanding.value.requests else [])
  }

  // ------------------------------------------------------------------ batches

  lemma {:induction false} FindItemMeans(batch: seq<ScheduledRequest>, id: RequestId)
    ensures var f := FindItem(batch, id);
            && (f.Some? ==> f.value in batch && f.value.id == id)
            && (f.None? ==> forall it :: it in batch ==> it.id != id)
  {
    if batch != [] && batch[0].id != id {
      FindItemMeans(batch[1..], id);
      assert forall it :: it in batch <==> it == batch[0] || it in batch[1..];
    }
  }

  lemma FindItemAt(batch: seq<ScheduledRequest>, i: nat)
    requires DistinctIds(batch) && i < |batch|
    ensures FindItem(batch, batch[i].id) == Some(batch[i])
  {
    FindItemMeans(batch, batch[i].id);
    assert batch[i] in batch;
  }

  lemma {:induction false} FindItemAppend(batch: seq<ScheduledRequest>, item: ScheduledRequest, id: RequestId)
    ensures FindItem(batch + [item], id) ==
              if FindItem(batch, id).Some? then FindItem(batch, id)
              else if item.id == id then Some(item) else None
  {
    if batch == [] {
      assert batch + [item] == [item];
    } else {
      assert (batch + [item])[1..] == batch[1..] + [item];
      FindItemAppend(batch[1..], item, id);
    }
  }

  ghost predicate NotIn(batch: seq<ScheduledRequest>, id: RequestId) {
    forall i :: 0 <= i < |batch| ==> batch[i].id != id
  }

  lemma NotInFind(batch: seq<ScheduledRequest>, id: RequestId)
    requires NotIn(batch, id)
    ensures FindItem(batch, id) == None
  {
    FindItemMeans(batch, id);
  }

  lemma ItemFrame(st: State, st1: State, it: ScheduledRequest)
    requires ItemOk(st, it)
    requires it.id in st1.requests && st1.requests[it.id] == st.requests[it.id]
    requires it.id in st1.cache.tables && st1.cache.tables[it.id] == st.cache.tables[it.id]
    ensures ItemOk(st1, it)
  {
  }

  lemma OwnedKeys(st: State)
    requires ListsOk(st) && CacheOk(st)
    ensures forall id :: id in st.cache.tables <==> id in st.running
  {
    forall id ensures id in OwnedOf(st) <==> id in st.running {
      assert id in st.running <==> st.IsIn(id, Running);
    }
    assert st.cache.tables.Keys == OwnedOf(st).Keys;
  }

  // -------------------------------------------------------- leaving the pool

  /** `st1` is `st` after request `id`, running before, stopped running and gave back its
      blocks; `r` is its new value. */
  ghost predicate Stopped(st: State, st1: State, id: RequestId, r: Req) {
    && id in st.requests
    && st1.config == st.config && st1.policy == st.policy && st1.nextArrival == st.nextArrival
    && st1.requests == st.requests[id := r]
    && st1.cache == st.cache.Release(id).0
    && Distinct(st1.running)
    && (forall x :: x in st1.running <==> x in st.running && x != id)
  }

  lemma StoppedCache(st: State, st1: State, id: RequestId, r: Req)
    requires CacheOk(st) && Stopped(st, st1, id, r)
    ensures CacheOk(st1)
    ensures st.cache.Release(id).1 == Done
    ensures st1.cache.blockLen == st.cache.blockLen && st1.cache.tables == st.cache.tables - {id}
    ensures SealedWithin(st1.cache, st.cache)
  {
    hide CacheInv, Cache.Release, SealedWithin, OwnedBy;
    ReleaseTable(st.cache, OwnedOf(st), id);
    assert OwnedOf(st1) == OwnedOf(st) - {id};
  }

  lemma StoppedLengths(st: State, st1: State, id: RequestId, r: Req, batch: seq<ScheduledRequest>, batch1: seq<ScheduledRequest>)
    requires LengthsOk(st, batch) && Stopped(st, st1, id, r)
    requires st1.cache.blockLen == st.cache.blockLen && st1.cache.tables == st.cache.tables - {id}
    requires forall x :: x != id ==> InFlight(batch1, x) == InFlight(batch, x)
    ensures LengthsOk(st1, batch1)
  {
  }

  lemma StoppedBatch(st: State, st1: State, id: RequestId, r: Req, batch: seq<ScheduledRequest>)
    requires BatchOk(st, batch) && NotIn(batch, id) && Stopped(st, st1, id, r)
    requires st1.cache.tables == st.cache.tables - {id}
    ensures BatchOk(st1, batch)
  {
    forall i | 0 <= i < |batch| ensures ItemOk(st1, batch[i]) {
      ItemFrame(st, st1, batch[i]);
    }
  }

  lemma StoppedInv(st: State, st1: State, id: RequestId, r: Req, batch: seq<ScheduledRequest>)
    requires Inv(st, batch) && NotIn(batch, id) && Stopped(st, st1, id, r)
    requires ReqOk(r) && r.id == id && r.arrival == st.requests[id].arrival
    requires ListsOk(st1)
    ensures Inv(st1, batch)
  {
    hide CacheInv, BatchOk, LengthsOk, ListsOk, ReqOk;
    StoppedCache(st, st1, id, r);
    StoppedLengths(st, st1, id, r, batch, batch);
    StoppedBatch(st, st1, id, r, batch);
  }

  /** Preempting a running request outside the batch never fails: it goes to the head of the
      queue with nothing cached, and everyone else is as before. */
  lemma PreemptOk(st: State, batch: seq<ScheduledRequest>, id: RequestId)
    requires Inv(st, batch) && id in st.running && NotIn(batch, id)
    ensures var (st1, s) := st.PreemptId(id);
            && s == Done && Inv(st1, batch)
            && st1.running == Without(st.running, id) && st1.waiting == [id] + st.waiting
            && st1.requests == st.requests[id := st.requests[id].(state := Waiting, cachedLen := 0)]
            && st1.cache.blockLen == st.cache.blockLen && st1.cache.tables == st.cache.tables - {id}
            && SealedWithin(st1.cache, st.cache)
  {
    hide CacheInv, BatchOk, LengthsOk, Cache.Release;
    assert st.IsIn(id, Running);
    var st1 := st.PreemptId(id).0;
    var r := st.requests[id].(state := Waiting, cachedLen := 0);
    WithoutElements(st.running, id);
    WithoutDistinct(st.running, id);
    assert Stopped(st, st1, id, r);
    StoppedCache(st, st1, id, r);
    PreemptLists(st, st1, id);
    StoppedInv(st, st1, id, r, batch);
  }

  lemma PreemptLists(st: State, st1: State, id: RequestId)
    requires ListsOk(st) && id in st.running
    requires id in st.requests && st1.requests == st.requests[id := st.requests[id].(state := Waiting, cachedLen := 0)]
    requires st1.running == Without(st.running, id) && st1.waiting == [id] + st.waiting
    ensures ListsOk(st1)
  {
    WithoutElements(st.running, id);
    WithoutDistinct(st.running, id);
    assert st.IsIn(id, Running);
    DisjointConcat([id], st.waiting);
    forall x ensures x in st1.running <==> st1.IsIn(x, Running) {
      assert x in st.running <==> st.IsIn(x, Running);
    }
    forall x ensures x in st1.waiting <==> st1.IsIn(x, Waiting) {
      assert x in st.waiting <==> st.IsIn(x, Waiting);
    }
  }

  /** A running request leaves the lists for a terminal state. */
  lemma LeaveLists(st: State, st1: State, id: RequestId, r: Req)
    requires ListsOk(st) && id in st.requests
    requires st1.requests == st.requests[id := r] && r.state.IsTerminal()
    requires Distinct(st1.running) && forall x :: x in st1.running <==> x in st.running && x != id
    requires st1.waiting == Without(st.waiting, id)
    ensures ListsOk(st1)
  {
    WithoutElements(st.waiting, id);
    WithoutDistinct(st.waiting, id);
    forall x ensures x in st1.running <==> st1.IsIn(x, Running) {
      assert x in st.running <==> st.IsIn(x, Running);
    }
    forall x ensures x in st1.waiting <==> st1.IsIn(x, Waiting) {
      assert x in st.waiting <==> st.IsIn(x, Waiting);
    }
  }

  lemma NotWaiting(st: State, id: RequestId)
    requires ListsOk(st) && id in st.running
    ensures Without(st.waiting, id) == st.waiting
  {
    WithoutElements(st.waiting, id);
    assert st.IsIn(id, Running) && !st.IsIn(id, Waiting);
  }

  /** Failing a running request outside the batch never fails itself. */
  lemma FailOk(st: State, batch: seq<ScheduledRequest>, id: RequestId)
    requires Inv(st, batch) && id in st.running && NotIn(batch, id)
    ensures var (st1, s) := st.FailId(id);
            && s == Done && Inv(st1, batch)
            && st1.running == Without(st.running, id) && st1.waiting == st.waiting
            && st1.requests == st.requests[id := st.requests[id].(state := Failed, error := Some(OutOfMemory))]
            && st1.cache.blockLen == st.cache.blockLen && st1.cache.tables == st.cache.tables - {id}
            && SealedWithin(st1.cache, st.cache)
  {
    hide CacheInv, BatchOk, LengthsOk, Cache.Release;
    assert st.IsIn(id, Running);
    var st1 := st.FailId(id).0;
    var r := st.requests[id].(state := Failed, error := Some(OutOfMemory));
    WithoutElements(st.running, id);
    WithoutDistinct(st.running, id);
    NotWaiting(st, id);
    assert Stopped(st, st1, id, r);
    StoppedCache(st, st1, id, r);
    LeaveLists(st, st1, id, r);
    StoppedInv(st, st1, id, r, batch);
  }

  // ------------------------------------------------------------ one more item

  lemma OwnedUnchanged(st: State, st1: State)
    requires st1.requests == st.requests && st1.running == st.running && st1.cache.blockLen == st.cache.blockLen
    ensures OwnedOf(st1) == OwnedOf(st)
  {
  }

  /** The chunk of a running request is never empty and ends within its context. */
  lemma RunningChunk(st: State, id: RequestId, remaining: nat)
    requires id in st.requests && ReqOk(st.requests[id]) && st.requests[id].state == Running && remaining > 0
    ensures var r := st.requests[id];
            var ch := ChunkOf(st.config, r, None, remaining);
            && ch.start == r.cachedLen && 0 < ch.len <= remaining && ch.start + ch.len <= |r.Context()|
            && (ch.workType == Prefill ==> ch.len <= st.config.maxPrefillChunkLen
                                           && (ch.len == ch.pending <==> ch.start + ch.len == |r.Context()|)
                                           && (ch.len != ch.pending ==> ch.len == Min(st.config.maxPrefillChunkLen, remaining)))
            && (ch.workType == Decode ==> ch.len == ch.pending == 1 && r.cachedLen >= |r.prompt|)
  {
  }

  /** `st1` is `st` with `table` reserved for `id`. */
  ghost predicate OnlyTable(st: State, st1: State, id: RequestId, table: seq<BlockId>) {
    && st1 == st.(cache := st1.cache)
    && st1.cache.blockLen == st.cache.blockLen
    && st1.cache.tables == st.cache.tables[id := table]
    && st.cache.BlockTable(id) <= table
    && st1.cache.pool.sealed == st.cache.pool.sealed
  }

  lemma AddedBatch(st: State, st1: State, batch: seq<ScheduledRequest>, item: ScheduledRequest)
    requires BatchOk(st, batch) && NotIn(batch, item.id)
    requires OnlyTable(st, st1, item.id, item.blockTable)
    requires ItemOk(st1, item)
    ensures BatchOk(st1, batch + [item])
  {
    var b := batch + [item];
    forall i | 0 <= i < |b| ensures ItemOk(st1, b[i]) {
      if i < |batch| { ItemFrame(st, st1, batch[i]); }
    }
  }

  lemma AddedLengths(st: State, st1: State, batch: seq<ScheduledRequest>, item: ScheduledRequest)
    requires LengthsOk(st, batch) && NotIn(batch, item.id) && item.id in st.requests
    requires OnlyTable(st, st1, item.id, item.blockTable)
    requires |item.blockTable| == CeilDiv(st.requests[item.id].cachedLen + |item.input|, st.cache.blockLen)
    ensures LengthsOk(st1, batch + [item])
  {
    NotInFind(batch, item.id);
    forall id | id in st1.requests && id in st1.running && id in st1.cache.tables
      ensures |st1.cache.tables[id]| == CeilDiv(st1.requests[id].cachedLen + InFlight(batch + [item], id), st1.cache.blockLen)
    {
      FindItemAppend(batch, item, id);
    }
  }

  /** The blocks for the next chunk of a request are not free. */
  ghost predicate Short(st: State, id: RequestId, remaining: nat) {
    && id in st.requests
    && var ch := ChunkOf(st.config, st.requests[id], None, remaining);
       Missing(st.cache, id, None, ch.start + ch.len) > |st.cache.pool.free|
  }

  /** What a round of scheduling one running request can do. */
  lemma ScheduleOneOk(st: State, batch: seq<ScheduledRequest>, id: RequestId, remaining: nat)
    requires Inv(st, batch) && id in st.running && NotIn(batch, id) && remaining > 0
    ensures var (st1, r) := st.ScheduleOne(id, None, remaining);
            && (r.Err? ==> r.error.InsufficientBlocks? && st1 == st)
            && (r.Err? <==> Short(st, id, remaining))
            && (r.Ok? ==>
                  && r.value.Some?
                  && var item := r.value.value;
                     && item.id == id && Inv(st1, batch + [item])
                     && OnlyTable(st, st1, id, item.blockTable)
                     && ItemBounds(st, item, remaining))
  {
    hide Cache.ReserveTo, CacheInv, BatchOk, LengthsOk, ListsOk, Missing;
    assert st.IsIn(id, Running) by { ListsMember(st, id); }
    var r := st.requests[id];
    var ch := ChunkOf(st.config, r, None, remaining);
    RunningChunk(st, id, remaining);
    ReserveRunning(st, batch, id, ch.start + ch.len);
    RunningBlocked(st, batch, id, ch.start + ch.len);
    var (c1, table) := st.cache.ReserveTo(id, None, ch.start + ch.len);
    var st1 := st.(cache := c1);
    if table.Ok? {
      var item := ScheduledItem(r, id, ch, table.value);
      OwnedUnchanged(st, st1);
      AddedItem(st, st1, batch, item, ch);
    } else {
      assert st1 == st;
    }
  }

  lemma ListsMember(st: State, id: RequestId)
    requires ListsOk(st)
    ensures id in st.running <==> st.IsIn(id, Running)
  {
  }

  /** An item that stops short of its context is as long as a chunk may be or the batch allows. */
  predicate FillsChunk(config: Config, item: ScheduledRequest, remaining: nat) {
    item.workType == Prefill && !item.needSample ==> |item.input| == Min(config.maxPrefillChunkLen, remaining)
  }

  ghost predicate ItemBounds(st: State, item: ScheduledRequest, remaining: nat) {
    && 0 < |item.input| <= remaining && FillsChunk(st.config, item, remaining)
    && (item.workType == Prefill ==> |item.input| <= st.config.maxPrefillChunkLen)
    && (item.workType == Decode ==> |item.input| == 1)
  }

  lemma ReserveRunning(st: State, batch: seq<ScheduledRequest>, id: RequestId, tokens: nat)
    requires CacheOk(st) && ListsOk(st) && LengthsOk(st, batch) && NotIn(batch, id) && id in st.running
    requires id in st.requests && tokens >= st.requests[id].cachedLen && tokens > 0
    ensures var (c1, r) := st.cache.ReserveTo(id, None, tokens);
            && (r.Err? ==> c1 == st.cache && r.error.InsufficientBlocks?)
            && (r.Ok? ==>
                  && CacheInv(c1, OwnedOf(st)) && c1.blockLen == st.cache.blockLen
                  && c1.tables == st.cache.tables[id := r.value]
                  && st.cache.BlockTable(id) <= r.value && c1.pool.sealed == st.cache.pool.sealed
                  && |r.value| == CeilDiv(tokens, st.cache.blockLen))
  {
    hide Cache.ReserveTo, CacheInv;
    OwnedKeys(st);
    var owned := OwnedOf(st);
    assert id in owned && id in st.cache.tables;
    ReserveToEffect(st.cache, owned, id, None, tokens, owned[id]);
    assert owned[id := owned[id]] == owned;
    NotInFind(batch, id);
    CeilDivMono(st.requests[id].cachedLen, tokens, st.cache.blockLen);
  }

  lemma RunningBlocked(st: State, batch: seq<ScheduledRequest>, id: RequestId, tokens: nat)
    requires CacheOk(st) && ListsOk(st) && LengthsOk(st, batch) && NotIn(batch, id) && id in st.running
    requires id in st.requests && tokens >= st.requests[id].cachedLen && tokens > 0
    ensures st.cache.ReserveTo(id, None, tokens).1.Err? <==> Missing(st.cache, id, None, tokens) > |st.cache.pool.free|
  {
    hide Cache.ReserveTo, CacheInv, Missing;
    OwnedKeys(st);
    var owned := OwnedOf(st);
    assert id in owned && id in st.cache.tables;
    ReserveToEffect(st.cache, owned, id, None, tokens, owned[id]);
  }

  lemma CeilDivMono(m: nat, n: nat, d: Positive)
    requires m <= n
    ensures CeilDiv(m, d) <= CeilDiv(n, d)
  {
    SpanOfQuotient(m + d - 1, d);
    SpanOfQuotient(n + d - 1, d);
    var a, b := CeilDiv(m, d), CeilDiv(n, d);
    if b < a { SpanMono(b + 1, a, d); }
  }

  lemma AddedItem(st: State, st1: State, batch: seq<ScheduledRequest>, item: ScheduledRequest, ch: Chunk)
    requires Inv(st, batch) && NotIn(batch, item.id)
    requires OnlyTable(st, st1, item.id, item.blockTable)
    requires CacheInv(st1.cache, OwnedOf(st1))
    requires st.IsIn(item.id, Running)
    requires var r := st.requests[item.id];
             && ch.start == r.cachedLen && ch.workType == WorkTypeOf(r) && 0 < ch.len && ch.start + ch.len <= |r.Context()|
             && item == ScheduledItem(r, item.id, ch, item.blockTable)
             && |item.blockTable| == CeilDiv(ch.start + ch.len, st.cache.blockLen)
             && (ch.workType == Prefill ==> (ch.len == ch.pending <==> ch.start + ch.len == |r.Context()|))
             && (ch.workType == Decode ==> ch.len == ch.pending == 1 && r.cachedLen >= |r.prompt|)
    ensures Inv(st1, batch + [item])
  {
    hide CacheInv, LengthsOk, BatchOk, ReqOk;
    assert |item.input| == ch.len;
    assert ItemOk(st1, item);
    AddedBatch(st, st1, batch, item);
    AddedLengths(st, st1, batch, item);
  }

  // ------------------------------------------------------------------ victims

  /** `a` comes before `b` in the policy's order. */
  predicate Precedes(st: State, a: RequestId, b: RequestId) {
    a in st.requests && b in st.requests && st.policy.Before(st.PolicyRequestOf(a), st.PolicyRequestOf(b))
  }

  /** `a` goes before `b`: it decodes and `b` does not, where decoding comes first; or else it arrived
      earlier. */
  predicate Sooner(st: State, a: RequestId, b: RequestId) {
    && a in st.requests && b in st.requests
    && var x, y := st.requests[a], st.requests[b];
       if st.policy == DecodeFirst && WorkTypeOf(x) != WorkTypeOf(y) then x.cachedLen >= |x.prompt| else x.arrival < y.arrival
  }

  lemma PrecedesIsSooner(st: State, a: RequestId, b: RequestId)
    requires ArrivalsOk(st) && a != b
    ensures Precedes(st, a, b) <==> Sooner(st, a, b)
  {
  }

  lemma {:induction false} PolicyRequestsDistinct(st: State, ids: seq<RequestId>)
    requires ArrivalsOk(st) && Distinct(ids)
    ensures ArrivalsDistinct(st.PolicyRequests(ids))
  {
    if ids != [] {
      assert Distinct(ids[1..]);
      assert ids[0] !in ids[1..];
      PolicyRequestsDistinct(st, ids[1..]);
      PolicyRequestsAre(st, ids[1..]);
      if st.IsIn(ids[0], Running) {
        var s, tail := st.PolicyRequests(ids), st.PolicyRequests(ids[1..]);
        forall j | 0 < j < |s| ensures s[0].arrival != s[j].arrival {
          assert s[j] == tail[j - 1] && tail[j - 1] in tail;
        }
      }
    }
  }

  /** The running requests in the policy's order: all of them, each once. */
  lemma OrderedRunningOk(st: State)
    requires ArrivalsOk(st) && ListsOk(st)
    ensures var ids := Ids(st.OrderedRunning());
            && (forall id :: id in ids <==> id in st.running)
            && (forall i, j :: 0 <= i < j < |ids| ==> Precedes(st, ids[i], ids[j]))
    ensures forall y :: y in st.OrderedRunning() ==> y.id in st.requests && y == st.PolicyRequestOf(y.id)
  {
    var s := st.OrderedRunning();
    var ids := Ids(s);
    PolicyRequestsDistinct(st, st.running);
    PolicyRequestsAre(st, st.running);
    SortSorts(st.policy, st.PolicyRequests(st.running));
    forall id ensures id in ids <==> id in st.running {
      if id in st.running {
        assert st.IsIn(id, Running);
        assert st.PolicyRequestOf(id) in s;
        var k :| 0 <= k < |s| && s[k] == st.PolicyRequestOf(id);
        assert ids[k] == id;
      }
      if id in ids {
        var k :| 0 <= k < |ids| && ids[k] == id;
        assert s[k] in s;
      }
    }
    forall i, j | 0 <= i < j < |ids| ensures Precedes(st, ids[i], ids[j]) {
      assert s[i] in s && s[j] in s;
    }
  }

  lemma {:induction false} LastUnprotectedMeans(s: seq<PolicyRequest>, protected: set<RequestId>)
    ensures var v := LastUnprotected(s, protected);
            && (v.None? ==> forall y :: y in s ==> y.id in protected)
            && (v.Some? ==> exists k :: 0 <= k < |s| && s[k].id == v.value && v.value !in protected
                              && forall j :: k < j < |s| ==> s[j].id in protected)
  {
    if s != [] {
      var front := s[..|s| - 1];
      if s[|s| - 1].id in protected {
        LastUnprotectedMeans(front, protected);
        assert forall y :: y in s <==> y == s[|s| - 1] || y in front;
        var v := LastUnprotected(front, protected);
        if v.Some? {
          var k :| 0 <= k < |front| && front[k].id == v.value && v.value !in protected
                   && forall j :: k < j < |front| ==> front[j].id in protected;
          assert s[k] == front[k];
          assert forall j :: k < j < |s| ==> s[j].id in protected by {
            forall j | k < j < |s| ensures s[j].id in protected {
              if j < |s| - 1 { assert s[j] == front[j]; }
            }
          }
        }
      } else {
        assert s[|s| - 1].id == LastUnprotected(s, protected).value;
      }
    }
  }

  /** The victim is a running request outside the batch, and the last of those in the
      policy's order; there is one as soon as some running request is outside the batch. */
  lemma VictimOk(st: State, protected: set<RequestId>, id: RequestId)
    requires ArrivalsOk(st) && ListsOk(st) && id in st.running && id !in protected
    ensures var v := st.VictimId(protected);
            && v.Some? && v.value in st.running && v.value !in protected
            && (forall u :: u in st.running && u !in protected && u != v.value ==> Precedes(st, u, v.value) && Sooner(st, u, v.value))
  {
    hide Precedes, Sooner, State.OrderedRunning, ArrivalsOk, ListsOk;
    var s := st.OrderedRunning();
    var ids := Ids(s);
    OrderedRunningOk(st);
    LastUnprotectedMeans(s, protected);
    var v := LastUnprotected(s, protected);
    var a :| 0 <= a < |ids| && ids[a] == id;
    assert s[a] in s;
    var k :| 0 <= k < |s| && s[k].id == v.value && v.value !in protected
             && forall j :: k < j < |s| ==> s[j].id in protected;
    assert ids[k] == v.value;
    forall u | u in st.running && u !in protected && u != v.value ensures Precedes(st, u, v.value) && Sooner(st, u, v.value) {
      PrecedesIsSooner(st, u, v.value);
      var b :| 0 <= b < |ids| && ids[b] == u;
      assert s[b].id == u;
    }
  }

  // -------------------------------------------------------------------- sweep

  function BatchIds(batch: seq<ScheduledRequest>): set<RequestId> {
    set i | 0 <= i < |batch| :: batch[i].id
  }

  lemma BatchIdsAppend(batch: seq<ScheduledRequest>, item: ScheduledRequest)
    ensures BatchIds(batch + [item]) == BatchIds(batch) + {item.id}
  {
    var b := batch + [item];
    forall x ensures x in BatchIds(b) <==> x in BatchIds(batch) || x == item.id {
      if x in BatchIds(batch) {
        var i :| 0 <= i < |batch| && batch[i].id == x;
        assert b[i].id == x;
      }
      if x == item.id { assert b[|batch|].id == x; }
    }
  }

  lemma NotInIds(batch: seq<ScheduledRequest>, id: RequestId)
    ensures NotIn(batch, id) <==> id !in BatchIds(batch)
  {
  }

  function Preempted(r: Req): Req { r.(state := Waiting, cachedLen := 0) }

  function OutOfMem(r: Req): Req { r.(state := Failed, error := Some(OutOfMemory)) }

  /** What the loop over the running requests may do to one of them. */
  predicate SweptReq(r0: Req, r1: Req) {
    r1 == r0 || (r0.state == Running && (r1 == Preempted(r0) || r1 == OutOfMem(r0)))
  }

  ghost predicate SweepFrame(st0: State, st: State) {
    && st == st0.(cache := st.cache, requests := st.requests, waiting := st.waiting, running := st.running)
    && st.cache.blockLen == st0.cache.blockLen
    && st.requests.Keys == st0.requests.Keys
    && (forall x :: x in st.requests ==> SweptReq(st0.requests[x], st.requests[x]))
    && (forall x :: x in st.cache.tables ==> x in st0.cache.tables && st0.cache.tables[x] <= st.cache.tables[x])
    && SealedWithin(st.cache, st0.cache)
  }

  /** Whoever was preempted comes, in the policy's order, after everyone still running. */
  ghost predicate PreemptedLater(st0: State, st: State) {
    forall v, r :: v in st0.running && st.IsIn(v, Waiting) && r in st.running ==> Precedes(st0, r, v)
  }

  /** The batch comes, in the policy's order, before everyone else running. */
  ghost predicate BatchFirst(st0: State, st: State, batch: seq<ScheduledRequest>) {
    forall i, u :: 0 <= i < |batch| && u in st.running && u !in BatchIds(batch) ==> Precedes(st0, batch[i].id, u)
  }

  ghost predicate SweepInv(st0: State, st: State, batch: seq<ScheduledRequest>) {
    && Inv(st, batch) && ListsOk(st0) && SweepFrame(st0, st) && PreemptedLater(st0, st) && BatchFirst(st0, st, batch)
  }

  lemma SweptPrecedes(st0: State, st: State, a: RequestId, b: RequestId)
    requires SweepFrame(st0, st) && st.IsIn(a, Running) && st.IsIn(b, Running) && Precedes(st, a, b)
    ensures Precedes(st0, a, b)
  {
  }

  /** Preempting the victim keeps all of it. */
  lemma SweepPreempt(st0: State, st: State, batch: seq<ScheduledRequest>, v: RequestId)
    requires SweepInv(st0, st, batch) && v in st.running && v !in BatchIds(batch)
    requires forall u :: u in st.running && u !in BatchIds(batch) && u != v ==> Precedes(st, u, v)
    ensures var (st1, s) := st.PreemptId(v);
            s == Done && SweepInv(st0, st1, batch)
            && (forall x :: x in st1.running <==> x in st.running && x != v)
            && st1.requests == st.requests[v := Preempted(st.requests[v])]
  {
    hide Inv;
    NotInIds(batch, v);
    assert ListsOk(st) && Inv(st, batch) by { InvLists(st, batch); }
    PreemptOk(st, batch, v);
    var st1 := st.PreemptId(v).0;
    WithoutElements(st.running, v);
    assert st.IsIn(v, Running);
    PreemptedIsLater(st0, st, batch, v, st1);
  }

  lemma PreemptedIsLater(st0: State, st: State, batch: seq<ScheduledRequest>, v: RequestId, st1: State)
    requires SweepFrame(st0, st) && PreemptedLater(st0, st) && BatchFirst(st0, st, batch) && ListsOk(st)
    requires v in st.running && v !in BatchIds(batch)
    requires forall u :: u in st.running && u !in BatchIds(batch) && u != v ==> Precedes(st, u, v)
    requires forall x :: x in st1.running <==> x in st.running && x != v
    requires v in st.requests && st1.requests == st.requests[v := Preempted(st.requests[v])]
    ensures PreemptedLater(st0, st1)
  {
    hide Precedes, SweepFrame;
    ListsMember(st, v);
    forall w, r | w in st0.running && st1.IsIn(w, Waiting) && r in st1.running ensures Precedes(st0, r, w) {
      ListsMember(st, r);
      if w == v {
        if r in BatchIds(batch) {
          var i :| 0 <= i < |batch| && batch[i].id == r;
        } else {
          SweptPrecedes(st0, st, r, v);
        }
      } else {
        assert st.IsIn(w, Waiting);
      }
    }
  }

  lemma InvLists(st: State, batch: seq<ScheduledRequest>)
    requires Inv(st, batch)
    ensures ListsOk(st) && ArrivalsOk(st)
  {
  }

  lemma SweepFail(st0: State, st: State, batch: seq<ScheduledRequest>, id: RequestId)
    requires SweepInv(st0, st, batch) && id in st.running && id !in BatchIds(batch)
    ensures var (st1, s) := st.FailId(id);
            s == Done && SweepInv(st0, st1, batch)
            && (forall x :: x in st1.running <==> x in st.running && x != id)
            && st1.requests == st.requests[id := OutOfMem(st.requests[id])]
  {
    hide Inv;
    NotInIds(batch, id);
    assert ListsOk(st) && Inv(st, batch) by { InvLists(st, batch); }
    FailOk(st, batch, id);
    var st1 := st.FailId(id).0;
    WithoutElements(st.running, id);
    assert st.IsIn(id, Running);
    forall w, r | w in st0.running && st1.IsIn(w, Waiting) && r in st1.running ensures Precedes(st0, r, w) {
      assert st.IsIn(w, Waiting);
    }
  }

  /** `id` comes next: before everyone else running outside the batch. */
  ghost predicate IsNext(st0: State, st: State, batch: seq<ScheduledRequest>, id: RequestId) {
    && id in st.running && id !in BatchIds(batch)
    && forall u :: u in st.running && u !in BatchIds(batch) && u != id ==> Precedes(st0, id, u)
  }

  lemma RunningHasTable(st: State, batch: seq<ScheduledRequest>, id: RequestId)
    requires Inv(st, batch)
    ensures id in st.cache.tables <==> id in st.running
  {
    hide CacheInv;
    OwnedKeys(st);
  }

  lemma SweepSelect(st0: State, st: State, batch: seq<ScheduledRequest>, st1: State, item: ScheduledRequest)
    requires SweepInv(st0, st, batch) && IsNext(st0, st, batch, item.id)
    requires OnlyTable(st, st1, item.id, item.blockTable) && Inv(st1, batch + [item])
    ensures SweepInv(st0, st1, batch + [item])
  {
    hide Inv;
    assert item.id in st.cache.tables by { RunningHasTable(st, batch, item.id); }
    BatchIdsAppend(batch, item);
    var b := batch + [item];
    forall i, u | 0 <= i < |b| && u in st1.running && u !in BatchIds(b) ensures Precedes(st0, b[i].id, u) {
      if i < |batch| { assert b[i] == batch[i]; }
    }
  }

  /** At this point of the sweep, with `batch` selected, it is the turn of `id` and its blocks are not free. */
  ghost predicate Pressed(st0: State, st: State, batch: seq<ScheduledRequest>, id: RequestId, remaining: nat) {
    SweepInv(st0, st, batch) && IsNext(st0, st, batch, id) && Short(st, id, remaining)
  }

  /** At some such point `v` is the last of the others that may be preempted. */
  ghost predicate GivesWay(st0: State, batch: seq<ScheduledRequest>, id: RequestId, remaining: nat, v: RequestId) {
    v != id && v !in BatchIds(batch)
    && exists st :: Pressed(st0, st, batch, id, remaining) && v in st.running
                    && forall u :: u in st.running && u !in BatchIds(batch) && u != v ==> Precedes(st, u, v)
  }

  /** At some such point nobody is left who could be preempted. */
  ghost predicate NobodyLeft(st0: State, batch: seq<ScheduledRequest>, id: RequestId, remaining: nat) {
    exists st :: Pressed(st0, st, batch, id, remaining) && forall u :: u in st.running ==> u == id || u in BatchIds(batch)
  }

  /** A request gives way only while blocks are missing, the last first; and `id` itself is failed only
      when nobody is left. */
  lemma {:induction false} TryScheduleNeeds(st0: State, st: State, batch: seq<ScheduledRequest>, id: RequestId, remaining: nat)
    requires SweepInv(st0, st, batch) && IsNext(st0, st, batch, id) && remaining > 0
    ensures var (st1, r) := st.TrySchedule(id, remaining, BatchIds(batch));
            && (forall v :: st1.IsIn(v, Waiting) ==> st.IsIn(v, Waiting) || GivesWay(st0, batch, id, remaining, v))
            && (forall x :: st1.IsIn(x, Failed) ==> st.IsIn(x, Failed) || (x == id && NobodyLeft(st0, batch, id, remaining)))
            && (r == Ok(None) ==> NobodyLeft(st0, batch, id, remaining) && forall u :: u in st1.running ==> u in BatchIds(batch))
    decreases |st.running|
  {
    hide Inv, SweepInv, Short, Precedes, BatchIds, State.ScheduleOne, State.PreemptId, State.FailId, State.VictimId;
    var protected := BatchIds(batch);
    var (sta, ra) := st.ScheduleOne(id, None, remaining);
    NotInIds(batch, id);
    SweepHas(st0, st, batch);
    ScheduleOneOk(st, batch, id, remaining);
    if ra.Err? {
      VictimOk(st, protected, id);
      var v := st.VictimId(protected).value;
      assert Pressed(st0, st, batch, id, remaining);
      if v == id {
        SweepFail(st0, st, batch, id);
        LastIsNext(st0, st, batch, id);
      } else {
        SweepPreempt(st0, st, batch, v);
        assert GivesWay(st0, batch, id, remaining, v);
        PreemptShrinks(st, v);
        TryScheduleNeeds(st0, st.PreemptId(v).0, batch, id, remaining);
      }
    }
  }

  lemma SweepHas(st0: State, st: State, batch: seq<ScheduledRequest>)
    requires SweepInv(st0, st, batch)
    ensures Inv(st, batch) && ListsOk(st) && ArrivalsOk(st)
  {
  }

  /** Who comes first and last is alone. */
  lemma LastIsNext(st0: State, st: State, batch: seq<ScheduledRequest>, id: RequestId)
    requires SweepInv(st0, st, batch) && IsNext(st0, st, batch, id)
    requires forall u :: u in st.running && u !in BatchIds(batch) && u != id ==> Precedes(st, u, id)
    ensures forall u :: u in st.running ==> u == id || u in BatchIds(batch)
  {
    hide Inv, Precedes, BatchIds;
    SweepHas(st0, st, batch);
    forall u | u in st.running ensures u == id || u in BatchIds(batch) {
      if u != id && u !in BatchIds(batch) {
        ListsMember(st, u);
        ListsMember(st, id);
        SweptPrecedes(st0, st, u, id);
        PrecedesOneWay(st0, u, id);
        assert false;
      }
    }
  }

  lemma PrecedesOneWay(st: State, a: RequestId, b: RequestId)
    requires ArrivalsOk(st) && a != b && Precedes(st, a, b)
    ensures !Precedes(st, b, a)
  {
  }

  /** Scheduling the next running request always succeeds in one of two ways: its item joins
      the batch, or it alone is failed; on the way only later requests are preempted. */
  lemma {:induction false} TryScheduleOk(st0: State, st: State, batch: seq<ScheduledRequest>, id: RequestId, remaining: nat)
    requires SweepInv(st0, st, batch) && IsNext(st0, st, batch, id) && remaining > 0
    ensures var (st1, r) := st.TrySchedule(id, remaining, BatchIds(batch));
            && r.Ok?
            && (forall x :: x in st1.running ==> x in st.running)
            && (r.value.None? ==>
                  && SweepInv(st0, st1, batch) && id !in st1.running
                  && NobodyLeft(st0, batch, id, remaining) && forall u :: u in st1.running ==> u in BatchIds(batch))
            && (forall v :: st1.IsIn(v, Waiting) ==> st.IsIn(v, Waiting) || GivesWay(st0, batch, id, remaining, v))
            && (forall x :: st1.IsIn(x, Failed) ==> st.IsIn(x, Failed) || (x == id && NobodyLeft(st0, batch, id, remaining)))
            && (r.value.Some? ==>
                  && r.value.value.id == id && id in st1.running
                  && SweepInv(st0, st1, batch + [r.value.value])
                  && ItemBounds(st0, r.value.value, remaining))
    decreases |st.running|
  {
    hide Inv, SweepFrame, PreemptedLater, BatchFirst, State.ScheduleOne, State.PreemptId, State.FailId, State.VictimId, GivesWay, NobodyLeft, Short;
    TryScheduleNeeds(st0, st, batch, id, remaining);
    var protected := BatchIds(batch);
    var (sta, ra) := st.ScheduleOne(id, None, remaining);
    NotInIds(batch, id);
    InvLists(st, batch);
    ScheduleOneOk(st, batch, id, remaining);
    if ra.Ok? {
      assert st0.config == st.config by { FrameConfig(st0, st); }
      SweepSelect(st0, st, batch, sta, ra.value.value);
    } else {
      VictimOk(st, protected, id);
      var v := st.VictimId(protected).value;
      if v == id {
        SweepFail(st0, st, batch, id);
      } else {
        SweepPreempt(st0, st, batch, v);
        var stb := st.PreemptId(v).0;
        PreemptShrinks(st, v);
        TryScheduleOk(st0, stb, batch, id, remaining);
      }
    }
  }

  lemma FrameConfig(st0: State, st: State)
    requires SweepFrame(st0, st)
    ensures st.config == st0.config
  {
  }

  /** The ids still to visit: in order, outside the batch, and everyone running is among them. */
  ghost predicate RestOk(st0: State, st: State, batch: seq<ScheduledRequest>, ids: seq<RequestId>) {
    && (forall i, j :: 0 <= i < j < |ids| ==> Precedes(st0, ids[i], ids[j]))
    && (forall i :: 0 <= i < |ids| ==> ids[i] !in BatchIds(batch))
    && (forall u :: u in st.running && u !in BatchIds(batch) ==> u in ids)
  }

  function Total(batch: seq<ScheduledRequest>): nat {
    if batch == [] then 0 else Total(batch[..|batch| - 1]) + |batch[|batch| - 1].input|
  }

  lemma TotalAppend(batch: seq<ScheduledRequest>, item: ScheduledRequest)
    ensures Total(batch + [item]) == Total(batch) + |item.input|
  {
    assert (batch + [item])[..|batch|] == batch;
  }

  /** The limits of the configuration. */
  ghost predicate Bounded(config: Config, batch: seq<ScheduledRequest>, remaining: nat) {
    && Total(batch) + remaining == config.maxBatchLen
    && forall i :: 0 <= i < |batch| ==> ItemLimits(config, batch[i]) && FillsBatch(config, batch, i, remaining)
  }

  /** An item that stops short of its context is a whole chunk, or ends a full batch. */
  predicate FillsBatch(config: Config, batch: seq<ScheduledRequest>, i: nat, remaining: nat)
    requires i < |batch|
  {
    batch[i].workType == Prefill && !batch[i].needSample ==>
      |batch[i].input| == config.maxPrefillChunkLen || (i == |batch| - 1 && remaining == 0)
  }

  ghost predicate ItemLimits(config: Config, item: ScheduledRequest) {
    && 0 < |item.input|
    && (item.workType == Prefill ==> |item.input| <= config.maxPrefillChunkLen)
    && (item.workType == Decode ==> |item.input| == 1)
  }

  lemma BoundedAppend(config: Config, batch: seq<ScheduledRequest>, remaining: nat, item: ScheduledRequest)
    requires Bounded(config, batch, remaining) && ItemLimits(config, item) && |item.input| <= remaining
    requires FillsChunk(config, item, remaining)
    ensures Bounded(config, batch + [item], remaining - |item.input|)
  {
    TotalAppend(batch, item);
    var b := batch + [item];
    forall i | 0 <= i < |b| ensures ItemLimits(config, b[i]) && FillsBatch(config, b, i, remaining - |item.input|) {
      if i < |batch| { assert b[i] == batch[i] && FillsBatch(config, batch, i, remaining); }
    }
  }

  lemma RestNext(st0: State, st: State, batch: seq<ScheduledRequest>, ids: seq<RequestId>)
    requires RestOk(st0, st, batch, ids) && ids != [] && ids[0] in st.running
    ensures IsNext(st0, st, batch, ids[0])
  {
    forall u | u in st.running && u !in BatchIds(batch) && u != ids[0] ensures Precedes(st0, ids[0], u) {
      var k :| 0 <= k < |ids| && ids[k] == u;
    }
  }

  lemma RestSkip(st0: State, st: State, batch: seq<ScheduledRequest>, ids: seq<RequestId>, st1: State)
    requires RestOk(st0, st, batch, ids) && ids != []
    requires forall x :: x in st1.running ==> x in st.running
    requires ids[0] !in st1.running
    ensures RestOk(st0, st1, batch, ids[1..])
  {
    assert forall x :: x in ids <==> x == ids[0] || x in ids[1..];
  }

  lemma RestSelected(st0: State, st: State, batch: seq<ScheduledRequest>, ids: seq<RequestId>, st1: State, item: ScheduledRequest)
    requires RestOk(st0, st, batch, ids) && ids != [] && item.id == ids[0]
    requires forall x :: x in st1.running ==> x in st.running
    ensures RestOk(st0, st1, batch + [item], ids[1..])
  {
    BatchIdsAppend(batch, item);
    var rest := ids[1..];
    assert forall x :: x in ids <==> x == ids[0] || x in rest;
    forall i | 0 <= i < |rest| ensures rest[i] !in BatchIds(batch + [item]) {
      assert Precedes(st0, ids[0], ids[i + 1]);
      PrecedesIrreflexive(st0, ids[0]);
    }
  }

  lemma PrecedesIrreflexive(st: State, a: RequestId)
    ensures !Precedes(st, a, a)
  {
    if a in st.requests { StringLessIrreflexive(a); StringLessIrreflexive(st.PolicyRequestOf(a).id); }
  }

  lemma {:induction false} StringLessIrreflexive(a: string)
    ensures !StringLess(a, a)
  {
    if a != [] { StringLessIrreflexive(a[1..]); }
  }

  ghost predicate SweepOk(st0: State, sw: Sweep) {
    && SweepInv(st0, sw.st, sw.selected)
    && sw.protected == BatchIds(sw.selected)
    && Bounded(st0.config, sw.selected, sw.remaining)
  }

  /** What was selected by some point of the sweep, with so many tokens left. */
  ghost predicate SoFar(st0: State, b: seq<ScheduledRequest>, remaining: nat, batch: seq<ScheduledRequest>) {
    b <= batch && remaining > 0 && Total(b) + remaining == st0.config.maxBatchLen
  }

  /** Running requests are preempted only to make room for an earlier one whose blocks are missing, and
      failed only when their own are and nobody else is left to preempt. */
  ghost predicate Contended(st0: State, st: State, batch: seq<ScheduledRequest>) {
    && (forall v :: v in st0.running && st.IsIn(v, Waiting) ==>
          exists b, id, remaining :: SoFar(st0, b, remaining, batch) && GivesWay(st0, b, id, remaining, v))
    && (forall x :: x in st0.running && st.IsIn(x, Failed) ==>
          exists b, remaining :: SoFar(st0, b, remaining, batch) && NobodyLeft(st0, b, x, remaining))
    && AloneIfFailed(st0, st, batch)
  }

  /** Once somebody is failed, whoever was running and still is has a place in the batch. */
  ghost predicate AloneIfFailed(st0: State, st: State, batch: seq<ScheduledRequest>) {
    (exists x :: x in st0.running && st.IsIn(x, Failed)) ==>
      forall u :: u in st0.running && u in st.running ==> u in BatchIds(batch)
  }

  lemma IdsGrow(b: seq<ScheduledRequest>, batch: seq<ScheduledRequest>)
    requires b <= batch
    ensures BatchIds(b) <= BatchIds(batch)
  {
    forall x | x in BatchIds(b) ensures x in BatchIds(batch) {
      var i :| 0 <= i < |b| && b[i].id == x;
      assert batch[i].id == x;
    }
  }

  lemma ContendedStep(st0: State, st: State, batch: seq<ScheduledRequest>, st1: State, batch1: seq<ScheduledRequest>,
                      id: RequestId, remaining: nat)
    requires Contended(st0, st, batch) && SoFar(st0, batch, remaining, batch1)
    requires forall v :: st1.IsIn(v, Waiting) ==> st.IsIn(v, Waiting) || GivesWay(st0, batch, id, remaining, v)
    requires forall x :: st1.IsIn(x, Failed) ==> st.IsIn(x, Failed) || (x == id && NobodyLeft(st0, batch, id, remaining))
    requires forall u :: u in st1.running ==> u in st.running
    requires st1.IsIn(id, Failed) ==> forall u :: u in st1.running ==> u in BatchIds(batch)
    ensures Contended(st0, st1, batch1)
  {
    hide GivesWay, NobodyLeft, Total, BatchIds;
    IdsGrow(batch, batch1);
    forall v | v in st0.running && st1.IsIn(v, Waiting)
      ensures exists b, id, remaining :: SoFar(st0, b, remaining, batch1) && GivesWay(st0, b, id, remaining, v)
    {
      if st.IsIn(v, Waiting) {
        var b, x, rem :| SoFar(st0, b, rem, batch) && GivesWay(st0, b, x, rem, v);
        assert SoFar(st0, b, rem, batch1);
      }
    }
    forall x | x in st0.running && st1.IsIn(x, Failed)
      ensures exists b, remaining :: SoFar(st0, b, remaining, batch1) && NobodyLeft(st0, b, x, remaining)
    {
      if st.IsIn(x, Failed) {
        var b, rem :| SoFar(st0, b, rem, batch) && NobodyLeft(st0, b, x, rem);
        assert SoFar(st0, b, rem, batch1);
      }
    }
  }

  lemma ContendedFrame(st0: State, st: State, batch: seq<ScheduledRequest>, st1: State, batch1: seq<ScheduledRequest>)
    requires Contended(st0, st, batch) && batch <= batch1
    requires forall x :: (st1.IsIn(x, Waiting) ==> st.IsIn(x, Waiting)) && (st1.IsIn(x, Failed) ==> st.IsIn(x, Failed))
    requires forall u :: u in st1.running ==> u in st.running || u in BatchIds(batch1)
    ensures Contended(st0, st1, batch1)
  {
    hide GivesWay, NobodyLeft, Total, BatchIds;
    IdsGrow(batch, batch1);
    forall v | v in st0.running && st1.IsIn(v, Waiting)
      ensures exists b, id, remaining :: SoFar(st0, b, remaining, batch1) && GivesWay(st0, b, id, remaining, v)
    {
      var b, x, rem :| SoFar(st0, b, rem, batch) && GivesWay(st0, b, x, rem, v);
      assert SoFar(st0, b, rem, batch1);
    }
    forall x | x in st0.running && st1.IsIn(x, Failed)
      ensures exists b, remaining :: SoFar(st0, b, remaining, batch1) && NobodyLeft(st0, b, x, remaining)
    {
      var b, rem :| SoFar(st0, b, rem, batch) && NobodyLeft(st0, b, x, rem);
      assert SoFar(st0, b, rem, batch1);
    }
  }

  /** The loop over the running requests never fails; it stops early only with a full batch,
      and otherwise leaves nobody running outside the batch. */
  lemma {:induction false} RunAllOk(st0: State, sw: Sweep, ids: seq<RequestId>)
    requires SweepOk(st0, sw) && RestOk(st0, sw.st, sw.selected, ids) && Contended(st0, sw.st, sw.selected)
    ensures var (sw1, s) := sw.RunAll(ids);
            && s == Done && SweepOk(st0, sw1) && Contended(st0, sw1.st, sw1.selected)
            && (sw1.remaining > 0 ==> forall u :: u in sw1.st.running ==> u in BatchIds(sw1.selected))
    decreases |ids|
  {
    hide SweepInv, RestOk, Bounded, BatchIds, State.TrySchedule, Contended, GivesWay, NobodyLeft, SoFar;
    if ids != [] && sw.remaining > 0 {
      SweepLists(st0, sw);
      if !sw.st.IsIn(ids[0], Running) {
        RestSkip(st0, sw.st, sw.selected, ids, sw.st);
        RunAllOk(st0, sw, ids[1..]);
      } else {
        RestNext(st0, sw.st, sw.selected, ids);
        TryScheduleOk(st0, sw.st, sw.selected, ids[0], sw.remaining);
        var (st1, r) := sw.st.TrySchedule(ids[0], sw.remaining, sw.protected);
        if r.value.None? {
          RestSkip(st0, sw.st, sw.selected, ids, st1);
          NothingAdded(st0, sw);
          ContendedStep(st0, sw.st, sw.selected, st1, sw.selected, ids[0], sw.remaining);
          RunAllOk(st0, sw.(st := st1), ids[1..]);
        } else {
          var item := r.value.value;
          RestSelected(st0, sw.st, sw.selected, ids, st1, item);
          BoundedAppend(st0.config, sw.selected, sw.remaining, item);
          BatchIdsAppend(sw.selected, item);
          OneAdded(st0, sw, item);
          SweepLists(st0, sw.Select(st1, item));
          ContendedStep(st0, sw.st, sw.selected, st1, sw.selected + [item], ids[0], sw.remaining);
          RunAllOk(st0, sw.Select(st1, item), ids[1..]);
        }
      }
    } else {
      RestEmpty(st0, sw.st, sw.selected, ids);
    }
  }

  lemma NothingAdded(st0: State, sw: Sweep)
    requires SweepOk(st0, sw) && sw.remaining > 0
    ensures SoFar(st0, sw.selected, sw.remaining, sw.selected)
  {
    hide SweepInv;
  }

  lemma OneAdded(st0: State, sw: Sweep, item: ScheduledRequest)
    requires SweepOk(st0, sw) && sw.remaining > 0
    ensures SoFar(st0, sw.selected, sw.remaining, sw.selected + [item])
  {
    hide SweepInv;
  }

  lemma RestEmpty(st0: State, st: State, batch: seq<ScheduledRequest>, ids: seq<RequestId>)
    requires RestOk(st0, st, batch, ids)
    ensures ids == [] ==> forall u :: u in st.running ==> u in BatchIds(batch)
  {
  }

  lemma SweepLists(st0: State, sw: Sweep)
    requires SweepOk(st0, sw)
    ensures forall x :: x in sw.st.running <==> sw.st.IsIn(x, Running)
  {
  }

  // ---------------------------------------------------------------- admission

  /** What the admitted request owns: what its plan reused. */
  function PlannedOwned(st: State, id: RequestId, plan: Option<ReusePlan>): Owned
    requires id in st.requests
  {
    var m := PlannedBlocks(plan);
    Owned(Take(st.requests[id].prompt, Span(m, st.cache.blockLen)), m)
  }

  function ReusedLen(plan: Option<ReusePlan>): nat { if plan.Some? then plan.value.reusedLen else 0 }

  function AdmittedReq(r: Req, plan: Option<ReusePlan>): Req {
    r.(state := Running, cachedLen := ReusedLen(plan))
  }

  /** The first chunk of a waiting request starts after what its plan reuses and fits. */
  lemma WaitingChunk(st: State, id: RequestId, plan: Option<ReusePlan>, remaining: nat)
    requires id in st.requests && ReqOk(st.requests[id]) && st.requests[id].state == Waiting && remaining > 0
    requires ReusedLen(plan) < |st.requests[id].prompt|
    ensures var r := st.requests[id];
            var ch := ChunkOf(st.config, r, plan, remaining);
            && ch.start == ReusedLen(plan) && 0 < ch.len <= remaining && ch.start + ch.len <= |r.Context()|
            && ch.workType == Prefill && ch.len <= st.config.maxPrefillChunkLen
            && (ch.len == ch.pending <==> ch.start + ch.len == |r.Context()|)
            && (ch.len != ch.pending ==> ch.len == Min(st.config.maxPrefillChunkLen, remaining))
  {
  }

  lemma WaitingPlan(st: State, batch: seq<ScheduledRequest>, id: RequestId)
    requires Inv(st, batch) && st.IsIn(id, Waiting)
    ensures var plan := st.cache.PlanReuse(st.requests[id].prompt);
            && ReusedLen(plan) == Span(PlannedBlocks(plan), st.cache.blockLen) < |st.requests[id].prompt|
            && (plan.Some? ==> PlanOk(st.cache, plan.value, PlannedOwned(st, id, plan)))
            && (plan.Some? <==> PlannedBlocks(plan) > 0)
            && id !in st.cache.tables && id !in st.running
  {
    hide CacheInv, BatchOk, LengthsOk, PlanOk;
    OwnedKeys(st);
    assert ReqOk(st.requests[id]);
    var prompt := st.requests[id].prompt;
    PlanReuseLongest(st.cache, OwnedOf(st), prompt);
    var plan := st.cache.PlanReuse(prompt);
    if plan.Some? { PlanLength(st.cache, plan.value, PlannedOwned(st, id, plan)); }
  }

  lemma PlanLength(c: Cache, plan: ReusePlan, o: Owned)
    requires PlanOk(c, plan, o)
    ensures plan.reusedLen == Span(|plan.blocks|, c.blockLen)
  {
  }

  lemma ReserveWaiting(st: State, batch: seq<ScheduledRequest>, id: RequestId, tokens: nat)
    requires Inv(st, batch) && st.IsIn(id, Waiting)
    requires tokens > ReusedLen(st.cache.PlanReuse(st.requests[id].prompt))
    ensures var plan := st.cache.PlanReuse(st.requests[id].prompt);
            var (c1, r) := st.cache.ReserveTo(id, plan, tokens);
            && (r.Err? ==> c1 == st.cache && r.error.InsufficientBlocks?)
            && (r.Ok? ==>
                  && CacheInv(c1, OwnedOf(st)[id := PlannedOwned(st, id, plan)])
                  && c1.blockLen == st.cache.blockLen
                  && c1.tables == st.cache.tables[id := r.value]
                  && st.cache.BlockTable(id) <= r.value && c1.pool.sealed == st.cache.pool.sealed
                  && |r.value| == CeilDiv(tokens, st.cache.blockLen))
  {
    hide Cache.ReserveTo, CacheInv, BatchOk, LengthsOk, PlanOk, ListsOk, RequestsOk;
    WaitingPlan(st, batch, id);
    var plan := st.cache.PlanReuse(st.requests[id].prompt);
    var o := PlannedOwned(st, id, plan);
    ReserveToEffect(st.cache, OwnedOf(st), id, plan, tokens, o);
    PlanBelow(st.cache.blockLen, PlannedBlocks(plan), tokens);
  }

  lemma PlanBelow(bl: Positive, m: nat, tokens: nat)
    requires Span(m, bl) < tokens
    ensures m <= CeilDiv(tokens, bl)
  {
    CeilDivBounds(tokens, bl);
    if CeilDiv(tokens, bl) < m { SpanMono(CeilDiv(tokens, bl), m, bl); }
  }

  /** `st2` is `st` after the first waiting request was admitted with `item`. */
  ghost predicate AdmittedState(st: State, st2: State, plan: Option<ReusePlan>, item: ScheduledRequest) {
    && st.waiting != [] && st.waiting[0] == item.id && item.id in st.requests
    && st2 == st.(cache := st2.cache, waiting := st.waiting[1..], running := st.running + [item.id],
                  requests := st.requests[item.id := AdmittedReq(st.requests[item.id], plan)])
    && st2.cache.blockLen == st.cache.blockLen
    && st2.cache.tables == st.cache.tables[item.id := item.blockTable]
    && st2.cache.pool.sealed == st.cache.pool.sealed
  }

  lemma AdmittedLists(st: State, st2: State, plan: Option<ReusePlan>, item: ScheduledRequest)
    requires ListsOk(st) && AdmittedState(st, st2, plan, item) && st.IsIn(item.id, Waiting)
    ensures ListsOk(st2)
  {
    var id := item.id;
    assert st.waiting == [id] + st.waiting[1..];
    assert id in st.waiting && id !in st.running;
    DisjointConcat(st.running, [id]);
    forall x ensures x in st2.running <==> st2.IsIn(x, Running) {
      assert x in st.running <==> st.IsIn(x, Running);
    }
    forall x ensures x in st2.waiting <==> st2.IsIn(x, Waiting) {
      assert x in st.waiting <==> st.IsIn(x, Waiting);
      assert x in st.waiting <==> x == id || x in st.waiting[1..];
    }
  }

  lemma AdmittedCache(st: State, st2: State, plan: Option<ReusePlan>, item: ScheduledRequest)
    requires AdmittedState(st, st2, plan, item) && ReqOk(st.requests[item.id])
    requires ReusedLen(plan) == Span(PlannedBlocks(plan), st.cache.blockLen) < |st.requests[item.id].prompt|
    requires CacheInv(st2.cache, OwnedOf(st)[item.id := PlannedOwned(st, item.id, plan)])
    ensures CacheOk(st2)
  {
    hide CacheInv;
    var id, m, bl := item.id, PlannedBlocks(plan), st.cache.blockLen;
    var r2 := st2.requests[id];
    QuotientIs(ReusedLen(plan), bl, m);
    assert r2.Context()[..Span(m, bl)] == r2.prompt[..Span(m, bl)];
    assert OwnedBy(r2, bl) == PlannedOwned(st, id, plan);
    assert OwnedOf(st2) == OwnedOf(st)[id := PlannedOwned(st, id, plan)];
  }

  lemma AdmittedBatch(st: State, st2: State, plan: Option<ReusePlan>, item: ScheduledRequest, batch: seq<ScheduledRequest>)
    requires BatchOk(st, batch) && NotIn(batch, item.id) && AdmittedState(st, st2, plan, item)
    requires ItemOk(st2, item)
    ensures BatchOk(st2, batch + [item])
  {
    var b := batch + [item];
    forall i | 0 <= i < |b| ensures ItemOk(st2, b[i]) {
      if i < |batch| { ItemFrame(st, st2, batch[i]); }
    }
  }

  lemma AdmittedLengths(st: State, st2: State, plan: Option<ReusePlan>, item: ScheduledRequest, batch: seq<ScheduledRequest>)
    requires LengthsOk(st, batch) && NotIn(batch, item.id) && AdmittedState(st, st2, plan, item)
    requires |item.blockTable| == CeilDiv(ReusedLen(plan) + |item.input|, st.cache.blockLen)
    ensures LengthsOk(st2, batch + [item])
  {
    NotInFind(batch, item.id);
    forall id | id in st2.requests && id in st2.running && id in st2.cache.tables
      ensures |st2.cache.tables[id]| == CeilDiv(st2.requests[id].cachedLen + InFlight(batch + [item], id), st2.cache.blockLen)
    {
      FindItemAppend(batch, item, id);
      assert id in st2.running <==> id in st.running || id == item.id;
    }
  }

  lemma BatchRuns(st: State, batch: seq<ScheduledRequest>, id: RequestId)
    requires BatchOk(st, batch) && !st.IsIn(id, Running)
    ensures NotIn(batch, id)
  {
    forall i | 0 <= i < |batch| ensures batch[i].id != id {
      assert ItemOk(st, batch[i]);
    }
  }

  lemma AdmittedInv(st: State, st2: State, plan: Option<ReusePlan>, item: ScheduledRequest, batch: seq<ScheduledRequest>)
    requires Inv(st, batch) && AdmittedState(st, st2, plan, item) && st.IsIn(item.id, Waiting)
    requires ReusedLen(plan) == Span(PlannedBlocks(plan), st.cache.blockLen) < |st.requests[item.id].prompt|
    requires CacheInv(st2.cache, OwnedOf(st)[item.id := PlannedOwned(st, item.id, plan)])
    requires |item.blockTable| == CeilDiv(ReusedLen(plan) + |item.input|, st.cache.blockLen)
    requires ItemOk(st2, item)
    ensures Inv(st2, batch + [item])
  {
    hide CacheInv, BatchOk, LengthsOk, ListsOk, ItemOk;
    BatchRuns(st, batch, item.id);
    AdmittedLists(st, st2, plan, item);
    AdmittedCache(st, st2, plan, item);
    AdmittedBatch(st, st2, plan, item, batch);
    AdmittedLengths(st, st2, plan, item, batch);
    assert st2.requests[item.id].Context() == st.requests[item.id].Context();
  }

  /** Why the admission loop stops with tokens left: the queue is empty, or the blocks for the
      first chunk of its head are not free. */
  ghost predicate AdmissionBlocked(st: State, remaining: nat) {
    st.waiting != [] ==>
      && st.waiting[0] in st.requests
      && var r := st.requests[st.waiting[0]];
         var plan := st.cache.PlanReuse(r.prompt);
         var ch := ChunkOf(st.config, r, plan, remaining);
         Missing(st.cache, r.id, plan, ch.start + ch.len) > |st.cache.pool.free|
  }

  /** Admitting the head of the queue: it joins running and batch, or there is no room. */
  lemma AdmitHeadOk(st: State, batch: seq<ScheduledRequest>, remaining: nat)
    requires Inv(st, batch) && st.waiting != [] && remaining > 0
    ensures var id := st.waiting[0];
            && st.IsIn(id, Waiting)
            && var plan := st.cache.PlanReuse(st.requests[id].prompt);
               var (st1, r) := st.ScheduleOne(id, plan, remaining);
               && (r.Err? ==> r.error.InsufficientBlocks? && st1 == st && AdmissionBlocked(st, remaining))
               && (r.Ok? ==>
                     && r.value.Some?
                     && var item := r.value.value;
                        && item.id == id && ItemBounds(st, item, remaining)
                        && OnlyTable(st, st1, id, item.blockTable)
                        && var st2 := st1.(waiting := st.waiting[1..], running := st.running + [id],
                                           requests := st.requests[id := AdmittedReq(st.requests[id], plan)]);
                           AdmittedState(st, st2, plan, item) && Inv(st2, batch + [item]))
  {
    hide Cache.ReserveTo, CacheInv, BatchOk, LengthsOk, State.ScheduleOne, AdmittedState, Missing, Cache.PlanReuse, ReqOk;
    var id := st.waiting[0];
    assert id in st.waiting;
    assert st.IsIn(id, Waiting);
    var r := st.requests[id];
    assert r.id == id && ReqOk(r);
    var plan := st.cache.PlanReuse(r.prompt);
    WaitingPlan(st, batch, id);
    WaitingChunk(st, id, plan, remaining);
    var ch := ChunkOf(st.config, r, plan, remaining);
    ReserveWaiting(st, batch, id, ch.start + ch.len);
    ScheduleOneDef(st, id, plan, remaining);
    var (c1, table) := st.cache.ReserveTo(id, plan, ch.start + ch.len);
    if table.Ok? {
      AdmitItem(st, batch, id, plan, ch, c1, table.value);
    } else {
      ReserveBlocked(st, batch, id, ch.start + ch.len);
      assert st == st.(cache := c1);
    }
  }

  lemma ScheduleOneDef(st: State, id: RequestId, plan: Option<ReusePlan>, remaining: nat)
    requires id in st.requests
    requires var ch := ChunkOf(st.config, st.requests[id], plan, remaining);
             0 < ch.len && ch.start + ch.len <= |st.requests[id].Context()|
    ensures var ch := ChunkOf(st.config, st.requests[id], plan, remaining);
            var (c, table) := st.cache.ReserveTo(id, plan, ch.start + ch.len);
            st.ScheduleOne(id, plan, remaining) ==
              (st.(cache := c),
               if table.Err? then Err(table.error)
               else Ok(Some(ScheduledItem(st.requests[id], id, ch, table.value))))
  {
    hide ChunkOf, Cache.ReserveTo, ScheduledItem;
  }

  lemma ReserveBlocked(st: State, batch: seq<ScheduledRequest>, id: RequestId, tokens: nat)
    requires Inv(st, batch) && st.IsIn(id, Waiting)
    requires tokens > ReusedLen(st.cache.PlanReuse(st.requests[id].prompt))
    ensures var plan := st.cache.PlanReuse(st.requests[id].prompt);
            st.cache.ReserveTo(id, plan, tokens).1.Err? <==> Missing(st.cache, id, plan, tokens) > |st.cache.pool.free|
  {
    hide Cache.ReserveTo, CacheInv, BatchOk, LengthsOk, PlanOk, ListsOk, RequestsOk, Missing;
    WaitingPlan(st, batch, id);
    var plan := st.cache.PlanReuse(st.requests[id].prompt);
    ReserveToEffect(st.cache, OwnedOf(st), id, plan, tokens, PlannedOwned(st, id, plan));
  }

  lemma AdmitItem(st: State, batch: seq<ScheduledRequest>, id: RequestId, plan: Option<ReusePlan>, ch: Chunk,
                  c1: Cache, table: seq<BlockId>)
    requires Inv(st, batch) && st.waiting != [] && st.waiting[0] == id && st.IsIn(id, Waiting)
    requires ReusedLen(plan) == Span(PlannedBlocks(plan), st.cache.blockLen) < |st.requests[id].prompt|
    requires ch.start == ReusedLen(plan) && 0 < ch.len && ch.start + ch.len <= |st.requests[id].Context()|
    requires ch.workType == Prefill && (ch.len == ch.pending <==> ch.start + ch.len == |st.requests[id].Context()|)
    requires CacheInv(c1, OwnedOf(st)[id := PlannedOwned(st, id, plan)])
    requires c1.blockLen == st.cache.blockLen && c1.tables == st.cache.tables[id := table]
    requires c1.pool.sealed == st.cache.pool.sealed
    requires |table| == CeilDiv(ch.start + ch.len, st.cache.blockLen)
    ensures var item := ScheduledItem(st.requests[id], id, ch, table);
            var st2 := st.(cache := c1, waiting := st.waiting[1..], running := st.running + [id],
                           requests := st.requests[id := AdmittedReq(st.requests[id], plan)]);
            AdmittedState(st, st2, plan, item) && Inv(st2, batch + [item])
  {
    hide CacheInv, BatchOk, LengthsOk, ListsOk, ReqOk;
    var item := ScheduledItem(st.requests[id], id, ch, table);
    var st2 := st.(cache := c1, waiting := st.waiting[1..], running := st.running + [id],
                   requests := st.requests[id := AdmittedReq(st.requests[id], plan)]);
    assert st2.requests[id].Context() == st.requests[id].Context();
    assert |item.input| == ch.len;
    assert ItemOk(st2, item);
    AdmittedInv(st, st2, plan, item, batch);
  }

  lemma AdmittedDef(sw: Sweep, st1: State, id: RequestId, plan: Option<ReusePlan>, item: ScheduledRequest)
    requires |item.input| <= sw.remaining && st1.waiting != [] && st1.IsIn(id, Waiting)
    requires ReqOk(st1.requests[id]) && ReusedLen(plan) < |st1.requests[id].prompt|
    ensures var st2 := st1.(waiting := st1.waiting[1..], running := st1.running + [id],
                            requests := st1.requests[id := AdmittedReq(st1.requests[id], plan)]);
            sw.Admitted(st1, id, item, ReusedLen(plan)) == (sw.Select(st2, item), Done)
  {
    var r := st1.requests[id];
    var r1 := r.(state := Running);
    assert r.Admit() == (r1, Done);
    assert ReusedLen(plan) != 0 ==> r1.Reuse(ReusedLen(plan)) == (AdmittedReq(r, plan), Done);
    assert st1.requests[id := r1][id := AdmittedReq(r, plan)] == st1.requests[id := AdmittedReq(r, plan)];
    if ReusedLen(plan) == 0 {
      assert AdmittedReq(r, plan) == r1;
    }
  }

  /** Progress of the admission loop, whichever rounds it makes. */
  ghost predicate AdmitOk(config: Config, sw: Sweep) {
    Inv(sw.st, sw.selected) && sw.st.config == config && Bounded(config, sw.selected, sw.remaining)
  }

  lemma AdmitRound(config: Config, sw: Sweep)
    requires AdmitOk(config, sw) && sw.remaining > 0 && sw.st.waiting != []
    ensures sw.st.IsIn(sw.st.waiting[0], Waiting)
    ensures var id := sw.st.waiting[0];
            var plan := sw.st.cache.PlanReuse(sw.st.requests[id].prompt);
            var (st1, r) := sw.st.ScheduleOne(id, plan, sw.remaining);
            && (r.Err? ==> r.error.InsufficientBlocks? && st1 == sw.st && AdmissionBlocked(sw.st, sw.remaining))
            && (r.Ok? ==>
                  && r.value.Some? && st1.waiting != [] && id in st1.requests
                  && |r.value.value.input| <= sw.remaining
                  && var (sw1, s) := sw.Admitted(st1, id, r.value.value, ReusedLen(plan));
                     && s == Done && AdmitOk(config, sw1)
                     && sw1.selected == sw.selected + [r.value.value]
                     && AdmittedState(sw.st, sw1.st, plan, r.value.value)
                     && sw1.st.waiting == sw.st.waiting[1..])
  {
    hide State.ScheduleOne, CacheInv, BatchOk, LengthsOk, Cache.PlanReuse, AdmissionBlocked, Sweep.Admitted, AdmittedState, Bounded, ReqOk;
    hide FillsChunk, FillsBatch, Total, ListsOk, BatchIds, Contended, ArrivalsOk;
    var st, id := sw.st, sw.st.waiting[0];
    assert id in st.waiting;
    AdmitHeadOk(st, sw.selected, sw.remaining);
    WaitingPlan(st, sw.selected, id);
    var plan := st.cache.PlanReuse(st.requests[id].prompt);
    var (st1, r) := st.ScheduleOne(id, plan, sw.remaining);
    if r.Ok? {
      var item := r.value.value;
      assert ReqOk(st.requests[id]);
      AdmittedDef(sw, st1, id, plan, item);
      BoundedAppend(config, sw.selected, sw.remaining, item);
    }
  }

  /** The admission loop never fails and stops only with a full batch or a blocked queue. */
  lemma {:induction false} AdmitAllOk(config: Config, sw: Sweep)
    requires AdmitOk(config, sw)
    ensures var (sw1, s) := sw.AdmitAll();
            && s == Done && AdmitOk(config, sw1)
            && (sw1.remaining > 0 ==> AdmissionBlocked(sw1.st, sw1.remaining))
            && sw.selected <= sw1.selected
            && (sw1.selected == sw.selected ==> sw1 == sw)
            && (forall x :: (sw1.st.IsIn(x, Waiting) ==> sw.st.IsIn(x, Waiting)) && (sw1.st.IsIn(x, Failed) ==> sw.st.IsIn(x, Failed)))
            && (forall u :: u in sw1.st.running ==> u in sw.st.running || u in BatchIds(sw1.selected))
            && sw1.st == sw.st.(cache := sw1.st.cache, requests := sw1.st.requests,
                                waiting := sw1.st.waiting, running := sw1.st.running)
    decreases |sw.st.waiting|
  {
    hide State.ScheduleOne, Inv, Cache.PlanReuse, Sweep.Admitted, Bounded;
    if sw.remaining > 0 && sw.st.waiting != [] {
      AdmitRound(config, sw);
      var id := sw.st.waiting[0];
      var plan := sw.st.cache.PlanReuse(sw.st.requests[id].prompt);
      var (st1, r) := sw.st.ScheduleOne(id, plan, sw.remaining);
      if r.Ok? {
        var next := sw.Admitted(st1, id, r.value.value, ReusedLen(plan)).0;
        AdmitAllOk(config, next);
        BatchIdsAppend(sw.selected, r.value.value);
        IdsGrow(next.selected, sw.AdmitAll().0.selected);
      }
    }
  }

  // ----------------------------------------------------------------- schedule

  function SweepOf(st: State): (Sweep, Status) {
    Sweep(st, st.config.maxBatchLen, {}, []).RunAll(Ids(st.OrderedRunning()))
  }

  /** The first loop of `schedule` preempts only requests that come, in the policy's order,
      after everyone it leaves running, so after everyone it put into the batch. */
  lemma SweepPreemptsLater(st: State)
    requires Inv(st, [])
    ensures var (sw, s) := SweepOf(st);
            && s == Done && SweepOk(st, sw)
            && (forall i, v :: 0 <= i < |sw.selected| && v in st.running && sw.st.IsIn(v, Waiting) ==>
                  Precedes(st, sw.selected[i].id, v) && Sooner(st, sw.selected[i].id, v))
            && (forall i, u :: 0 <= i < |sw.selected| && u in sw.st.running && u !in BatchIds(sw.selected) ==>
                  Sooner(st, sw.selected[i].id, u))
            && Contended(st, sw.st, sw.selected)
            && (sw.remaining > 0 ==> forall u :: u in sw.st.running ==> u in BatchIds(sw.selected))
  {
    hide Inv, Precedes, Sooner, Contended;
    InvLists(st, []);
    assert Contended(st, st, []) by { NoneContended(st); }
    var sw0 := Sweep(st, st.config.maxBatchLen, {}, []);
    var ids := Ids(st.OrderedRunning());
    OrderedRunningOk(st);
    SweepStart(st, sw0, ids);
    RunAllOk(st, sw0, ids);
    var sw := SweepOf(st).0;
    forall i, v | 0 <= i < |sw.selected| && v in st.running && sw.st.IsIn(v, Waiting)
      ensures Precedes(st, sw.selected[i].id, v) && Sooner(st, sw.selected[i].id, v)
    {
      SelectedRuns(st, sw, i);
      PrecedesIrreflexive(st, v);
      PrecedesIsSooner(st, sw.selected[i].id, v);
    }
    forall i, u | 0 <= i < |sw.selected| && u in sw.st.running && u !in BatchIds(sw.selected)
      ensures Sooner(st, sw.selected[i].id, u)
    {
      SelectedFirst(st, sw, i, u);
      PrecedesIsSooner(st, sw.selected[i].id, u);
    }
  }

  lemma SelectedFirst(st: State, sw: Sweep, i: nat, u: RequestId)
    requires SweepOk(st, sw) && i < |sw.selected| && u in sw.st.running && u !in BatchIds(sw.selected)
    ensures Precedes(st, sw.selected[i].id, u) && sw.selected[i].id != u
  {
    hide Inv, Precedes;
    assert sw.selected[i].id in BatchIds(sw.selected);
  }

  lemma NoneContended(st: State)
    requires ListsOk(st)
    ensures Contended(st, st, [])
  {
  }

  lemma SelectedRuns(st: State, sw: Sweep, i: nat)
    requires SweepOk(st, sw) && i < |sw.selected|
    ensures sw.selected[i].id in sw.st.running
  {
    assert ItemOk(sw.st, sw.selected[i]);
  }

  lemma SweepStart(st: State, sw0: Sweep, ids: seq<RequestId>)
    requires Inv(st, []) && sw0 == Sweep(st, st.config.maxBatchLen, {}, [])
    requires forall id :: id in ids <==> id in st.running
    requires forall i, j :: 0 <= i < j < |ids| ==> Precedes(st, ids[i], ids[j])
    ensures SweepOk(st, sw0) && RestOk(st, st, [], ids)
  {
    assert BatchIds([]) == {};
  }

  /** The head of the queue can never be started: its first chunk needs more blocks than exist. */
  predicate HeadTooLarge(st: State) {
    && st.waiting != [] && st.waiting[0] in st.requests
    && var r := st.requests[st.waiting[0]];
       CeilDiv(Min(Min(st.config.maxPrefillChunkLen, |r.Context()|), st.config.maxBatchLen), st.cache.blockLen)
         > |st.cache.pool.blocks|
  }

  lemma NothingRunning(st: State)
    requires Inv(st, []) && st.running == []
    ensures |st.cache.pool.free| == |st.cache.pool.blocks| && st.cache.tables == map[]
    ensures forall id :: st.IsIn(id, Waiting) ==> st.cache.PlanReuse(st.requests[id].prompt) == None
  {
    hide CacheInv, Cache.PlanReuse;
    OwnedKeys(st);
    assert st.cache.tables == map[];
    NoTablesAllFree(st.cache, OwnedOf(st));
    forall id | st.IsIn(id, Waiting) ensures st.cache.PlanReuse(st.requests[id].prompt) == None {
      WaitingPlan(st, [], id);
      NothingSealed(st, st.cache.PlanReuse(st.requests[id].prompt), PlannedOwned(st, id, st.cache.PlanReuse(st.requests[id].prompt)));
    }
  }

  lemma NothingSealed(st: State, plan: Option<ReusePlan>, o: Owned)
    requires CacheOk(st) && st.cache.pool.free == BlockIds(|st.cache.pool.blocks|)
    requires plan.Some? ==> PlanOk(st.cache, plan.value, o)
    requires ReusedLen(plan) == Span(PlannedBlocks(plan), st.cache.blockLen)
    requires plan.Some? ==> PlannedBlocks(plan) > 0
    ensures plan == None
  {
    forall b | 0 <= b < |st.cache.pool.blocks| ensures !st.cache.pool.blocks[b].state.Sealed? {
      assert b in st.cache.pool.free;
    }
    if plan.Some? { PlanNamesSealed(st.cache, plan.value, o); }
  }

  lemma PlanNamesSealed(c: Cache, plan: ReusePlan, o: Owned)
    requires PlanOk(c, plan, o) && |plan.blocks| > 0
    ensures exists b :: 0 <= b < |c.pool.blocks| && c.pool.blocks[b].state.Sealed?
  {
    assert c.pool.blocks[plan.blocks[0]].state.Sealed?;
  }

  lemma BlockedMeansTooLarge(st: State)
    requires Inv(st, []) && st.running == []
    requires st.waiting != []
    ensures AdmissionBlocked(st, st.config.maxBatchLen) <==> HeadTooLarge(st)
  {
    hide Inv, Cache.PlanReuse;
    InvLists(st, []);
    var id := st.waiting[0];
    assert id in st.waiting && st.IsIn(id, Waiting);
    NothingRunning(st);
    HeadFacts(st, id);
  }

  lemma HeadFacts(st: State, id: RequestId)
    requires Inv(st, []) && st.IsIn(id, Waiting)
    ensures var r := st.requests[id]; r.cachedLen == 0 && r.prompt != [] && r.id == id
  {
    assert ReqOk(st.requests[id]);
  }

  /** `schedule` never errs and keeps the invariant.  A batch obeys both limits and names
      nobody twice; without one, nothing is left running, and the queue is empty or its
      head needs more blocks than the pool has. */
  lemma ScheduleOk(st: State)
    requires Consistent(st) && st.outstanding == None
    ensures var (st1, r) := st.Schedule();
            && r.Ok? && Consistent(st1)
            && (r.value.Some? ==>
                  && st1.outstanding == r.value && r.value.value.stepId == st.nextStep
                  && r.value.value.requests != []
                  && DistinctIds(r.value.value.requests)
                  && Total(r.value.value.requests) <= st.config.maxBatchLen
                  && (forall i :: 0 <= i < |r.value.value.requests| ==>
                        ItemLimits(st.config, r.value.value.requests[i]) && WholeChunk(st1, r.value.value.requests, i)))
            && Contended(st, st1, if r.value.Some? then r.value.value.requests else [])
            && (r.value.None? ==>
                  st1.outstanding == None && st1.running == [] && (st1.waiting == [] || HeadTooLarge(st1)))
            && (r.value.None? <==> st1.running == [])
  {
    hide Sweep.RunAll, Sweep.AdmitAll, Inv, AdmissionBlocked, HeadTooLarge, SweepInv, Contended, ItemLimits, WholeChunk, Bounded;
    SweepPreemptsLater(st);
    var (sw, s) := SweepOf(st);
    SweepAdmits(st, sw);
    AdmitAllOk(st.config, sw);
    var (sw1, s1) := sw.AdmitAll();
    assert st.Schedule() ==
      if sw1.selected == [] then (sw1.st, Ok(None))
      else (sw1.st.(nextStep := st.nextStep + 1, outstanding := Some(BatchPlan(st.nextStep, sw1.selected))),
            Ok(Some(BatchPlan(st.nextStep, sw1.selected)))) by { SweepSteps(st, sw); }
    assert sw.st.outstanding == None by { SweepSteps(st, sw); }
    ContendedFrame(st, sw.st, sw.selected, st.Schedule().0, sw1.selected);
    if sw1.selected == [] {
      assert sw.selected == [] && sw1 == sw;
      EmptyBatch(st, sw);
      if sw.st.waiting != [] { BlockedMeansTooLarge(sw.st); }
    } else {
      WithOutstanding(sw1.st, sw1.selected, st.nextStep);
      SelectedStays(sw1.st, sw1.selected);
      BatchFilled(st.config, sw1, st.Schedule().0);
    }
  }

  /** An item that does not reach the end of its context is a whole chunk, or the last of a full batch. */
  ghost predicate WholeChunk(st: State, batch: seq<ScheduledRequest>, i: nat)
    requires i < |batch|
  {
    batch[i].workType == Prefill && batch[i].id in st.requests
    && batch[i].start + |batch[i].input| < |st.requests[batch[i].id].Context()| ==>
      || |batch[i].input| == st.config.maxPrefillChunkLen
      || (i == |batch| - 1 && Total(batch) == st.config.maxBatchLen)
  }

  lemma BatchFilled(config: Config, sw: Sweep, st1: State)
    requires AdmitOk(config, sw) && st1.requests == sw.st.requests && st1.config == config
    ensures Total(sw.selected) <= config.maxBatchLen
    ensures forall i :: 0 <= i < |sw.selected| ==> ItemLimits(config, sw.selected[i]) && WholeChunk(st1, sw.selected, i)
  {
    hide CacheInv, LengthsOk, ItemLimits;
    forall i | 0 <= i < |sw.selected| ensures ItemLimits(config, sw.selected[i]) && WholeChunk(st1, sw.selected, i) {
      assert ItemOk(sw.st, sw.selected[i]) && FillsBatch(config, sw.selected, i, sw.remaining);
    }
  }

  lemma SweepSteps(st: State, sw: Sweep)
    requires SweepOk(st, sw)
    ensures sw.st.nextStep == st.nextStep && sw.st.outstanding == st.outstanding
  {
  }

  lemma SweepAdmits(st: State, sw: Sweep)
    requires SweepOk(st, sw)
    ensures AdmitOk(st.config, sw)
  {
  }

  lemma EmptyBatch(st: State, sw: Sweep)
    requires SweepOk(st, sw) && sw.selected == []
    requires sw.remaining > 0 ==> forall u :: u in sw.st.running ==> u in BatchIds(sw.selected)
    ensures sw.st.running == [] && sw.remaining == sw.st.config.maxBatchLen && Inv(sw.st, [])
  {
    assert BatchIds([]) == {};
    assert forall u :: u !in sw.st.running;
    if sw.st.running != [] { HasElement(sw.st.running); }
  }

  lemma HasElement(s: seq<RequestId>)
    requires s != []
    ensures exists u :: u in s
  {
    assert s[0] in s;
  }

  lemma WithOutstanding(st: State, batch: seq<ScheduledRequest>, step: nat)
    requires Inv(st, batch)
    ensures Consistent(st.(nextStep := step + 1, outstanding := Some(BatchPlan(step, batch))))
    ensures DistinctIds(batch)
  {
    hide CacheInv;
    var st1 := st.(nextStep := step + 1, outstanding := Some(BatchPlan(step, batch)));
    forall i | 0 <= i < |batch| ensures ItemOk(st1, batch[i]) {
      ItemFrame(st, st1, batch[i]);
    }
    OwnedUnchanged(st, st1);
  }

  lemma SelectedStays(st: State, batch: seq<ScheduledRequest>)
    requires Inv(st, batch) && batch != []
    ensures st.running != []
  {
    assert ItemOk(st, batch[0]);
    assert batch[0].id in st.running;
  }
}
