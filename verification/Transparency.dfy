/** The shared prefix cache is invisible: whatever was reused, deduplicated, preempted,
    cancelled or failed, the slots of a running request hold what a forward pass over its own
    context alone would have left there. */
module Transparency {
  import opened Attention
  import opened Base
  import opened BlockPools
  import opened KvCaches
  import opened Requests
  import opened Schedules
  import opened SchedulerInvariants
  import opened SchedulerResults

  /** The slot of a position (src/einf/executors/torch/input.py:291-296).  An index beyond the table
      raises in the source; `PositionsHaveSlots` shows that it does not happen. */
  function SlotOf(table: seq<BlockId>, p: nat, bl: Positive): nat {
    if p / bl < |table| then BlockSlot(table[p / bl], p % bl, bl) else 0
  }

  function BlockSlot(b: BlockId, o: nat, bl: Positive): nat { b * bl + o }

  /** What attention reads at positions 0 to n. */
  function ReadUpTo(m: Memory, table: seq<BlockId>, n: nat, bl: Positive): seq<Kv> {
    if n == 0 then [] else ReadUpTo(m, table, n - 1, bl) + [m(SlotOf(table, n - 1, bl))]
  }

  // -------------------------------------------------------------- positions

  lemma SpanNext(i: nat, bl: nat)
    ensures Span(i + 1, bl) == Span(i, bl) + bl
  {
  }

  /** Different places in blocks have different slots. */
  lemma SlotInjective(b: nat, o: nat, c: nat, x: nat, bl: Positive)
    requires o < bl && x < bl && BlockSlot(b, o, bl) == BlockSlot(c, x, bl)
    ensures b == c && o == x
  {
    SpanIsProduct(b, bl);
    SpanIsProduct(c, bl);
    DivModSplit(b, o, bl);
    DivModSplit(c, x, bl);
  }

  lemma SamePosition(p: nat, q: nat, bl: Positive)
    requires p / bl == q / bl && p % bl == q % bl
    ensures p == q
  {
    DivModJoin(p, bl);
    DivModJoin(q, bl);
  }

  lemma BlockOf(p: nat, n: nat, bl: Positive)
    requires p < n
    ensures p / bl < CeilDiv(n, bl)
  {
    CeilDivBounds(n, bl);
    DivModJoin(p, bl);
    if CeilDiv(n, bl) <= p / bl { SpanMono(CeilDiv(n, bl), p / bl, bl); }
  }

  // ----------------------------------------------------------------- digests

  /** The tokens a digest stands for. */
  function TokensOf(h: Hash): seq<Token> {
    match h
    case Seed => []
    case Chain(p, tokens) => TokensOf(p) + tokens
  }

  lemma {:induction false} TokensOfPrefixHash(tokens: seq<Token>, bl: nat, n: nat)
    requires Span(n, bl) <= |tokens|
    ensures TokensOf(PrefixHash(tokens, bl, n)) == tokens[..Span(n, bl)]
  {
    if n > 0 {
      assert Span(n - 1, bl) <= Span(n, bl);
      TokensOfPrefixHash(tokens, bl, n - 1);
      assert tokens[..Span(n, bl)] == tokens[..Span(n - 1, bl)] + tokens[Span(n - 1, bl)..Span(n, bl)];
    }
  }

  // --------------------------------------------------------------- invariant

  /** The slots of the first `n` positions hold what `ctx` alone would have left there. */
  ghost predicate Holds(m: Memory, table: seq<BlockId>, ctx: seq<Token>, n: nat, bl: Positive) {
    n <= |ctx| && forall p :: 0 <= p < n ==> m(SlotOf(table, p, bl)) == Ideal(ctx, p)
  }

  /** `batch` is what has been executed of the outstanding batch and not yet applied. */
  ghost predicate KvOk(st: State, m: Memory, batch: seq<ScheduledRequest>) {
    forall id :: id in st.requests && id in st.running && id in st.cache.tables ==>
      Holds(m, st.cache.tables[id], st.requests[id].Context(),
            st.requests[id].cachedLen + InFlight(batch, id), st.cache.blockLen)
  }

  /** A sealed block holds the last tokens of what its digest stands for. */
  ghost predicate BlockHolds(m: Memory, b: BlockId, h: Hash, bl: Positive) {
    var tokens := TokensOf(h);
    |tokens| >= bl && forall o :: 0 <= o < bl ==> m(BlockSlot(b, o, bl)) == Ideal(tokens, |tokens| - bl + o)
  }

  ghost predicate SealedKv(c: Cache, m: Memory) {
    forall h :: h in c.pool.sealed ==> BlockHolds(m, c.pool.sealed[h], h, c.blockLen)
  }

  /** A block that an owner sealed holds what its digest says, as soon as the owner's slots do. */
  lemma OwnerBlockHolds(m: Memory, table: seq<BlockId>, ctx: seq<Token>, n: nat, bl: Positive, own: seq<Token>, i: nat)
    requires Holds(m, table, ctx, n, bl) && i < |table|
    requires Span(i + 1, bl) <= |own| && Span(i + 1, bl) <= n && own[..Span(i + 1, bl)] == ctx[..Span(i + 1, bl)]
    ensures BlockHolds(m, table[i], PrefixHash(own, bl, i + 1), bl)
  {
    hide BlockSlot, Ideal, Holds, PrefixHash, TokensOf, Span;
    TokensOfPrefixHash(own, bl, i + 1);
    var tokens := own[..Span(i + 1, bl)];
    SpanNext(i, bl);
    forall o | 0 <= o < bl ensures m(BlockSlot(table[i], o, bl)) == Ideal(tokens, |tokens| - bl + o) {
      OwnerSlotHolds(m, table, ctx, n, bl, tokens, i, o);
    }
  }

  lemma OwnerSlotHolds(m: Memory, table: seq<BlockId>, ctx: seq<Token>, n: nat, bl: Positive, tokens: seq<Token>, i: nat, o: nat)
    requires Holds(m, table, ctx, n, bl) && i < |table| && o < bl
    requires |tokens| == Span(i, bl) + bl <= n && tokens == ctx[..|tokens|]
    ensures m(BlockSlot(table[i], o, bl)) == Ideal(tokens, Span(i, bl) + o)
  {
    hide BlockSlot, Ideal;
    var p := Span(i, bl) + o;
    DivModSplit(i, o, bl);
    assert SlotOf(table, p, bl) == BlockSlot(table[i], o, bl);
    IdealOfPrefix(tokens, ctx, |tokens|, p);
  }

  lemma SlotAt(table: seq<BlockId>, i: nat, o: nat, bl: Positive)
    requires i < |table| && o < bl
    ensures SlotOf(table, Span(i, bl) + o, bl) == BlockSlot(table[i], o, bl)
  {
    hide BlockSlot;
    DivModSplit(i, o, bl);
  }

  /** And the other way: a sealed entry of a table serves anyone with the same tokens. */
  lemma SealedServes(m: Memory, table: seq<BlockId>, ctx: seq<Token>, bl: Positive, own: seq<Token>, i: nat, o: nat)
    requires i < |table| && o < bl
    requires Span(i + 1, bl) <= |own| && Span(i + 1, bl) <= |ctx|
    requires own[..Span(i + 1, bl)] == ctx[..Span(i + 1, bl)]
    requires BlockHolds(m, table[i], PrefixHash(own, bl, i + 1), bl)
    ensures Span(i, bl) + o < |ctx|
    ensures m(SlotOf(table, Span(i, bl) + o, bl)) == Ideal(ctx, Span(i, bl) + o)
  {
    hide SlotOf, BlockHolds, Ideal, PrefixHash, TokensOf, Span;
    TokensOfPrefixHash(own, bl, i + 1);
    SpanNext(i, bl);
    SlotAt(table, i, o, bl);
    ServedSlot(m, table[i], PrefixHash(own, bl, i + 1), bl, ctx, i, o);
  }

  lemma ServedSlot(m: Memory, b: BlockId, h: Hash, bl: Positive, ctx: seq<Token>, i: nat, o: nat)
    requires BlockHolds(m, b, h, bl) && o < bl
    requires |TokensOf(h)| == Span(i, bl) + bl <= |ctx| && TokensOf(h) == ctx[..|TokensOf(h)|]
    ensures m(BlockSlot(b, o, bl)) == Ideal(ctx, Span(i, bl) + o)
  {
    hide BlockSlot, Ideal, TokensOf, Span;
    IdealOfPrefix(TokensOf(h), ctx, |TokensOf(h)|, Span(i, bl) + o);
  }

  lemma OwnedSpans(st: State, id: RequestId)
    requires CacheOk(st) && id in st.cache.tables
    ensures id in st.requests && id in st.running
    ensures var r, bl, o := st.requests[id], st.cache.blockLen, OwnedOf(st)[id];
            o == OwnedBy(r, bl) && Span(o.count, bl) <= r.cachedLen && TableOk(st.cache, st.cache.tables[id], id, o)
  {
    assert id in OwnedOf(st);
    SpanOfQuotient(st.requests[id].cachedLen, st.cache.blockLen);
  }

  /** In a consistent state every sealed block holds what its digest says: some table's owner
      computed it and still holds it. */
  lemma SealedFromTables(st: State, m: Memory, batch: seq<ScheduledRequest>)
    requires CacheOk(st) && KvOk(st, m, batch)
    ensures SealedKv(st.cache, m)
  {
    forall h | h in st.cache.pool.sealed ensures BlockHolds(m, st.cache.pool.sealed[h], h, st.cache.blockLen) {
      SealedBlockHolds(st, m, batch, h);
    }
  }

  lemma SealedBlockHolds(st: State, m: Memory, batch: seq<ScheduledRequest>, h: Hash)
    requires CacheOk(st) && KvOk(st, m, batch) && h in st.cache.pool.sealed
    ensures BlockHolds(m, st.cache.pool.sealed[h], h, st.cache.blockLen)
  {
    hide CacheInv, InFlight, BlockHolds;
    var c, bl := st.cache, st.cache.blockLen;
    var id, i := SealedWitness(c, OwnedOf(st), h);
    OwnedSpans(st, id);
    var o, r := OwnedOf(st)[id], st.requests[id];
    var n := r.cachedLen + InFlight(batch, id);
    assert Holds(m, c.tables[id], r.Context(), n, bl);
    SpanMono(i + 1, o.count, bl);
    assert o.tokens == r.Context()[..Span(o.count, bl)];
    TakeTake(r.Context(), Span(o.count, bl), Span(i + 1, bl));
    OwnerBlockHolds(m, c.tables[id], r.Context(), n, bl, o.tokens, i);
  }

  /** Every position in use has a place in the table. */
  lemma PositionsHaveSlots(st: State, batch: seq<ScheduledRequest>, id: RequestId, p: nat)
    requires Inv(st, batch) && id in st.running
    ensures id in st.requests && id in st.cache.tables
    ensures p < st.requests[id].cachedLen + InFlight(batch, id) ==> p / st.cache.blockLen < |st.cache.tables[id]|
    ensures st.requests[id].cachedLen + InFlight(batch, id) <= |st.requests[id].Context()|
  {
    hide CacheInv, BatchOk, ReqOk;
    ListsMember(st, id);
    RunningHasTable(st, batch, id);
    var r := st.requests[id];
    if p < r.cachedLen + InFlight(batch, id) {
      BlockOf(p, r.cachedLen + InFlight(batch, id), st.cache.blockLen);
    }
    RunningWithin(st, id);
    if FindItem(batch, id).Some? { FoundItemOk(st, batch, id); }
  }

  lemma RunningWithin(st: State, id: RequestId)
    requires RequestsOk(st) && st.IsIn(id, Running)
    ensures st.requests[id].cachedLen < |st.requests[id].Context()|
  {
    assert ReqOk(st.requests[id]);
  }

  // -------------------------------------------------------------- scheduling

  /** Running requests of `st1` ran in `st` with the same progress; tables only got longer. */
  ghost predicate Carried(st: State, st1: State) {
    && st1.cache.blockLen == st.cache.blockLen
    && (forall id :: id in st1.running && id in st1.requests && id in st1.cache.tables ==>
          && id in st.running && id in st.requests && id in st.cache.tables
          && st1.requests[id].Context() == st.requests[id].Context()
          && st1.requests[id].cachedLen == st.requests[id].cachedLen
          && st.cache.tables[id] <= st1.cache.tables[id])
  }

  lemma HoldsLonger(m: Memory, t: seq<BlockId>, t1: seq<BlockId>, ctx: seq<Token>, n: nat, bl: Positive)
    requires Holds(m, t, ctx, n, bl) && t <= t1
    requires forall p :: 0 <= p < n ==> p / bl < |t|
    ensures Holds(m, t1, ctx, n, bl)
  {
    hide Ideal, BlockSlot;
    forall p | 0 <= p < n ensures m(SlotOf(t1, p, bl)) == Ideal(ctx, p) {
      assert SlotOf(t1, p, bl) == SlotOf(t, p, bl);
    }
  }

  lemma HoldsFewer(m: Memory, t: seq<BlockId>, ctx: seq<Token>, n: nat, n1: nat, bl: Positive)
    requires Holds(m, t, ctx, n, bl) && n1 <= n
    ensures Holds(m, t, ctx, n1, bl)
  {
  }

  /** Tables that only get longer keep what their slots hold. */
  lemma CarriedKv(st: State, st1: State, m: Memory, batch: seq<ScheduledRequest>)
    requires Inv(st, batch) && KvOk(st, m, batch) && Carried(st, st1)
    ensures KvOk(st1, m, [])
  {
    hide Inv, Holds, InFlight;
    var bl := st.cache.blockLen;
    forall id | id in st1.requests && id in st1.running && id in st1.cache.tables
      ensures Holds(m, st1.cache.tables[id], st1.requests[id].Context(), st1.requests[id].cachedLen + InFlight([], id), bl)
    {
      NothingInFlight(id);
      var n := st.requests[id].cachedLen;
      HoldsFewer(m, st.cache.tables[id], st.requests[id].Context(), n + InFlight(batch, id), n, bl);
      forall p | 0 <= p < n ensures p / bl < |st.cache.tables[id]| {
        PositionsHaveSlots(st, batch, id, p);
      }
      HoldsLonger(m, st.cache.tables[id], st1.cache.tables[id], st.requests[id].Context(), n, bl);
    }
  }

  lemma NothingInFlight(id: RequestId)
    ensures InFlight([], id) == 0
  {
  }

  lemma SweepCarries(st0: State, st: State)
    requires SweepFrame(st0, st) && ListsOk(st) && ListsOk(st0)
    ensures Carried(st0, st)
  {
    forall id | id in st.running && id in st.requests && id in st.cache.tables
      ensures id in st0.running && st.requests[id] == st0.requests[id]
    {
      assert st.IsIn(id, Running);
      assert SweptReq(st0.requests[id], st.requests[id]);
      assert st0.IsIn(id, Running);
    }
  }

  /** Admission: what a plan reuses was computed, by someone, for the same tokens. */
  lemma AdmittedKv(st: State, st2: State, plan: Option<ReusePlan>, item: ScheduledRequest, m: Memory,
                   batch: seq<ScheduledRequest>, batch2: seq<ScheduledRequest>)
    requires Inv(st, batch) && KvOk(st, m, []) && AdmittedState(st, st2, plan, item) && Inv(st2, batch2)
    requires st.IsIn(item.id, Waiting) && ReusedLen(plan) == Span(PlannedBlocks(plan), st.cache.blockLen)
    ensures KvOk(st2, m, [])
  {
    hide Inv, Holds, InFlight, SealedKv, CacheOk;
    var id, bl := item.id, st.cache.blockLen;
    InvCache(st, batch);
    InvCache(st2, batch2);
    InvLists(st, batch);
    ListsMember(st, id);
    SealedFromTables(st, m, []);
    SealedStays(st.cache, st2.cache, m);
    forall x | x in st2.requests && x in st2.running && x in st2.cache.tables
      ensures Holds(m, st2.cache.tables[x], st2.requests[x].Context(), st2.requests[x].cachedLen + InFlight([], x), bl)
    {
      NothingInFlight(x);
      if x == id {
        AdmittedContext(st, st2, plan, item);
        PlannedHolds(st2, m, batch2, id, PlannedBlocks(plan));
      } else {
        assert x in st.running;
        assert Holds(m, st.cache.tables[x], st.requests[x].Context(), st.requests[x].cachedLen + InFlight([], x), bl);
      }
    }
  }

  lemma InvCache(st: State, batch: seq<ScheduledRequest>)
    requires Inv(st, batch)
    ensures CacheOk(st) && LengthsOk(st, batch)
  {
  }

  lemma SealedStays(c: Cache, c1: Cache, m: Memory)
    requires SealedKv(c, m) && SealedWithin(c1, c) && c1.blockLen == c.blockLen
    ensures SealedKv(c1, m)
  {
  }

  lemma AdmittedContext(st: State, st2: State, plan: Option<ReusePlan>, item: ScheduledRequest)
    requires AdmittedState(st, st2, plan, item)
    ensures st2.requests[item.id].Context() == st.requests[item.id].Context()
    ensures st2.requests[item.id].cachedLen == ReusedLen(plan)
  {
  }

  /** What a table's owner has sealed is right as soon as the sealed index is. */
  lemma SealedPartHolds(st: State, m: Memory, id: RequestId, p: nat)
    requires CacheOk(st) && id in st.cache.tables && SealedKv(st.cache, m)
    requires id in st.requests && p / st.cache.blockLen < st.requests[id].cachedLen / st.cache.blockLen
    requires st.requests[id].cachedLen <= |st.requests[id].Context()|
    ensures p < |st.requests[id].Context()|
    ensures m(SlotOf(st.cache.tables[id], p, st.cache.blockLen)) == Ideal(st.requests[id].Context(), p)
  {
    hide CacheInv, BlockHolds, SlotOf, Ideal, PrefixHash;
    var c, bl, r := st.cache, st.cache.blockLen, st.requests[id];
    var table := c.tables[id];
    OwnedSpans(st, id);
    var o, i := OwnedOf(st)[id], p / bl;
    SpanMono(i + 1, o.count, bl);
    TakeTake(r.Context(), Span(o.count, bl), Span(i + 1, bl));
    SealedEntry(c, OwnedOf(st), id, i);
    DivModJoin(p, bl);
    SealedServes(m, table, r.Context(), bl, o.tokens, i, p % bl);
  }

  lemma SealedEntry(c: Cache, owned: map<RequestId, Owned>, id: RequestId, i: nat)
    requires CacheInv(c, owned) && id in c.tables && i < owned[id].count
    ensures i < |c.tables[id]|
    ensures var h := PrefixHash(owned[id].tokens, c.blockLen, i + 1);
            h in c.pool.sealed && c.pool.sealed[h] == c.tables[id][i]
  {
    assert TableOk(c, c.tables[id], id, owned[id]);
    assert BlockAt(c, c.tables[id], id, owned[id], i);
    var b := c.tables[id][i];
    assert b in c.pool.free || BlockInUse(c.pool, b);
  }

  /** A request whose cached length is a whole number of blocks has sealed all of it. */
  lemma PlannedHolds(st: State, m: Memory, batch: seq<ScheduledRequest>, id: RequestId, k: nat)
    requires Inv(st, batch) && SealedKv(st.cache, m) && id in st.running
    ensures id in st.requests && id in st.cache.tables
    ensures st.requests[id].cachedLen == Span(k, st.cache.blockLen) ==>
              Holds(m, st.cache.tables[id], st.requests[id].Context(), st.requests[id].cachedLen, st.cache.blockLen)
  {
    hide Inv, SealedKv, SlotOf, Ideal, CacheOk;
    PositionsHaveSlots(st, batch, id, 0);
    InvCache(st, batch);
    var r, bl := st.requests[id], st.cache.blockLen;
    if r.cachedLen == Span(k, bl) {
      QuotientIs(r.cachedLen, bl, k);
      forall p | 0 <= p < r.cachedLen
        ensures p < |r.Context()| && m(SlotOf(st.cache.tables[id], p, bl)) == Ideal(r.Context(), p)
      {
        BlockBefore(p, k, bl);
        SealedPartHolds(st, m, id, p);
      }
    }
  }

  lemma BlockBefore(p: nat, k: nat, bl: Positive)
    requires p < Span(k, bl)
    ensures p / bl < k
  {
    DivModJoin(p, bl);
    if k <= p / bl { SpanMono(k, p / bl, bl); }
  }

  lemma {:induction false} AdmitAllKv(config: Config, sw: Sweep, m: Memory)
    requires AdmitOk(config, sw) && KvOk(sw.st, m, [])
    ensures KvOk(sw.AdmitAll().0.st, m, [])
    decreases |sw.st.waiting|
  {
    hide State.ScheduleOne, Inv, Cache.PlanReuse, Sweep.Admitted, Bounded, KvOk;
    AdmitAllRound(sw);
    if sw.remaining > 0 && sw.st.waiting != [] {
      AdmitRound(config, sw);
      var id := sw.st.waiting[0];
      var plan := sw.st.cache.PlanReuse(sw.st.requests[id].prompt);
      WaitingPlan(sw.st, sw.selected, id);
      var (st1, r) := sw.st.ScheduleOne(id, plan, sw.remaining);
      if r.Ok? {
        var sw1 := sw.Admitted(st1, id, r.value.value, ReusedLen(plan)).0;
        AdmittedItem(sw.st, sw1.st, plan, r.value.value);
        AdmittedKv(sw.st, sw1.st, plan, r.value.value, m, sw.selected, sw1.selected);
        AdmitAllKv(config, sw1, m);
      }
    }
  }

  lemma AdmittedItem(st: State, st2: State, plan: Option<ReusePlan>, item: ScheduledRequest)
    requires AdmittedState(st, st2, plan, item)
    ensures st.waiting != [] && st.waiting[0] == item.id
  {
  }

  /** Scheduling moves no data, yet everyone it leaves running finds its own prefix. */
  lemma ScheduleKv(st: State, m: Memory)
    requires Consistent(st) && st.outstanding == None && KvOk(st, m, [])
    ensures KvOk(st.Schedule().0, m, [])
  {
    hide Sweep.RunAll, Sweep.AdmitAll, Inv, KvOk, SweepFrame, PreemptedLater, BatchFirst, Bounded;
    SweepPreemptsLater(st);
    var (sw, s) := SweepOf(st);
    InvLists(sw.st, sw.selected);
    SweepCarries(st, sw.st);
    CarriedKv(st, sw.st, m, []);
    SweepAdmits(st, sw);
    AdmitAllOk(st.config, sw);
    AdmitAllKv(st.config, sw, m);
    var sw1 := sw.AdmitAll().0;
    KvIgnores(sw1.st, st.Schedule().0, m, []);
  }

  lemma KvIgnores(st: State, st1: State, m: Memory, batch: seq<ScheduledRequest>)
    requires KvOk(st, m, batch) && st1.requests == st.requests && st1.running == st.running && st1.cache == st.cache
    ensures KvOk(st1, m, batch)
  {
  }

  // --------------------------------------------------------------- execution

  /** The slot is where some token of the batch is computed. */
  ghost predicate Written(batch: seq<ScheduledRequest>, bl: Positive, slot: nat) {
    exists i, p :: 0 <= i < |batch| && batch[i].start <= p < batch[i].start + |batch[i].input|
                   && SlotOf(batch[i].blockTable, p, bl) == slot
  }

  ghost predicate OnlyBatchWritten(m: Memory, m1: Memory, batch: seq<ScheduledRequest>, bl: Positive) {
    forall slot: nat :: !Written(batch, bl, slot) ==> m1(slot) == m(slot)
  }

  /** Running a batch: every token is computed from what attention reads at the earlier
      positions through the item's block table, where the batch's own tokens are already
      written; no other slot changes. */
  ghost predicate Executed(m: Memory, m1: Memory, batch: seq<ScheduledRequest>, bl: Positive) {
    && OnlyBatchWritten(m, m1, batch, bl)
    && forall i :: 0 <= i < |batch| ==> ItemExecuted(m1, batch[i], bl)
  }

  ghost predicate ItemExecuted(m1: Memory, it: ScheduledRequest, bl: Positive) {
    forall p :: it.start <= p < it.start + |it.input| ==>
      m1(SlotOf(it.blockTable, p, bl)) == Cell(it.input[p - it.start], ReadUpTo(m1, it.blockTable, p, bl))
  }

  /** The slots a batch writes are its own: no other position of any running request, whether
      cached or in flight, has one of them; and the block is unsealed and held once. */
  lemma BatchSlotsExclusive(st: State, batch: seq<ScheduledRequest>, i: nat, p: nat, id: RequestId, q: nat)
    requires Inv(st, batch) && i < |batch| && id in st.running
    requires batch[i].start <= p < batch[i].start + |batch[i].input|
    requires id in st.cache.tables && q / st.cache.blockLen < |st.cache.tables[id]|
    requires SlotOf(batch[i].blockTable, p, st.cache.blockLen) == SlotOf(st.cache.tables[id], q, st.cache.blockLen)
    ensures id == batch[i].id && q == p
  {
    hide CacheInv, BlockSlot, LengthsOk, ReqOk, OwnedOf, ListsOk;
    var it, bl := batch[i], st.cache.blockLen;
    BatchBlock(st, batch, i, p);
    var t, t1 := st.cache.tables[it.id], st.cache.tables[id];
    DivModJoin(p, bl);
    DivModJoin(q, bl);
    SlotInjective(t[p / bl], p % bl, t1[q / bl], q % bl, bl);
    if id == it.id {
      TableDistinct(st.cache, OwnedOf(st), id, p / bl, q / bl);
      SamePosition(p, q, bl);
    } else {
      assert t1[q / bl] in t1;
      WritableExclusive(st.cache, OwnedOf(st), it.id, p / bl, id);
      assert false;
    }
  }

  lemma TableDistinct(c: Cache, owned: map<RequestId, Owned>, id: RequestId, i: nat, j: nat)
    requires CacheInv(c, owned) && id in c.tables && i < |c.tables[id]| && j < |c.tables[id]|
    requires c.tables[id][i] == c.tables[id][j]
    ensures i == j
  {
    assert TableOk(c, c.tables[id], id, owned[id]);
  }

  /** Where a batch writes: past what its request sealed, in a block that only it holds. */
  lemma BatchBlock(st: State, batch: seq<ScheduledRequest>, i: nat, p: nat)
    requires Inv(st, batch) && i < |batch|
    requires batch[i].start <= p < batch[i].start + |batch[i].input|
    ensures var it, bl := batch[i], st.cache.blockLen;
            && it.id in st.cache.tables && it.blockTable == st.cache.tables[it.id]
            && it.id in OwnedOf(st) && OwnedOf(st)[it.id].count <= p / bl < |it.blockTable|
            && it.blockTable[p / bl] < |st.cache.pool.blocks|
            && st.cache.pool.blocks[it.blockTable[p / bl]] == PhysicalBlock(Writable(Some(it.id)), 1)
  {
    hide CacheInv, LengthsOk, ReqOk;
    var it, bl := batch[i], st.cache.blockLen;
    assert ItemOk(st, it);
    assert it.id in st.running;
    FindItemAt(batch, i);
    PositionsHaveSlots(st, batch, it.id, p);
    OwnedSpans(st, it.id);
    QuotientGrows(it.start, p, bl);
    PrivateBlock(st.cache, OwnedOf(st), it.id, p / bl);
  }

  lemma QuotientGrows(m: nat, n: nat, d: Positive)
    requires m <= n
    ensures m / d <= n / d
  {
    SpanOfQuotient(m, d);
    SpanOfQuotient(n, d);
    if n / d < m / d { SpanMono(n / d + 1, m / d, d); }
  }

  lemma PrivateBlock(c: Cache, owned: map<RequestId, Owned>, id: RequestId, i: nat)
    requires CacheInv(c, owned) && id in c.tables && owned[id].count <= i < |c.tables[id]|
    ensures c.tables[id][i] < |c.pool.blocks|
    ensures c.pool.blocks[c.tables[id][i]] == PhysicalBlock(Writable(Some(id)), 1)
  {
    assert BlockAt(c, c.tables[id], id, owned[id], i);
    var b := c.tables[id][i];
    assert b in c.pool.free || BlockInUse(c.pool, b);
  }

  /** What is cached is not written by the batch. */
  lemma CachedNotWritten(st: State, batch: seq<ScheduledRequest>, id: RequestId, q: nat)
    requires Inv(st, batch) && id in st.running && id in st.requests && q < st.requests[id].cachedLen
    ensures id in st.cache.tables
    ensures !Written(batch, st.cache.blockLen, SlotOf(st.cache.tables[id], q, st.cache.blockLen))
  {
    hide Inv, SlotOf, InFlight;
    var bl := st.cache.blockLen;
    PositionsHaveSlots(st, batch, id, q);
    var slot := SlotOf(st.cache.tables[id], q, bl);
    if Written(batch, bl, slot) {
      var i, p :| 0 <= i < |batch| && batch[i].start <= p < batch[i].start + |batch[i].input|
                  && SlotOf(batch[i].blockTable, p, bl) == slot;
      BatchSlotsExclusive(st, batch, i, p, id, q);
      BatchStarts(st, batch, i);
      assert false;
    }
  }

  lemma BatchStarts(st: State, batch: seq<ScheduledRequest>, i: nat)
    requires Inv(st, batch) && i < |batch|
    ensures ItemOk(st, batch[i])
    ensures InFlight(batch, batch[i].id) == |batch[i].input|
  {
    hide CacheInv, LengthsOk;
    FindItemAt(batch, i);
  }

  /** A batch that is interrupted, or writes anything at all to its own slots, does no harm to
      what is cached. */
  lemma ScribbleKv(st: State, m: Memory, m1: Memory, batch: seq<ScheduledRequest>)
    requires Inv(st, batch) && KvOk(st, m, []) && OnlyBatchWritten(m, m1, batch, st.cache.blockLen)
    ensures KvOk(st, m1, [])
  {
    hide Inv, SlotOf, Ideal, Written, InFlight;
    var bl := st.cache.blockLen;
    forall id | id in st.requests && id in st.running && id in st.cache.tables
      ensures Holds(m1, st.cache.tables[id], st.requests[id].Context(), st.requests[id].cachedLen + InFlight([], id), bl)
    {
      NothingInFlight(id);
      assert Holds(m, st.cache.tables[id], st.requests[id].Context(), st.requests[id].cachedLen + InFlight([], id), bl);
      forall p | 0 <= p < st.requests[id].cachedLen
        ensures m1(SlotOf(st.cache.tables[id], p, bl)) == Ideal(st.requests[id].Context(), p)
      {
        CachedNotWritten(st, batch, id, p);
      }
    }
  }

  lemma {:induction false} ReadHeld(m: Memory, table: seq<BlockId>, ctx: seq<Token>, n: nat, bl: Positive)
    requires Holds(m, table, ctx, n, bl)
    ensures ReadUpTo(m, table, n, bl) == IdealUpTo(ctx, n)
  {
    hide SlotOf;
    if n > 0 {
      HoldsFewer(m, table, ctx, n, n - 1, bl);
      ReadHeld(m, table, ctx, n - 1, bl);
    }
  }

  /** Token by token, a chunk extends what its request's slots hold. */
  lemma {:induction false} ChunkHolds(m1: Memory, it: ScheduledRequest, ctx: seq<Token>, n: nat, bl: Positive)
    requires ItemExecuted(m1, it, bl) && it.start <= n <= it.start + |it.input| <= |ctx|
    requires it.input == ctx[it.start..it.start + |it.input|]
    requires Holds(m1, it.blockTable, ctx, it.start, bl)
    ensures Holds(m1, it.blockTable, ctx, n, bl)
    decreases n
  {
    hide SlotOf;
    if n > it.start {
      ChunkHolds(m1, it, ctx, n - 1, bl);
      ReadHeld(m1, it.blockTable, ctx, n - 1, bl);
      assert it.input[n - 1 - it.start] == ctx[n - 1];
      assert m1(SlotOf(it.blockTable, n - 1, bl)) == Ideal(ctx, n - 1);
    }
  }

  /** Executing a batch leaves every running request's slots right up to its last token in
      flight. */
  lemma ExecuteKv(st: State, m: Memory, m1: Memory, batch: seq<ScheduledRequest>)
    requires Inv(st, batch) && KvOk(st, m, []) && Executed(m, m1, batch, st.cache.blockLen)
    ensures KvOk(st, m1, batch)
  {
    hide Inv, Holds, OnlyBatchWritten, ItemExecuted, InFlight, ItemOk;
    ScribbleKv(st, m, m1, batch);
    var bl := st.cache.blockLen;
    forall id | id in st.requests && id in st.running && id in st.cache.tables
      ensures Holds(m1, st.cache.tables[id], st.requests[id].Context(), st.requests[id].cachedLen + InFlight(batch, id), bl)
    {
      NothingInFlight(id);
      assert Holds(m1, st.cache.tables[id], st.requests[id].Context(), st.requests[id].cachedLen + InFlight([], id), bl);
      InFlightItem(st, batch, id);
      if FindItem(batch, id).Some? {
        var it := FindItem(batch, id).value;
        ItemFacts(st, it);
        ChunkHolds(m1, it, st.requests[id].Context(), it.start + |it.input|, bl);
      }
    }
  }

  /** An item that writes a slot, and the position it writes there. */
  ghost function Writer(batch: seq<ScheduledRequest>, bl: Positive, slot: nat): (w: (nat, nat))
    requires Written(batch, bl, slot)
    ensures w.0 < |batch| && batch[w.0].start <= w.1 < batch[w.0].start + |batch[w.0].input|
    ensures SlotOf(batch[w.0].blockTable, w.1, bl) == slot
  {
    var i, p :| 0 <= i < |batch| && batch[i].start <= p < batch[i].start + |batch[i].input|
                && SlotOf(batch[i].blockTable, p, bl) == slot;
    (i, p)
  }

  /** Memory after a run: each written slot has what its request computes there. */
  ghost function AfterRun(st: State, m: Memory, batch: seq<ScheduledRequest>): Memory {
    (slot: nat) =>
      if Written(batch, st.cache.blockLen, slot) then
        var (i, p) := Writer(batch, st.cache.blockLen, slot);
        CellOf(st, batch[i].id, p)
      else m(slot)
  }

  ghost function CellOf(st: State, id: RequestId, p: nat): Kv {
    if id in st.requests && p < |st.requests[id].Context()| then Ideal(st.requests[id].Context(), p) else Uninitialised(0)
  }

  /** A slot is written for one position only, so what it gets is that position's cell. */
  lemma WrittenCell(st: State, m: Memory, batch: seq<ScheduledRequest>, i: nat, p: nat)
    requires Inv(st, batch) && i < |batch| && batch[i].start <= p < batch[i].start + |batch[i].input|
    ensures AfterRun(st, m, batch)(SlotOf(batch[i].blockTable, p, st.cache.blockLen)) == CellOf(st, batch[i].id, p)
  {
    hide Inv, SlotOf, CellOf, ItemOk;
    var bl := st.cache.blockLen;
    var slot := SlotOf(batch[i].blockTable, p, bl);
    assert Written(batch, bl, slot);
    forall j, q | 0 <= j < |batch| && batch[j].start <= q < batch[j].start + |batch[j].input|
                  && SlotOf(batch[j].blockTable, q, bl) == slot
      ensures batch[j].id == batch[i].id && q == p
    {
      SlotOfItem(st, batch, j, q);
      BatchSlotsExclusive(st, batch, i, p, batch[j].id, q);
    }
    var (j, q) := Writer(batch, bl, slot);
    assert batch[j].id == batch[i].id && q == p;
    assert AfterRun(st, m, batch)(slot) == CellOf(st, batch[j].id, q);
  }

  lemma SlotOfItem(st: State, batch: seq<ScheduledRequest>, j: nat, q: nat)
    requires Inv(st, batch) && j < |batch| && batch[j].start <= q < batch[j].start + |batch[j].input|
    ensures batch[j].id in st.running && batch[j].id in st.cache.tables && batch[j].blockTable == st.cache.tables[batch[j].id]
    ensures q / st.cache.blockLen < |st.cache.tables[batch[j].id]|
  {
    hide CacheInv, LengthsOk, InFlight;
    BatchStarts(st, batch, j);
    assert ItemOk(st, batch[j]);
    PositionsHaveSlots(st, batch, batch[j].id, q);
  }

  /** Every batch can be run: some memory is what running it leaves. */
  lemma CanExecute(st: State, m: Memory, batch: seq<ScheduledRequest>)
    requires Inv(st, batch) && KvOk(st, m, [])
    ensures Executed(m, AfterRun(st, m, batch), batch, st.cache.blockLen)
  {
    hide Inv, SlotOf, Ideal, InFlight, ItemOk, Holds;
    var m1, bl := AfterRun(st, m, batch), st.cache.blockLen;
    ScribbleKv(st, m, m1, batch);
    forall i | 0 <= i < |batch| ensures ItemExecuted(m1, batch[i], bl) {
      var it := batch[i];
      BatchStarts(st, batch, i);
      ItemFacts(st, it);
      NothingInFlight(it.id);
      forall p | it.start <= p < it.start + |it.input|
        ensures m1(SlotOf(it.blockTable, p, bl)) == Cell(it.input[p - it.start], ReadUpTo(m1, it.blockTable, p, bl))
      {
        SlotOfItem(st, batch, i, p);
        RunReads(st, m, batch, i, p);
        WrittenCell(st, m, batch, i, p);
        ReadHeld(m1, it.blockTable, st.requests[it.id].Context(), p, bl);
        IdealIs(st.requests[it.id].Context(), p);
      }
    }
  }

  lemma IdealIs(ctx: seq<Token>, p: nat)
    requires p < |ctx|
    ensures Ideal(ctx, p) == Cell(ctx[p], IdealUpTo(ctx, p))
  {
  }

  lemma RunReads(st: State, m: Memory, batch: seq<ScheduledRequest>, i: nat, p: nat)
    requires Inv(st, batch) && KvOk(st, AfterRun(st, m, batch), [])
    requires i < |batch| && batch[i].start <= p < batch[i].start + |batch[i].input|
    ensures batch[i].id in st.requests && p < |st.requests[batch[i].id].Context()|
    ensures Holds(AfterRun(st, m, batch), batch[i].blockTable, st.requests[batch[i].id].Context(), p, st.cache.blockLen)
  {
    hide Inv, SlotOf, Ideal, InFlight, ItemOk, AfterRun;
    var it, m1 := batch[i], AfterRun(st, m, batch);
    BatchStarts(st, batch, i);
    ItemFacts(st, it);
    NothingInFlight(it.id);
    SlotOfItem(st, batch, i, p);
    var ctx := st.requests[it.id].Context();
    assert Holds(m1, it.blockTable, ctx, it.start, st.cache.blockLen);
    forall q | 0 <= q < p ensures m1(SlotOf(it.blockTable, q, st.cache.blockLen)) == Ideal(ctx, q) {
      if q >= it.start { WrittenCell(st, m, batch, i, q); }
    }
  }

  lemma InFlightItem(st: State, batch: seq<ScheduledRequest>, id: RequestId)
    requires Inv(st, batch)
    ensures InFlight(batch, id) == if FindItem(batch, id).Some? then |FindItem(batch, id).value.input| else 0
    ensures FindItem(batch, id).Some? ==>
              var it := FindItem(batch, id).value;
              it.id == id && ItemOk(st, it) && exists i :: 0 <= i < |batch| && batch[i] == it
  {
    hide CacheInv, LengthsOk, ItemOk;
    if FindItem(batch, id).Some? {
      FoundItemOk(st, batch, id);
      FindItemMeans(batch, id);
    }
  }

  lemma ItemFacts(st: State, it: ScheduledRequest)
    requires ItemOk(st, it)
    ensures it.id in st.requests && it.id in st.cache.tables && it.blockTable == st.cache.tables[it.id]
    ensures var r := st.requests[it.id];
            && it.start == r.cachedLen && it.start + |it.input| <= |r.Context()|
            && it.input == r.Context()[it.start..it.start + |it.input|]
  {
  }

  // ----------------------------------------------------------------- results

  /** Sealing may exchange a block for one already published under the same digest; whichever
      it is, it holds the same. */
  lemma SealedStateKv(st: State, st1: State, m: Memory, batch: seq<ScheduledRequest>, item: RequestResult)
    requires Inv(st, batch) && KvOk(st, m, batch) && Answers(batch, item) && SealedState(st, st1, item)
    ensures KvOk(st1, m, Drop(batch, item.id))
  {
    hide Inv, Holds, InFlight, CacheOk, SealFrame, Advanced, Answers, FindItem;
    var id, bl := item.id, st.cache.blockLen;
    forall x | x in st1.requests && x in st1.running && x in st1.cache.tables
      ensures Holds(m, st1.cache.tables[x], st1.requests[x].Context(),
                    st1.requests[x].cachedLen + InFlight(Drop(batch, id), x), bl)
    {
      InFlightDrop(batch, id, x);
      if x == id {
        SealedOwnKv(st, st1, m, batch, item);
      } else {
        assert Holds(m, st.cache.tables[x], st.requests[x].Context(), st.requests[x].cachedLen + InFlight(batch, x), bl);
      }
    }
  }

  lemma InFlightDrop(batch: seq<ScheduledRequest>, id: RequestId, x: RequestId)
    ensures InFlight(Drop(batch, id), x) == if x == id then 0 else InFlight(batch, x)
  {
    DropFind(batch, id, x);
  }

  /** After sealing, the index still holds what its digests say. */
  lemma SealedIndexKv(st: State, st1: State, m: Memory, batch: seq<ScheduledRequest>, item: RequestResult)
    requires Inv(st, batch) && KvOk(st, m, batch) && SealedState(st, st1, item) && SealedProgress(st, st1, batch, item.id)
    ensures SealedKv(st1.cache, m)
  {
    hide Inv, BlockHolds, InFlight, CacheInv, Advanced, Holds, KvOk, Span, OwnedOf, OwnedBy, SealedProgress;
    InvCache(st, batch);
    SealedFromTables(st, m, batch);
    var c, c1, id, bl := st.cache, st1.cache, item.id, st.cache.blockLen;
    forall h | h in c1.pool.sealed ensures BlockHolds(m, c1.pool.sealed[h], h, bl) {
      if h !in c.pool.sealed {
        var j :| st.requests[id].cachedLen / bl <= j < st1.requests[id].cachedLen / bl && j < |c.tables[id]|
          && c1.pool.sealed[h] == c.tables[id][j] && c1.tables[id][j] == c.tables[id][j];
        NewlySealed(st, st1, m, batch, id, h, j);
      }
    }
  }

  /** The request got as far as the batch computed it. */
  ghost predicate SealedProgress(st: State, st1: State, batch: seq<ScheduledRequest>, id: RequestId) {
    && id in st.requests && id in st1.requests && id in st.running
    && st.requests[id].Context() <= st1.requests[id].Context()
    && st1.requests[id].cachedLen == st.requests[id].cachedLen + InFlight(batch, id) <= |st.requests[id].Context()|
  }

  lemma NewlySealed(st: State, st1: State, m: Memory, batch: seq<ScheduledRequest>, id: RequestId, h: Hash, j: nat)
    requires CacheOk(st1) && KvOk(st, m, batch) && SealedProgress(st, st1, batch, id)
    requires id in st.cache.tables && id in st1.cache.tables && st1.cache.blockLen == st.cache.blockLen
    requires j < st1.requests[id].cachedLen / st.cache.blockLen && j < |st.cache.tables[id]| && j < |st1.cache.tables[id]|
    requires st1.cache.tables[id][j] == st.cache.tables[id][j]
    requires h in st1.cache.pool.sealed && st1.cache.pool.sealed[h] == st.cache.tables[id][j]
    ensures BlockHolds(m, st.cache.tables[id][j], h, st.cache.blockLen)
  {
    hide BlockHolds, InFlight, CacheInv, Holds, Span, PrefixHash, TableOk;
    var r, r1, bl := st.requests[id], st1.requests[id], st.cache.blockLen;
    OwnedSpans(st1, id);
    var o := OwnedOf(st1)[id];
    IndexedAt(st1.cache, OwnedOf(st1), id, j, h);
    SpanMono(j + 1, o.count, bl);
    var z := Span(j + 1, bl);
    assert Holds(m, st.cache.tables[id], r.Context(), r.cachedLen + InFlight(batch, id), bl);
    SamePrefixes(o.tokens, r.Context(), r1.Context(), Span(o.count, bl), z);
    OwnerBlockHolds(m, st.cache.tables[id], r.Context(), r1.cachedLen, bl, o.tokens, j);
  }

  lemma SamePrefixes(own: seq<Token>, ctx: seq<Token>, ctx1: seq<Token>, n: nat, z: nat)
    requires z <= n <= |ctx| && ctx <= ctx1 && own == Take(ctx1, n)
    ensures own[..z] == ctx[..z]
  {
    assert forall k :: 0 <= k < z ==> own[k] == ctx1[k] == ctx[k];
  }

  lemma IndexedAt(c: Cache, owned: map<RequestId, Owned>, id: RequestId, j: nat, h: Hash)
    requires CacheInv(c, owned) && id in c.tables && j < owned[id].count && j < |c.tables[id]|
    requires h in c.pool.sealed && c.pool.sealed[h] == c.tables[id][j]
    ensures h == PrefixHash(owned[id].tokens, c.blockLen, j + 1)
  {
    assert TableOk(c, c.tables[id], id, owned[id]);
    assert BlockAt(c, c.tables[id], id, owned[id], j);
    assert IndexEntry(c.pool, h);
  }

  lemma SealedOwnKv(st: State, st1: State, m: Memory, batch: seq<ScheduledRequest>, item: RequestResult)
    requires Inv(st, batch) && KvOk(st, m, batch) && Answers(batch, item) && SealedState(st, st1, item)
    requires item.id in st1.running
    ensures Holds(m, st1.cache.tables[item.id], st1.requests[item.id].Context(),
                  st1.requests[item.id].cachedLen, st.cache.blockLen)
  {
    hide Inv, InFlight, CacheInv, Advanced, Answers, FindItem, ReqOk, SlotOf, Ideal, SealedKv, Holds;
    var id, bl := item.id, st.cache.blockLen;
    AnsweredRequest(st, batch, item);
    AdvancedBy(st, batch, item);
    assert SealedProgress(st, st1, batch, id);
    SealedIndexKv(st, st1, m, batch, item);
    OwnSlots(st, st1, m, batch, item);
  }

  lemma OwnSlots(st: State, st1: State, m: Memory, batch: seq<ScheduledRequest>, item: RequestResult)
    requires KvOk(st, m, batch) && SealedState(st, st1, item) && SealedKv(st1.cache, m)
    requires SealedProgress(st, st1, batch, item.id)
    ensures Holds(m, st1.cache.tables[item.id], st1.requests[item.id].Context(),
                  st1.requests[item.id].cachedLen, st.cache.blockLen)
  {
    hide CacheInv, InFlight, Advanced, SlotOf, Ideal, SealedKv;
    var id, bl := item.id, st.cache.blockLen;
    var r, r1, t, t1 := st.requests[id], st1.requests[id], st.cache.tables[id], st1.cache.tables[id];
    assert Holds(m, t, r.Context(), r.cachedLen + InFlight(batch, id), bl);
    forall p | 0 <= p < r1.cachedLen ensures m(SlotOf(t1, p, bl)) == Ideal(r1.Context(), p) {
      if p / bl < r1.cachedLen / bl {
        SealedPartHolds(st1, m, id, p);
      } else {
        UnsealedSlot(st, st1, m, item, p, |r.Context()|);
      }
    }
  }

  lemma UnsealedSlot(st: State, st1: State, m: Memory, item: RequestResult, p: nat, n: nat)
    requires SealedState(st, st1, item) && p / st.cache.blockLen >= st1.requests[item.id].cachedLen / st.cache.blockLen
    requires p < n == |st.requests[item.id].Context()| && st.requests[item.id].Context() <= st1.requests[item.id].Context()
    requires m(SlotOf(st.cache.tables[item.id], p, st.cache.blockLen)) == Ideal(st.requests[item.id].Context(), p)
    ensures m(SlotOf(st1.cache.tables[item.id], p, st.cache.blockLen)) == Ideal(st1.requests[item.id].Context(), p)
  {
    hide CacheInv, Advanced, SlotOf, Ideal;
    SameSlot(st.cache.tables[item.id], st1.cache.tables[item.id], p, st.cache.blockLen);
    IdealOfPrefix(st.requests[item.id].Context(), st1.requests[item.id].Context(), n, p);
  }

  lemma SameSlot(t: seq<BlockId>, t1: seq<BlockId>, p: nat, bl: Positive)
    requires |t1| == |t| && (p / bl < |t| ==> t1[p / bl] == t[p / bl])
    ensures SlotOf(t1, p, bl) == SlotOf(t, p, bl)
  {
    hide BlockSlot;
  }

  lemma AdvancedBy(st: State, batch: seq<ScheduledRequest>, item: RequestResult)
    requires Inv(st, batch) && Answers(batch, item) && item.id in st.requests
    ensures Advanced(st.requests[item.id], item).cachedLen == st.requests[item.id].cachedLen + InFlight(batch, item.id)
  {
  }

  /** Committing one result. */
  lemma CommitOneKv(st: State, m: Memory, batch: seq<ScheduledRequest>, item: RequestResult, log: seq<Undo>, snapshotted: bool)
    requires Inv(st, batch) && KvOk(st, m, batch) && Answers(batch, item)
    ensures KvOk(st.CommitOne(item, log, snapshotted).0, m, Drop(batch, item.id))
  {
    hide Inv, State.CommitOne, State.SealFilled, SealedState, Cache.Release, Advanced, KvOk, Answers, ReqOk;
    AnsweredRequest(st, batch, item);
    SealFilledOk(st, batch, item);
    var r := st.requests[item.id];
    var r1 := Advanced(r, item);
    var st2 := st.(requests := st.requests[item.id := r1]).SealFilled(item.id, r.cachedLen).0;
    InvLists(st, batch);
    ListsDistinct(st);
    ListsMember(st, item.id);
    SealedRunning(st, st2, item);
    CommitOneDef(st, item, log, snapshotted, st2);
    SealedStateKv(st, st2, m, batch, item);
    if r1.state == Finished {
      SealedCache(st, st2, item);
      RetiredKv(st2, m, Drop(batch, item.id), item.id);
    }
  }

  lemma SealedCache(st: State, st1: State, item: RequestResult)
    requires SealedState(st, st1, item)
    ensures CacheOk(st1)
  {
  }

  lemma RetiredKv(st: State, m: Memory, batch: seq<ScheduledRequest>, id: RequestId)
    requires CacheOk(st) && KvOk(st, m, batch)
    ensures KvOk(st.(running := Without(st.running, id), cache := st.cache.Release(id).0), m, batch)
  {
    hide CacheInv, Cache.Release, KvOk, InFlight;
    ReleaseTable(st.cache, OwnedOf(st), id);
    WithoutElements(st.running, id);
    FewerKv(st, m, batch, Without(st.running, id), st.cache.Release(id).0, id);
  }

  lemma FewerKv(st: State, m: Memory, batch: seq<ScheduledRequest>, running: seq<RequestId>, cache: Cache, id: RequestId)
    requires KvOk(st, m, batch) && cache.blockLen == st.cache.blockLen && cache.tables == st.cache.tables - {id}
    requires forall x :: x in running ==> x in st.running
    ensures KvOk(st.(running := running, cache := cache), m, batch)
  {
    hide Holds, InFlight;
  }

  lemma {:induction false} CommitKv(st: State, m: Memory, batch: seq<ScheduledRequest>, items: seq<RequestResult>,
                                    log: seq<Undo>, snapshotted: bool)
    requires Inv(st, batch) && KvOk(st, m, batch) && AnswersAll(batch, items)
    ensures KvOk(st.Commit(items, log, snapshotted).0, m, [])
    decreases |items|
  {
    hide Inv, State.CommitOne, Answers, KvOk;
    if items != [] {
      var item := items[0];
      CommitOneOk(st, batch, item, log, snapshotted);
      CommitOneKv(st, m, batch, item, log, snapshotted);
      var (st1, log1, snap, s) := st.CommitOne(item, log, snapshotted);
      InvBatch(st, batch);
      AnswersRest(batch, items);
      CommitKv(st1, m, Drop(batch, item.id), items[1..], log1, snap);
    } else {
      assert batch == [];
    }
  }

  lemma ApplyKv(st: State, m: Memory, result: ExecutionResult)
    requires Consistent(st) && st.outstanding.Some? && KvOk(st, m, st.outstanding.value.requests)
    ensures var (st1, s) := st.ApplyResult(result);
            s == Done ==> KvOk(st1, m, [])
  {
    hide Inv, State.Commit, KvOk, AnswersAll, State.Validate, Advanced, CommitFrame;
    var plan := st.outstanding.value;
    ValidateMeans(st, plan, result);
    if st.Validate(plan, result) == Done {
      var st0 := st.(outstanding := None);
      InvWithoutOutstanding(st, plan.requests);
      KvIgnores(st, st0, m, plan.requests);
      CommitKv(st0, m, plan.requests, result.results, [], false);
      CommitOk(st0, plan.requests, result.results, [], false);
    }
  }

  /** Dropping tables, or forgetting what was in flight, leaves the rest right. */
  lemma FewerTablesKv(st: State, st1: State, m: Memory, batch: seq<ScheduledRequest>, batch1: seq<ScheduledRequest>)
    requires KvOk(st, m, batch) && TablesWithin(st1.cache, st.cache)
    requires forall x :: x in st1.running ==> x in st.running
    requires forall x :: x in st1.running && x in st1.requests ==> x in st.requests && st1.requests[x] == st.requests[x]
    requires batch1 == batch || batch1 == []
    ensures KvOk(st1, m, batch1)
  {
    hide Holds, InFlight;
    forall x | x in st1.requests && x in st1.running && x in st1.cache.tables
      ensures Holds(m, st1.cache.tables[x], st1.requests[x].Context(),
                    st1.requests[x].cachedLen + InFlight(batch1, x), st1.cache.blockLen)
    {
      NothingInFlight(x);
      var t, r := st.cache.tables[x], st.requests[x];
      assert Holds(m, t, r.Context(), r.cachedLen + InFlight(batch, x), st.cache.blockLen);
      HoldsFewer(m, t, r.Context(), r.cachedLen + InFlight(batch, x), r.cachedLen + InFlight(batch1, x), st.cache.blockLen);
    }
  }

  lemma FailBatchKv(st: State, m: Memory, batch: BatchPlan, message: string)
    requires Consistent(st) && KvOk(st, m, []) && st.outstanding == Some(batch)
    ensures KvOk(st.FailBatch(batch, message).0, m, [])
  {
    hide Inv, State.FailBatch, KvOk, TablesWithin, BatchIds;
    FailBatchOk(st, batch, message);
    FewerTablesKv(st, st.FailBatch(batch, message).0, m, [], []);
  }

  lemma CancelKv(st: State, m: Memory, id: RequestId, batch: seq<ScheduledRequest>)
    requires Consistent(st) && KvOk(st, m, batch)
    ensures KvOk(st.Cancel(id).0, m, batch)
  {
    hide Inv, State.Cancel, KvOk, Stopped, TablesWithin;
    CancelOk(st, id);
    var (st1, s) := st.Cancel(id);
    if s == Done {
      StoppedWithin(st, st1, id, st.requests[id].(state := Cancelled));
      WithoutElements(st.running, id);
      FewerTablesKv(st, st1, m, batch, batch);
    }
  }

  lemma StoppedWithin(st: State, st1: State, id: RequestId, r: Req)
    requires Consistent(st) && Stopped(st, st1, id, r)
    ensures TablesWithin(st1.cache, st.cache)
  {
    hide CacheInv, Cache.Release;
    StoppedCache(st, st1, id, r);
  }

  lemma SubmitKv(st: State, m: Memory, spec: RequestSpec, batch: seq<ScheduledRequest>)
    requires Consistent(st) && KvOk(st, m, batch)
    ensures KvOk(st.Submit(spec).0, m, batch)
  {
    hide Inv, State.Submit, KvOk;
    SubmitOk(st, spec);
    var (st1, s) := st.Submit(spec);
    if s == Done {
      RunningKnown(st);
      FewerTablesKv(st, st1, m, batch, batch);
    }
  }

  lemma RunningKnown(st: State)
    requires Consistent(st)
    ensures forall x :: x in st.running ==> x in st.requests
  {
  }
}
