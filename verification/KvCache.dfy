/** Block tables, sealing and prefix reuse (crates/einf-control/src/kv_cache.rs).

    `Cache` is the value of a cache manager; `CacheInv` says that the pool's reference counts
    are exactly the occurrences of each block in the tables and that every table is a run of
    sealed blocks, hashed over the owner's own tokens, followed by blocks only the owner may
    write.  `KvCacheManager` is the mutable object. */
module KvCaches {
  import opened Base
  import opened BlockPools

  datatype ReusePlan = ReusePlan(blocks: seq<BlockId>, reusedLen: nat)

  /** `hash_tokens`. */
  function HashTokens(chunk: seq<Token>, prefix: Hash): Hash { Chain(prefix, chunk) }

  datatype Cache = Cache(blockLen: Positive, pool: Pool, tables: map<RequestId, seq<BlockId>>)
  {
    function BlockTable(id: RequestId): seq<BlockId> {
      if id in tables then tables[id] else []
    }

    /** The loop of `plan_reuse`: the blocks of the leading chunks found in the sealed index. */
    function Walk(rest: seq<Token>, prefix: Hash): seq<BlockId>
      decreases |rest|
    {
      if |rest| < blockLen then [] else
      var hash := HashTokens(rest[..blockLen], prefix);
      if hash in pool.sealed && pool.sealed[hash] < |pool.blocks|
      then [pool.sealed[hash]] + Walk(rest[blockLen..], hash)
      else []
    }

    function PlanReuse(prompt: seq<Token>): Option<ReusePlan> {
      if |prompt| < blockLen then None
      else
        var found := Walk(prompt, Seed);
        var blocks := found[..Min(|found|, Cap(prompt, blockLen))];
        if blocks == [] then None else Some(ReusePlan(blocks, |blocks| * blockLen))
    }

    /** One round of the loop of `seal_blocks`: seal or swap the block at `idx`. */
    function SealChunk(id: RequestId, idx: nat, hash: Hash): (Cache, Status) {
      if id !in tables || idx >= |tables[id]| then (this, Failure(Panicked))
      else
        var bid := tables[id][idx];
        var (p1, sealedAs) := pool.SealBlock(bid, hash);
        match sealedAs
        case Err(e) => (this.(pool := p1), Failure(e))
        case Ok(Published(_)) => (this.(pool := p1), Done)
        case Ok(Existing(e)) =>
          var (p2, s2) := p1.RetainShared([e]);
          if s2.Failure? then (this.(pool := p2), s2)
          else
            var (p3, s3) := p2.ReleaseBlocks([bid]);
            var table: seq<BlockId> := tables[id][idx := e];
            (this.(pool := p3, tables := tables[id := table]), s3)
    }

    function SealChunks(id: RequestId, tokens: seq<Token>, idx: nat, prefix: Hash): (Cache, Status)
      decreases |tokens|
    {
      if |tokens| < blockLen then (this, Done)
      else
        var hash := HashTokens(tokens[..blockLen], prefix);
        var (c1, s) := SealChunk(id, idx, hash);
        if s.Failure? then (c1, s) else c1.SealChunks(id, tokens[blockLen..], idx + 1, hash)
    }

    /** The digest to continue from: the seed, or that of the last block already sealed. */
    function SealedPrefix(id: RequestId, sealedLen: nat): Result<Hash> {
      if id !in tables then Err(Panicked)
      else if sealedLen < blockLen then Ok(Seed)
      else
        var idx := sealedLen / blockLen - 1;
        if !(0 <= idx < |tables[id]|) || tables[id][idx] >= |pool.blocks| then Err(Panicked)
        else match pool.blocks[tables[id][idx]].state
             case Sealed(h) => Ok(h)
             case Writable(_) => Err(Panicked)
    }

    function SealBlocks(id: RequestId, tokens: seq<Token>, sealedLen: nat): (Cache, Result<nat>) {
      var prefix := SealedPrefix(id, sealedLen);
      if prefix.Err? then (this, Err(prefix.error))
      else
        var (c1, s) := SealChunks(id, tokens, sealedLen / blockLen, prefix.value);
        if s.Failure? then (c1, Err(s.error))
        else (c1, Ok(|tokens| / blockLen * blockLen))
    }

    function ReserveTo(id: RequestId, plan: Option<ReusePlan>, tokens: nat)
      : (Cache, Result<seq<BlockId>>)
    {
      if plan.Some? && id in tables then (this, Err(InvalidReusePlan))
      else if plan.Some? && plan.value.reusedLen > tokens then (this, Err(Panicked))
      else
        var required := CeilDiv(if plan.Some? then tokens - plan.value.reusedLen else tokens, blockLen);
        var current := |BlockTable(id)|;
        if required > current then
          var (p1, delta) := pool.ReuseAndReserve(
            if plan.Some? then plan.value.blocks else [], required - current, id);
          if delta.Err? then (this.(pool := p1), delta)
          else
            var table := BlockTable(id) + delta.value;
            (this.(pool := p1, tables := tables[id := table]), Ok(table))
        else if id in tables then (this, Ok(tables[id]))
        else (this, Err(Panicked))
    }

    function Release(id: RequestId): (Cache, Status) {
      if id in tables then
        var (p1, s) := pool.ReleaseBlocks(tables[id]);
        (this.(pool := p1, tables := tables - {id}), s)
      else (this, Done)
    }
  }

  // --------------------------------------------------------------- digests

  /** The digest of the first `n` blocks of `tokens`. */
  function PrefixHash(tokens: seq<Token>, bl: nat, n: nat): Hash {
    if n == 0 || |tokens| < Span(n, bl) then Seed
    else
      assert Span(n - 1, bl) <= Span(n, bl);
      Chain(PrefixHash(tokens, bl, n - 1), tokens[Span(n - 1, bl)..Span(n, bl)])
  }

  function Depth(h: Hash): nat {
    match h
    case Seed => 0
    case Chain(p, _) => 1 + Depth(p)
  }

  lemma {:induction false} PrefixHashDepth(tokens: seq<Token>, bl: nat, n: nat)
    requires Span(n, bl) <= |tokens|
    ensures Depth(PrefixHash(tokens, bl, n)) == n
  {
    if n > 0 {
      assert Span(n - 1, bl) <= Span(n, bl);
      PrefixHashDepth(tokens, bl, n - 1);
    }
  }

  /** A digest only looks at the blocks it covers ... */
  lemma {:induction false} PrefixHashOfPrefix(s: seq<Token>, t: seq<Token>, bl: nat, n: nat)
    requires Span(n, bl) <= |s| && Span(n, bl) <= |t|
    requires s[..Span(n, bl)] == t[..Span(n, bl)]
    ensures PrefixHash(s, bl, n) == PrefixHash(t, bl, n)
  {
    if n > 0 {
      var a, z := Span(n - 1, bl), Span(n, bl);
      assert a <= z;
      assert s[..a] == s[..z][..a] && t[..a] == t[..z][..a];
      PrefixHashOfPrefix(s, t, bl, n - 1);
      assert s[a..z] == s[..z][a..] && t[a..z] == t[..z][a..];
    }
  }

  /** ... and determines them: equal digests mean equal blocks. */
  lemma {:induction false} PrefixHashInjective(s: seq<Token>, t: seq<Token>, bl: nat, m: nat, n: nat)
    requires bl > 0 && Span(m, bl) <= |s| && Span(n, bl) <= |t|
    requires PrefixHash(s, bl, m) == PrefixHash(t, bl, n)
    ensures m == n && s[..Span(m, bl)] == t[..Span(n, bl)]
  {
    PrefixHashDepth(s, bl, m);
    PrefixHashDepth(t, bl, n);
    if n > 0 {
      var a, z := Span(n - 1, bl), Span(n, bl);
      assert a <= z;
      PrefixHashInjective(s, t, bl, m - 1, n - 1);
      assert s[..z] == s[..a] + s[a..z] && t[..z] == t[..a] + t[a..z];
    }
  }

  /** Hashing one more chunk onto a digest gives the digest of the longer prefix. */
  lemma PrefixHashStep(tokens: seq<Token>, chunk: seq<Token>, bl: nat, n: nat)
    requires |tokens| == Span(n, bl) && |chunk| == bl
    ensures |tokens + chunk| == Span(n + 1, bl)
    ensures HashTokens(chunk, PrefixHash(tokens, bl, n)) == PrefixHash(tokens + chunk, bl, n + 1)
  {
    var all := tokens + chunk;
    assert Span(n + 1, bl) == Span(n, bl) + bl;
    assert all[..Span(n, bl)] == tokens == tokens[..Span(n, bl)];
    PrefixHashOfPrefix(tokens, all, bl, n);
    assert all[Span(n, bl)..Span(n + 1, bl)] == chunk;
  }

  // -------------------------------------------------------------- invariant

  /** What a table's owner has sealed: the tokens of its first `count` blocks. */
  datatype Owned = Owned(tokens: seq<Token>, count: nat)

  function Holders(tables: map<RequestId, seq<BlockId>>, b: BlockId): set<RequestId> {
    set id | id in tables && b in tables[id]
  }

  ghost predicate BlockAt(c: Cache, table: seq<BlockId>, id: RequestId, o: Owned, i: nat)
    requires i < |table|
  {
    && table[i] < |c.pool.blocks|
    && c.pool.blocks[table[i]].state ==
         if i < o.count then Sealed(PrefixHash(o.tokens, c.blockLen, i + 1)) else Writable(Some(id))
  }

  ghost predicate TableOk(c: Cache, table: seq<BlockId>, id: RequestId, o: Owned) {
    && |o.tokens| == Span(o.count, c.blockLen)
    && o.count <= |table|
    && Distinct(table)
    && forall i :: 0 <= i < |table| ==> BlockAt(c, table, id, o, i)
  }

  /** Whatever `c1` has in the sealed index, `c` has at the same block. */
  ghost predicate SealedWithin(c1: Cache, c: Cache) {
    forall h :: h in c1.pool.sealed ==> h in c.pool.sealed && c1.pool.sealed[h] == c.pool.sealed[h]
  }

  /** Every table of `c1` is a table of `c`. */
  ghost predicate TablesWithin(c1: Cache, c: Cache) {
    c1.blockLen == c.blockLen
    && forall id :: id in c1.tables ==> id in c.tables && c1.tables[id] == c.tables[id]
  }

  ghost predicate RefCountsOk(c: Cache) {
    forall b :: 0 <= b < |c.pool.blocks| ==> c.pool.blocks[b].refCnt == |Holders(c.tables, b)|
  }

  ghost predicate CacheInv(c: Cache, owned: map<RequestId, Owned>) {
    && PoolWf(c.pool)
    && c.tables.Keys == owned.Keys
    && (forall id :: id in c.tables ==> TableOk(c, c.tables[id], id, owned[id]))
    && RefCountsOk(c)
  }

  lemma FreeIffUnreferenced(p: Pool, b: BlockId)
    requires PoolWf(p) && b < |p.blocks|
    ensures b in p.free <==> p.blocks[b].refCnt == 0
  {
    assert b in p.free || BlockInUse(p, b);
  }

  lemma TableUsed(c: Cache, owned: map<RequestId, Owned>, id: RequestId)
    requires CacheInv(c, owned) && id in c.tables
    ensures forall b :: b in c.tables[id] ==> b < |c.pool.blocks| && b in c.pool.used
  {
    var table := c.tables[id];
    forall b | b in table ensures b < |c.pool.blocks| && b in c.pool.used {
      var i :| 0 <= i < |table| && table[i] == b;
      assert BlockAt(c, table, id, owned[id], i);
      assert c.pool.blocks[b] != Fresh;
      assert b in c.pool.free || BlockInUse(c.pool, b);
    }
  }

  /** A table stays good under any change of the pool that keeps its blocks' states. */
  lemma TableFrame(c: Cache, c1: Cache, table: seq<BlockId>, id: RequestId, o: Owned)
    requires TableOk(c, table, id, o) && c1.blockLen == c.blockLen
    requires |c1.pool.blocks| == |c.pool.blocks|
    requires forall b :: b in table && b < |c.pool.blocks| ==> c1.pool.blocks[b].state == c.pool.blocks[b].state
    ensures TableOk(c1, table, id, o)
  {
    forall i | 0 <= i < |table| ensures BlockAt(c1, table, id, o, i) {
      assert BlockAt(c, table, id, o, i);
      assert table[i] in table;
    }
  }

  /** A block that its owner may still write is in no other table. */
  lemma WritableExclusive(c: Cache, owned: map<RequestId, Owned>, id: RequestId, i: nat, other: RequestId)
    requires CacheInv(c, owned) && id in c.tables && owned[id].count <= i < |c.tables[id]|
    requires other in c.tables && other != id
    ensures c.tables[id][i] !in c.tables[other]
  {
    var b := c.tables[id][i];
    assert BlockAt(c, c.tables[id], id, owned[id], i);
    if b in c.tables[other] {
      var j :| 0 <= j < |c.tables[other]| && c.tables[other][j] == b;
      var o := owned[other];
      assert TableOk(c, c.tables[other], other, o);
      BlockAtOwner(c, c.tables[other], other, o, j, id);
    }
  }

  lemma BlockAtOwner(c: Cache, table: seq<BlockId>, id: RequestId, o: Owned, i: nat, other: RequestId)
    requires TableOk(c, table, id, o) && i < |table| && other != id
    ensures table[i] < |c.pool.blocks| && c.pool.blocks[table[i]].state != Writable(Some(other))
  {
    assert BlockAt(c, table, id, o, i);
  }

  lemma NewCacheInv(n: nat, blockLen: Positive)
    ensures CacheInv(Cache(blockLen, NewPool(n), map[]), map[])
  {
    NewPoolWf(n);
    assert forall b :: Holders(map[], b) == {};
  }

  /** Every sealed digest belongs to the run of some table's owner. */
  lemma SealedWitness(c: Cache, owned: map<RequestId, Owned>, h: Hash) returns (id: RequestId, i: nat)
    requires CacheInv(c, owned) && h in c.pool.sealed
    ensures id in c.tables && i < owned[id].count && i < |c.tables[id]|
    ensures c.tables[id][i] == c.pool.sealed[h]
    ensures h == PrefixHash(owned[id].tokens, c.blockLen, i + 1)
  {
    var b := c.pool.sealed[h];
    assert IndexEntry(c.pool, h);
    assert b in c.pool.free || BlockInUse(c.pool, b);
    assert |Holders(c.tables, b)| > 0;
    id :| id in Holders(c.tables, b);
    i :| 0 <= i < |c.tables[id]| && c.tables[id][i] == b;
    assert BlockAt(c, c.tables[id], id, owned[id], i);
  }

  /** The sealed index is prefix closed and holds full blocks only: whenever a chain of
      blocks is indexed, so is the chain without its last block. */
  lemma PrefixClosed(c: Cache, owned: map<RequestId, Owned>, h: Hash)
    requires CacheInv(c, owned) && h in c.pool.sealed
    ensures h.Chain? && |h.tokens| == c.blockLen
    ensures h.prefix == Seed || h.prefix in c.pool.sealed
  {
    var id, i := SealedWitness(c, owned, h);
    var table, o := c.tables[id], owned[id];
    SpanMono(i + 1, o.count, c.blockLen);
    assert Span(i + 1, c.blockLen) == Span(i, c.blockLen) + c.blockLen;
    if i > 0 {
      assert BlockAt(c, table, id, o, i - 1);
      var b := table[i - 1];
      assert b in c.pool.free || BlockInUse(c.pool, b);
    }
  }

  lemma {:induction false} PrefixClosedDown(
    c: Cache, owned: map<RequestId, Owned>, tokens: seq<Token>, m: nat, n: nat)
    requires CacheInv(c, owned)
    requires 1 <= m <= n && Span(n, c.blockLen) <= |tokens|
    requires PrefixHash(tokens, c.blockLen, n) in c.pool.sealed
    ensures PrefixHash(tokens, c.blockLen, m) in c.pool.sealed
    decreases n
  {
    if m < n {
      PrefixClosed(c, owned, PrefixHash(tokens, c.blockLen, n));
      SpanMono(n - 1, n, c.blockLen);
      PrefixHashDepth(tokens, c.blockLen, n - 1);
      PrefixClosedDown(c, owned, tokens, m, n - 1);
    }
  }

  // ------------------------------------------------------------ prefix reuse

  ghost predicate FoundAt(c: Cache, tokens: seq<Token>, n: nat, b: BlockId) {
    var h := PrefixHash(tokens, c.blockLen, n);
    h in c.pool.sealed && c.pool.sealed[h] == b
  }

  /** What the loop of `plan_reuse` finds after the `n` blocks of `done`: the indexed blocks
      of the following chunks, up to the first chunk that is not in the index. */
  lemma {:induction false} WalkMeans(c: Cache, done: seq<Token>, n: nat, rest: seq<Token>)
    requires PoolWf(c.pool) && |done| == Span(n, c.blockLen)
    ensures var w := c.Walk(rest, PrefixHash(done, c.blockLen, n));
            && (forall j :: 0 <= j < |w| ==> FoundAt(c, done + rest, n + j + 1, w[j]))
            && (|rest| >= Span(|w|, c.blockLen) + c.blockLen ==>
                  PrefixHash(done + rest, c.blockLen, n + |w| + 1) !in c.pool.sealed)
    decreases |rest|
  {
    var bl := c.blockLen;
    if |rest| >= bl {
      var chunk, more := rest[..bl], rest[bl..];
      var hash := HashTokens(chunk, PrefixHash(done, bl, n));
      WalkStep(done, bl, n, rest);
      if hash in c.pool.sealed {
        assert IndexEntry(c.pool, hash);
        WalkMeans(c, done + chunk, n + 1, more);
        var tail := c.Walk(more, hash);
        var w := c.Walk(rest, PrefixHash(done, bl, n));
        assert w == [c.pool.sealed[hash]] + tail;
        forall j | 0 <= j < |w| ensures FoundAt(c, done + rest, n + j + 1, w[j]) {
          if j > 0 {
            assert FoundAt(c, done + chunk + more, n + 1 + (j - 1) + 1, tail[j - 1]);
          }
        }
      }
    }
  }

  lemma WalkStep(done: seq<Token>, bl: nat, n: nat, rest: seq<Token>)
    requires |done| == Span(n, bl) && |rest| >= bl
    ensures |done + rest[..bl]| == Span(n + 1, bl)
    ensures done + rest[..bl] + rest[bl..] == done + rest
    ensures HashTokens(rest[..bl], PrefixHash(done, bl, n)) == PrefixHash(done + rest[..bl], bl, n + 1)
    ensures PrefixHash(done + rest[..bl], bl, n + 1) == PrefixHash(done + rest, bl, n + 1)
  {
    var chunk, more := rest[..bl], rest[bl..];
    PrefixHashStep(done, chunk, bl, n);
    assert done + rest == done + chunk + more;
    var z := Span(n + 1, bl);
    assert (done + rest)[..z] == done + chunk == (done + chunk)[..z];
    PrefixHashOfPrefix(done + chunk, done + rest, bl, n + 1);
  }

  /** A plan lists the sealed blocks of the prompt's own leading blocks, in order. */
  ghost predicate PlanOk(c: Cache, plan: ReusePlan, o: Owned) {
    && o.count == |plan.blocks|
    && |o.tokens| == plan.reusedLen == Span(o.count, c.blockLen)
    && Distinct(plan.blocks)
    && forall i :: 0 <= i < |plan.blocks| ==>
         && plan.blocks[i] < |c.pool.blocks|
         && c.pool.blocks[plan.blocks[i]].state == Sealed(PrefixHash(o.tokens, c.blockLen, i + 1))
  }

  function PlannedBlocks(plan: Option<ReusePlan>): nat {
    if plan.Some? then |plan.value.blocks| else 0
  }

  /** No longer proper prefix of the prompt is in the sealed index. */
  ghost predicate NoneLonger(c: Cache, prompt: seq<Token>, m: nat) {
    forall n :: m < n && Span(n, c.blockLen) < |prompt| ==>
      PrefixHash(prompt, c.blockLen, n) !in c.pool.sealed
  }

  /** `plan_reuse` stops at its first miss, yet returns the longest sealed prefix of the prompt
      that leaves at least one token to compute. */
  lemma PlanReuseLongest(c: Cache, owned: map<RequestId, Owned>, prompt: seq<Token>)
    requires CacheInv(c, owned) && prompt != []
    ensures var plan := c.PlanReuse(prompt);
            var m := PlannedBlocks(plan);
            && Span(m, c.blockLen) < |prompt|
            && (plan.Some? <==> m > 0)
            && (plan.Some? ==> PlanOk(c, plan.value, Owned(prompt[..Span(m, c.blockLen)], m)))
            && NoneLonger(c, prompt, m)
  {
    PlanShape(c, prompt);
    if c.PlanReuse(prompt).Some? { PlanSound(c, prompt); }
    PlanNoneLonger(c, owned, prompt);
  }

  lemma PlanSound(c: Cache, prompt: seq<Token>)
    requires PoolWf(c.pool) && prompt != [] && c.PlanReuse(prompt).Some?
    ensures var m := PlannedBlocks(c.PlanReuse(prompt));
            && Span(m, c.blockLen) < |prompt|
            && PlanOk(c, c.PlanReuse(prompt).value, Owned(prompt[..Span(m, c.blockLen)], m))
  {
    var m := PlannedBlocks(c.PlanReuse(prompt));
    PlanShape(c, prompt);
    SpanMono(m, Cap(prompt, c.blockLen), c.blockLen);
    WalkFromStart(c, prompt);
    PlanFromWalk(c, prompt, c.Walk(prompt, Seed), m);
  }

  lemma PlanNoneLonger(c: Cache, owned: map<RequestId, Owned>, prompt: seq<Token>)
    requires CacheInv(c, owned) && prompt != []
    ensures NoneLonger(c, prompt, PlannedBlocks(c.PlanReuse(prompt)))
  {
    PlanShape(c, prompt);
    WalkFromStart(c, prompt);
    var found := |c.Walk(prompt, Seed)|;
    forall n | PlannedBlocks(c.PlanReuse(prompt)) < n && Span(n, c.blockLen) < |prompt|
      ensures PrefixHash(prompt, c.blockLen, n) !in c.pool.sealed
    {
      PlanIsMaximal(c, owned, prompt, found, Cap(prompt, c.blockLen), n);
    }
  }

  lemma WalkFromStart(c: Cache, prompt: seq<Token>)
    requires PoolWf(c.pool)
    ensures var w := c.Walk(prompt, Seed);
            && (forall j :: 0 <= j < |w| ==> FoundAt(c, prompt, j + 1, w[j]))
            && (|prompt| >= Span(|w|, c.blockLen) + c.blockLen ==>
                  PrefixHash(prompt, c.blockLen, |w| + 1) !in c.pool.sealed)
  {
    var w := c.Walk(prompt, Seed);
    assert w == c.Walk(prompt, PrefixHash([], c.blockLen, 0));
    WalkMeans(c, [], 0, prompt);
    assert [] + prompt == prompt;
    forall j | 0 <= j < |w| ensures FoundAt(c, prompt, j + 1, w[j]) {
      assert FoundAt(c, [] + prompt, 0 + j + 1, w[j]);
    }
  }

  /** `max_reusable_blocks`. */
  function Cap(prompt: seq<Token>, bl: Positive): nat {
    (Max(|prompt|, 1) - 1) / bl
  }

  lemma PlanShape(c: Cache, prompt: seq<Token>)
    requires prompt != []
    ensures var plan, w := c.PlanReuse(prompt), c.Walk(prompt, Seed);
            var m := PlannedBlocks(plan);
            && m == Min(|w|, Cap(prompt, c.blockLen))
            && (plan.Some? <==> m > 0)
            && (plan.Some? ==> plan.value == ReusePlan(w[..m], Span(m, c.blockLen)))
    ensures Span(Cap(prompt, c.blockLen), c.blockLen) < |prompt|
    ensures |prompt| - 1 < Span(Cap(prompt, c.blockLen), c.blockLen) + c.blockLen
  {
    SpanOfQuotient(|prompt| - 1, c.blockLen);
    SpanIsProduct(PlannedBlocks(c.PlanReuse(prompt)), c.blockLen);
  }

  lemma PlanIsMaximal(c: Cache, owned: map<RequestId, Owned>, prompt: seq<Token>, found: nat, cap: nat, n: nat)
    requires CacheInv(c, owned)
    requires |prompt| >= Span(found, c.blockLen) + c.blockLen ==> PrefixHash(prompt, c.blockLen, found + 1) !in c.pool.sealed
    requires |prompt| - 1 < Span(cap, c.blockLen) + c.blockLen
    requires Min(found, cap) < n && Span(n, c.blockLen) < |prompt|
    ensures PrefixHash(prompt, c.blockLen, n) !in c.pool.sealed
  {
    if n > cap {
      SpanMono(cap + 1, n, c.blockLen);
    } else if PrefixHash(prompt, c.blockLen, n) in c.pool.sealed {
      SpanMono(found + 1, n, c.blockLen);
      PrefixClosedDown(c, owned, prompt, found + 1, n);
    }
  }

  lemma PlanEntry(c: Cache, prompt: seq<Token>, m: nat, j: nat, b: BlockId)
    requires PoolWf(c.pool) && j < m && Span(m, c.blockLen) <= |prompt|
    requires FoundAt(c, prompt, j + 1, b)
    ensures b < |c.pool.blocks|
    ensures c.pool.blocks[b].state == Sealed(PrefixHash(prompt[..Span(m, c.blockLen)], c.blockLen, j + 1))
    ensures Depth(PrefixHash(prompt[..Span(m, c.blockLen)], c.blockLen, j + 1)) == j + 1
  {
    var bl := c.blockLen;
    var own := prompt[..Span(m, bl)];
    assert IndexEntry(c.pool, PrefixHash(prompt, bl, j + 1));
    SpanMono(j + 1, m, bl);
    TakeTake(prompt, Span(m, bl), Span(j + 1, bl));
    PrefixHashOfPrefix(prompt, own, bl, j + 1);
    PrefixHashDepth(own, bl, j + 1);
  }

  lemma PlanFromWalk(c: Cache, prompt: seq<Token>, w: seq<BlockId>, m: nat)
    requires PoolWf(c.pool)
    requires m <= |w| && Span(m, c.blockLen) <= |prompt|
    requires forall j :: 0 <= j < |w| ==> FoundAt(c, prompt, j + 1, w[j])
    ensures PlanOk(c, ReusePlan(w[..m], Span(m, c.blockLen)), Owned(prompt[..Span(m, c.blockLen)], m))
  {
    var own := prompt[..Span(m, c.blockLen)];
    forall j | 0 <= j < m
      ensures w[j] < |c.pool.blocks|
      ensures c.pool.blocks[w[j]].state == Sealed(PrefixHash(own, c.blockLen, j + 1))
      ensures Depth(PrefixHash(own, c.blockLen, j + 1)) == j + 1
    {
      assert FoundAt(c, prompt, j + 1, w[j]);
      PlanEntry(c, prompt, m, j, w[j]);
    }
  }

  // ------------------------------------------------- what the operations keep

  lemma HoldersUpdate(tables: map<RequestId, seq<BlockId>>, id: RequestId, t: seq<BlockId>, b: BlockId)
    ensures Holders(tables[id := t], b) ==
              if b in t then Holders(tables, b) + {id} else Holders(tables, b) - {id}
  {
  }

  lemma HoldersRemove(tables: map<RequestId, seq<BlockId>>, id: RequestId, b: BlockId)
    ensures Holders(tables - {id}, b) == Holders(tables, b) - {id}
  {
  }

  /** Nothing that is in a table is free. */
  lemma HeldNotFree(c: Cache, owned: map<RequestId, Owned>, id: RequestId, b: BlockId)
    requires CacheInv(c, owned) && id in c.tables && b in c.tables[id]
    ensures b < |c.pool.blocks| && b in c.pool.used && b !in c.pool.free
  {
    TableUsed(c, owned, id);
  }

  /** `base` is what the request already holds, or what its plan reuses; `taken` are free
      blocks reserved for it. */
  ghost predicate GrowOk(c: Cache, owned: map<RequestId, Owned>, id: RequestId, o: Owned,
                         base: seq<BlockId>, taken: seq<BlockId>, p1: Pool)
  {
    && CacheInv(c, owned) && PoolWf(p1)
    && TableOk(c, base, id, o)
    && (if id in c.tables then base == c.tables[id] && o == owned[id] else |base| == o.count)
    && ReusedAndReserved(c.pool, p1, if id in c.tables then [] else base, taken, id)
    && Distinct(base + taken)
  }

  lemma GrowOwnTable(c: Cache, owned: map<RequestId, Owned>, id: RequestId, o: Owned,
                     base: seq<BlockId>, taken: seq<BlockId>, p1: Pool, c1: Cache)
    requires GrowOk(c, owned, id, o, base, taken, p1)
    requires c1 == c.(pool := p1, tables := c.tables[id := base + taken])
    ensures TableOk(c1, base + taken, id, o)
  {
    var table := base + taken;
    forall i | 0 <= i < |table| ensures BlockAt(c1, table, id, o, i) {
      if i < |base| {
        assert BlockAt(c, base, id, o, i);
        assert c.pool.blocks[base[i]] != Fresh;
        assert base[i] !in taken;
      } else {
        assert table[i] == taken[i - |base|];
        assert table[i] in taken;
      }
    }
  }

  lemma GrowOtherTable(c: Cache, owned: map<RequestId, Owned>, id: RequestId, o: Owned,
                       base: seq<BlockId>, taken: seq<BlockId>, p1: Pool, c1: Cache, other: RequestId)
    requires GrowOk(c, owned, id, o, base, taken, p1)
    requires c1 == c.(pool := p1, tables := c.tables[id := base + taken])
    requires other in c.tables && other != id
    ensures TableOk(c1, c.tables[other], other, owned[other])
  {
    forall b | b in c.tables[other] && b < |c.pool.blocks|
      ensures c1.pool.blocks[b].state == c.pool.blocks[b].state
    {
      HeldNotFree(c, owned, other, b);
    }
    TableFrame(c, c1, c.tables[other], other, owned[other]);
  }

  lemma GrowRefCount(c: Cache, owned: map<RequestId, Owned>, id: RequestId, o: Owned,
                     base: seq<BlockId>, taken: seq<BlockId>, p1: Pool, c1: Cache, b: BlockId)
    requires GrowOk(c, owned, id, o, base, taken, p1)
    requires c1 == c.(pool := p1, tables := c.tables[id := base + taken])
    requires b < |c.pool.blocks|
    ensures c1.pool.blocks[b].refCnt == |Holders(c1.tables, b)|
  {
    hide TableOk;
    assert id in c.tables ==> base == c.tables[id];
    HoldersUpdate(c.tables, id, base + taken, b);
    assert c.pool.blocks[b].refCnt == |Holders(c.tables, b)|;
    assert b in base + taken <==> b in base || b in taken;
    if b in taken {
      assert c.pool.blocks[b] == Fresh;
      assert Holders(c.tables, b) == {};
    } else if id in c.tables {
      assert b in base <==> id in Holders(c.tables, b);
      assert Holders(c1.tables, b) == Holders(c.tables, b);
    } else {
      assert id !in Holders(c.tables, b);
    }
  }

  lemma Grow(c: Cache, owned: map<RequestId, Owned>, id: RequestId, o: Owned,
             base: seq<BlockId>, taken: seq<BlockId>, p1: Pool)
    requires GrowOk(c, owned, id, o, base, taken, p1)
    ensures CacheInv(c.(pool := p1, tables := c.tables[id := base + taken]), owned[id := o])
  {
    var c1 := c.(pool := p1, tables := c.tables[id := base + taken]);
    forall other | other in c1.tables ensures TableOk(c1, c1.tables[other], other, owned[id := o][other]) {
      if other == id {
        GrowOwnTable(c, owned, id, o, base, taken, p1, c1);
      } else {
        GrowOtherTable(c, owned, id, o, base, taken, p1, c1, other);
      }
    }
    forall b | 0 <= b < |c1.pool.blocks| ensures c1.pool.blocks[b].refCnt == |Holders(c1.tables, b)| {
      GrowRefCount(c, owned, id, o, base, taken, p1, c1, b);
    }
  }

  /** The blocks a request starts from when it reserves: its table, or its plan's blocks. */
  function StartBlocks(c: Cache, id: RequestId, plan: Option<ReusePlan>): seq<BlockId> {
    if plan.Some? then plan.value.blocks else c.BlockTable(id)
  }

  ghost predicate ReserveReady(c: Cache, owned: map<RequestId, Owned>, id: RequestId,
                               plan: Option<ReusePlan>, tokens: nat, o: Owned)
  {
    && CacheInv(c, owned) && tokens > 0
    && match plan
       case Some(p) => id !in c.tables && PlanOk(c, p, o) && p.reusedLen < tokens
       case None => o == if id in c.tables then owned[id] else Owned([], 0)
  }

  /** The blocks `reserve_to` asks for beyond those it starts from. */
  function Missing(c: Cache, id: RequestId, plan: Option<ReusePlan>, tokens: nat): nat {
    var base := StartBlocks(c, id, plan);
    Max(|base|, CeilDiv(tokens, c.blockLen)) - |base|
  }

  /** `c1` and `table` are what a successful reservation of `tokens` for `id` leaves. */
  ghost predicate ReservedTo(c: Cache, owned: map<RequestId, Owned>, id: RequestId,
                             plan: Option<ReusePlan>, tokens: nat, o: Owned, c1: Cache, table: seq<BlockId>)
  {
    && CacheInv(c1, owned[id := o])
    && c1 == c.(pool := c1.pool, tables := c.tables[id := table])
    && c1.pool.sealed == c.pool.sealed && |c1.pool.blocks| == |c.pool.blocks|
    && StartBlocks(c, id, plan) <= table
    && |table| == Max(|StartBlocks(c, id, plan)|, CeilDiv(tokens, c.blockLen))
  }

  /** `reserve_to`: with enough free blocks the table becomes exactly as long as the tokens
      need (never shorter than before) and keeps what it began with; without enough, nothing
      changes and the error names both counts.  No other outcome exists. */
  lemma ReserveToEffect(c: Cache, owned: map<RequestId, Owned>, id: RequestId,
                        plan: Option<ReusePlan>, tokens: nat, o: Owned)
    requires ReserveReady(c, owned, id, plan, tokens, o)
    ensures var (c1, r) := c.ReserveTo(id, plan, tokens);
            var missing := Missing(c, id, plan, tokens);
            && (r.Ok? <==> missing <= |c.pool.free|)
            && (r.Err? ==> c1 == c && r.error == InsufficientBlocks(missing, |c.pool.free|))
            && (r.Ok? ==> ReservedTo(c, owned, id, plan, tokens, o, c1, r.value))
  {
    ReserveArithmetic(c, owned, id, plan, tokens, o);
    if Missing(c, id, plan, tokens) > 0 {
      ReserveGrows(c, owned, id, plan, tokens, o);
    } else {
      assert owned[id := o] == owned;
      assert c == c.(pool := c.pool, tables := c.tables[id := c.tables[id]]);
    }
  }

  function Required(c: Cache, plan: Option<ReusePlan>, tokens: nat): nat
    requires plan.Some? ==> plan.value.reusedLen <= tokens
  {
    CeilDiv(if plan.Some? then tokens - plan.value.reusedLen else tokens, c.blockLen)
  }

  lemma ReserveArithmetic(c: Cache, owned: map<RequestId, Owned>, id: RequestId,
                          plan: Option<ReusePlan>, tokens: nat, o: Owned)
    requires ReserveReady(c, owned, id, plan, tokens, o)
    ensures Missing(c, id, plan, tokens) == Max(0, Required(c, plan, tokens) - |c.BlockTable(id)|)
    ensures Missing(c, id, plan, tokens) == 0 ==> plan.None? && id in c.tables
  {
    if plan.Some? {
      CeilDivAfter(tokens, o.count, c.blockLen);
      CeilDivBounds(tokens - plan.value.reusedLen, c.blockLen);
    } else {
      CeilDivBounds(tokens, c.blockLen);
    }
  }

  lemma ReserveGrows(c: Cache, owned: map<RequestId, Owned>, id: RequestId,
                     plan: Option<ReusePlan>, tokens: nat, o: Owned)
    requires ReserveReady(c, owned, id, plan, tokens, o)
    requires Missing(c, id, plan, tokens) > 0
    ensures var (c1, r) := c.ReserveTo(id, plan, tokens);
            var missing := Missing(c, id, plan, tokens);
            && (r.Ok? <==> missing <= |c.pool.free|)
            && (r.Err? ==> c1 == c && r.error == InsufficientBlocks(missing, |c.pool.free|))
            && (r.Ok? ==> ReservedTo(c, owned, id, plan, tokens, o, c1, r.value))
  {
    var reused := if plan.Some? then plan.value.blocks else [];
    var missing := Missing(c, id, plan, tokens);
    ReserveArithmetic(c, owned, id, plan, tokens, o);
    ReuseAndReserveEffect(c.pool, reused, missing, id);
    var (p1, delta) := c.pool.ReuseAndReserve(reused, missing, id);
    ReserveToUnfolds(c, id, plan, tokens, missing, reused, p1, delta);
    if delta.Ok? {
      GrowByDelta(c, owned, id, plan, tokens, o, p1, delta.value);
    }
  }

  lemma ReserveToUnfolds(c: Cache, id: RequestId, plan: Option<ReusePlan>, tokens: nat, missing: nat,
                         reused: seq<BlockId>, p1: Pool, delta: Result<seq<BlockId>>)
    requires plan.Some? ==> id !in c.tables && plan.value.reusedLen <= tokens
    requires missing > 0 && missing == Required(c, plan, tokens) - |c.BlockTable(id)|
    requires reused == if plan.Some? then plan.value.blocks else []
    requires c.pool.ReuseAndReserve(reused, missing, id) == (p1, delta)
    ensures c.ReserveTo(id, plan, tokens) ==
              if delta.Err? then (c.(pool := p1), delta)
              else var table := c.BlockTable(id) + delta.value;
                   (c.(pool := p1, tables := c.tables[id := table]), Ok(table))
  {
  }

  lemma GrowByDelta(c: Cache, owned: map<RequestId, Owned>, id: RequestId,
                    plan: Option<ReusePlan>, tokens: nat, o: Owned, p1: Pool, delta: seq<BlockId>)
    requires ReserveReady(c, owned, id, plan, tokens, o) && PoolWf(p1)
    requires var reused := if plan.Some? then plan.value.blocks else [];
             && |delta| == |reused| + Missing(c, id, plan, tokens) && delta[..|reused|] == reused && Distinct(delta)
             && ReusedAndReserved(c.pool, p1, reused, delta[|reused|..], id)
    ensures var table := c.BlockTable(id) + delta;
            ReservedTo(c, owned, id, plan, tokens, o, c.(pool := p1, tables := c.tables[id := table]), table)
  {
    var base := StartBlocks(c, id, plan);
    var reused := if plan.Some? then plan.value.blocks else [];
    var taken := delta[|reused|..];
    assert delta == reused + taken;
    assert c.BlockTable(id) + delta == base + taken;
    assert plan.None? ==> taken == delta;
    BaseOk(c, owned, id, plan, tokens, o);
    GrowDistinct(c, owned, id, plan, tokens, o, delta);
    Grow(c, owned, id, o, base, taken, p1);
  }

  lemma BaseOk(c: Cache, owned: map<RequestId, Owned>, id: RequestId,
               plan: Option<ReusePlan>, tokens: nat, o: Owned)
    requires ReserveReady(c, owned, id, plan, tokens, o)
    ensures TableOk(c, StartBlocks(c, id, plan), id, o)
    ensures id !in c.tables ==> |StartBlocks(c, id, plan)| == o.count
  {
    if plan.Some? {
      forall i | 0 <= i < o.count ensures BlockAt(c, plan.value.blocks, id, o, i) {}
    }
  }

  lemma GrowDistinct(c: Cache, owned: map<RequestId, Owned>, id: RequestId,
                     plan: Option<ReusePlan>, tokens: nat, o: Owned, delta: seq<BlockId>)
    requires ReserveReady(c, owned, id, plan, tokens, o)
    requires Distinct(delta)
    requires plan.None? ==> forall b :: b in delta ==> b in c.pool.free
    ensures Distinct(c.BlockTable(id) + delta)
  {
    if plan.None? && id in c.tables {
      forall b | b in c.tables[id] ensures b !in delta {
        HeldNotFree(c, owned, id, b);
      }
      DisjointConcat(c.tables[id], delta);
    } else {
      assert c.BlockTable(id) + delta == delta;
    }
  }

  /** `release` forgets the request's table, drops one reference from each of its blocks and
      never fails; the sealed index only loses blocks nobody holds any more. */
  lemma ReleaseTable(c: Cache, owned: map<RequestId, Owned>, id: RequestId)
    requires CacheInv(c, owned)
    ensures var (c1, s) := c.Release(id);
            && s == Done && CacheInv(c1, owned - {id})
            && c1.blockLen == c.blockLen && c1.tables == c.tables - {id}
            && |c1.pool.blocks| == |c.pool.blocks|
            && SealedWithin(c1, c)
  {
    if id in c.tables {
      var table := c.tables[id];
      TableUsed(c, owned, id);
      ReleaseEffect(c.pool, table);
      var p1 := c.pool.ReleaseBlocks(table).0;
      var c1 := c.(pool := p1, tables := c.tables - {id});
      ReleasedInv(c, owned, id, p1, c1);
    } else {
      assert owned - {id} == owned;
      assert c.tables - {id} == c.tables;
    }
  }

  lemma ReleasedInv(c: Cache, owned: map<RequestId, Owned>, id: RequestId, p1: Pool, c1: Cache)
    requires CacheInv(c, owned) && id in c.tables
    requires PoolWf(p1) && Released(c.pool, p1, c.tables[id])
    requires c1 == c.(pool := p1, tables := c.tables - {id})
    ensures CacheInv(c1, owned - {id})
  {
    var table := c.tables[id];
    forall b | 0 <= b < |c1.pool.blocks| ensures c1.pool.blocks[b].refCnt == |Holders(c1.tables, b)| {
      HoldersRemove(c.tables, id, b);
      assert c.pool.blocks[b].refCnt == |Holders(c.tables, b)|;
      if b in table {
        assert id in Holders(c.tables, b);
      }
    }
    forall other | other in c1.tables ensures TableOk(c1, c1.tables[other], other, owned[other]) {
      forall b | b in c.tables[other] && b < |c.pool.blocks|
        ensures p1.blocks[b].state == c.pool.blocks[b].state
      {
        if b in table {
          TwoHolders(c, id, other, b);
        }
      }
      TableFrame(c, c1, c.tables[other], other, owned[other]);
    }
  }

  lemma TwoHolders(c: Cache, a: RequestId, b: RequestId, k: BlockId)
    requires RefCountsOk(c) && k < |c.pool.blocks| && a != b
    requires a in c.tables && k in c.tables[a] && b in c.tables && k in c.tables[b]
    ensures c.pool.blocks[k].refCnt >= 2
  {
    assert {a, b} <= Holders(c.tables, k);
    SubsetCardinality({a, b}, Holders(c.tables, k));
    assert c.pool.blocks[k].refCnt == |Holders(c.tables, k)|;
  }

  /** With no table left, every block is free. */
  lemma NoTablesAllFree(c: Cache, owned: map<RequestId, Owned>)
    requires CacheInv(c, owned) && c.tables == map[]
    ensures c.pool.free == BlockIds(|c.pool.blocks|) && |c.pool.free| == |c.pool.blocks|
  {
    forall b | 0 <= b < |c.pool.blocks| ensures b in c.pool.free {
      assert Holders(c.tables, b) == {};
      assert c.pool.blocks[b].refCnt == |Holders(c.tables, b)|;
      FreeIffUnreferenced(c.pool, b);
    }
  }

  // ------------------------------------------------------------------ sealing

  ghost predicate SealReady(c: Cache, owned: map<RequestId, Owned>, id: RequestId, chunk: seq<Token>) {
    && CacheInv(c, owned) && id in c.tables
    && |chunk| == c.blockLen && owned[id].count < |c.tables[id]|
  }

  function NextHash(c: Cache, o: Owned, chunk: seq<Token>): Hash {
    HashTokens(chunk, PrefixHash(o.tokens, c.blockLen, o.count))
  }

  function SealedOn(o: Owned, chunk: seq<Token>): Owned {
    Owned(o.tokens + chunk, o.count + 1)
  }

  /** The pool after a round of sealing: published, or the duplicate given back. */
  ghost predicate SealedPool(p: Pool, p1: Pool, bid: BlockId, hash: Hash) {
    && |p1.blocks| == |p.blocks| && bid < |p.blocks|
    && (hash !in p.sealed ==>
          && p1.free == p.free && p1.sealed == p.sealed[hash := bid]
          && p1.blocks == p.blocks[bid := PhysicalBlock(Sealed(hash), 1)])
    && (hash in p.sealed ==>
          var e := p.sealed[hash];
          && e < |p.blocks| && e != bid && p.blocks[e].state == Sealed(hash)
          && p1.sealed == p.sealed
          && p1.blocks == p.blocks[e := p.blocks[e].(refCnt := p.blocks[e].refCnt + 1)][bid := Fresh])
  }

  lemma SwapPool(p: Pool, bid: BlockId, hash: Hash)
    requires PoolWf(p) && bid in p.used && p.blocks[bid].state.Writable? && hash in p.sealed
    ensures var e := p.sealed[hash];
            var (p2, s2) := p.RetainShared([e]);
            var (p3, s3) := p2.ReleaseBlocks([bid]);
            s2 == Done && s3 == Done && PoolWf(p3) && SealedPool(p, p3, bid, hash)
  {
    var e := p.sealed[hash];
    assert IndexEntry(p, hash);
    assert BlockInUse(p, bid);
    RetainEffect(p, [e]);
    var p2 := p.RetainShared([e]).0;
    assert p2.blocks[bid] == p.blocks[bid];
    ReleaseEffect(p2, [bid]);
    var p3 := p2.ReleaseBlocks([bid]).0;
    assert p3.blocks == p.blocks[e := p.blocks[e].(refCnt := p.blocks[e].refCnt + 1)][bid := Fresh];
    assert p3.sealed == p.sealed;
  }

  lemma SealChunkUnfolds(c: Cache, id: RequestId, idx: nat, hash: Hash)
    requires PoolWf(c.pool) && id in c.tables && idx < |c.tables[id]|
    requires var bid := c.tables[id][idx]; bid in c.pool.used && c.pool.blocks[bid].state.Writable?
    ensures var bid := c.tables[id][idx];
            var (c1, s) := c.SealChunk(id, idx, hash);
            && s == Done && PoolWf(c1.pool) && SealedPool(c.pool, c1.pool, bid, hash)
            && c1 == c.(pool := c1.pool,
                        tables := if hash in c.pool.sealed
                                  then c.tables[id := c.tables[id][idx := c.pool.sealed[hash]]] else c.tables)
  {
    var bid := c.tables[id][idx];
    SealBlockEffect(c.pool, bid, hash);
    if hash in c.pool.sealed {
      SwapPool(c.pool, bid, hash);
    }
  }

  lemma PrefixHashKept(tokens: seq<Token>, chunk: seq<Token>, bl: nat, count: nat, n: nat)
    requires n <= count && |tokens| == Span(count, bl)
    ensures PrefixHash(tokens + chunk, bl, n) == PrefixHash(tokens, bl, n)
  {
    SpanMono(n, count, bl);
    assert (tokens + chunk)[..Span(n, bl)] == tokens[..Span(n, bl)];
    PrefixHashOfPrefix(tokens + chunk, tokens, bl, n);
  }

  lemma NextHashFacts(c: Cache, owned: map<RequestId, Owned>, id: RequestId, chunk: seq<Token>)
    requires SealReady(c, owned, id, chunk)
    ensures var o := owned[id];
            && NextHash(c, o, chunk) == PrefixHash(SealedOn(o, chunk).tokens, c.blockLen, o.count + 1)
            && |SealedOn(o, chunk).tokens| == Span(o.count + 1, c.blockLen)
            && Depth(NextHash(c, o, chunk)) == o.count + 1
  {
    var o := owned[id];
    var all := o.tokens + chunk;
    assert TableOk(c, c.tables[id], id, o);
    PrefixHashStep(o.tokens, chunk, c.blockLen, o.count);
    PrefixHashDepth(all, c.blockLen, o.count + 1);
  }

  /** The block the request is about to seal is in use, writable and in no other table; a block
      already indexed under the new digest is not in its table. */
  lemma SealTarget(c: Cache, owned: map<RequestId, Owned>, id: RequestId, chunk: seq<Token>)
    requires SealReady(c, owned, id, chunk)
    ensures var bid := c.tables[id][owned[id].count];
            bid in c.pool.used && bid < |c.pool.blocks| && c.pool.blocks[bid].state == Writable(Some(id))
    ensures var hash := NextHash(c, owned[id], chunk);
            hash in c.pool.sealed ==> c.pool.sealed[hash] !in c.tables[id]
  {
    var table, o := c.tables[id], owned[id];
    var hash := NextHash(c, o, chunk);
    assert TableOk(c, table, id, o);
    assert BlockAt(c, table, id, o, o.count);
    assert table[o.count] in table;
    TableUsed(c, owned, id);
    NextHashFacts(c, owned, id, chunk);
    if hash in c.pool.sealed {
      assert IndexEntry(c.pool, hash);
      forall i | 0 <= i < |table| ensures table[i] != c.pool.sealed[hash] {
        assert BlockAt(c, table, id, o, i);
        if i < o.count {
          SpanMono(i + 1, o.count, c.blockLen);
          PrefixHashDepth(o.tokens, c.blockLen, i + 1);
        }
      }
    }
  }

  /** `c1` is `c` after the request's next block was sealed under `hash` or swapped. */
  ghost predicate SealRound(c: Cache, c1: Cache, owned: map<RequestId, Owned>, id: RequestId, hash: Hash)
    requires id in c.tables && id in owned && owned[id].count < |c.tables[id]|
  {
    var idx := owned[id].count;
    && SealedPool(c.pool, c1.pool, c.tables[id][idx], hash) && PoolWf(c1.pool)
    && c1 == c.(pool := c1.pool,
                tables := if hash in c.pool.sealed
                          then c.tables[id := c.tables[id][idx := c.pool.sealed[hash]]] else c.tables)
  }

  lemma SealOwnTable(c: Cache, c1: Cache, owned: map<RequestId, Owned>, id: RequestId, chunk: seq<Token>)
    requires SealReady(c, owned, id, chunk) && SealRound(c, c1, owned, id, NextHash(c, owned[id], chunk))
    ensures TableOk(c1, c1.tables[id], id, SealedOn(owned[id], chunk))
  {
    var o, o1 := owned[id], SealedOn(owned[id], chunk);
    var table, table1 := c.tables[id], c1.tables[id];
    var idx, bid := o.count, c.tables[id][owned[id].count];
    hide PoolWf, RefCountsOk;
    NextHashFacts(c, owned, id, chunk);
    SealTarget(c, owned, id, chunk);
    assert TableOk(c, table, id, o);
    forall i | 0 <= i < |table1| ensures BlockAt(c1, table1, id, o1, i) {
      if i != idx { SealOwnEntry(c, c1, owned, id, chunk, i); }
    }
  }

  /** The other entries of the owner's table. */
  lemma SealOwnEntry(c: Cache, c1: Cache, owned: map<RequestId, Owned>, id: RequestId, chunk: seq<Token>, i: nat)
    requires SealReady(c, owned, id, chunk) && SealRound(c, c1, owned, id, NextHash(c, owned[id], chunk))
    requires i < |c.tables[id]| && i != owned[id].count && i < |c1.tables[id]|
    ensures BlockAt(c1, c1.tables[id], id, SealedOn(owned[id], chunk), i)
  {
    hide PoolWf, RefCountsOk, PrefixHash;
    var o, table := owned[id], c.tables[id];
    assert TableOk(c, table, id, o);
    assert BlockAt(c, table, id, o, i);
    assert c1.tables[id][i] == table[i] && table[i] != table[o.count];
    if i < o.count {
      SpanMono(i + 1, o.count, c.blockLen);
      PrefixHashKept(o.tokens, chunk, c.blockLen, o.count, i + 1);
    }
  }

  lemma SealOtherTable(c: Cache, c1: Cache, owned: map<RequestId, Owned>, id: RequestId, chunk: seq<Token>, other: RequestId)
    requires SealReady(c, owned, id, chunk) && SealRound(c, c1, owned, id, NextHash(c, owned[id], chunk))
    requires other in c.tables && other != id
    ensures TableOk(c1, c.tables[other], other, owned[other])
  {
    var bid := c.tables[id][owned[id].count];
    WritableExclusive(c, owned, id, owned[id].count, other);
    assert forall b :: b in c.tables[other] ==> b != bid;
    TableFrame(c, c1, c.tables[other], other, owned[other]);
  }

  lemma SealRefCount(c: Cache, c1: Cache, owned: map<RequestId, Owned>, id: RequestId, chunk: seq<Token>, b: BlockId)
    requires SealReady(c, owned, id, chunk) && SealRound(c, c1, owned, id, NextHash(c, owned[id], chunk))
    requires b < |c.pool.blocks|
    ensures c1.pool.blocks[b].refCnt == |Holders(c1.tables, b)|
  {
    var hash := NextHash(c, owned[id], chunk);
    var idx := owned[id].count;
    var table, bid := c.tables[id], c.tables[id][idx];
    SealTarget(c, owned, id, chunk);
    assert c.pool.blocks[b].refCnt == |Holders(c.tables, b)|;
    assert b in c.pool.free || BlockInUse(c.pool, b);
    if hash in c.pool.sealed {
      var e := c.pool.sealed[hash];
      var table1 := table[idx := e];
      HoldersUpdate(c.tables, id, table1, b);
      SwapMembership(table, idx, e, b);
      assert TableOk(c, table, id, owned[id]);
      assert b in table <==> id in Holders(c.tables, b);
      if b == bid {
        assert BlockInUse(c.pool, bid);
      } else if b == e {
      } else {
        assert Holders(c1.tables, b) == Holders(c.tables, b);
      }
    } else if b == bid {
      assert BlockInUse(c.pool, bid);
    }
  }

  lemma SwapMembership(table: seq<BlockId>, idx: nat, e: BlockId, b: BlockId)
    requires Distinct(table) && idx < |table|
    ensures b in table[idx := e] <==> b == e || (b in table && b != table[idx])
  {
    var t1: seq<BlockId> := table[idx := e];
    assert t1[idx] == e;
    if b in table && b != table[idx] {
      var i :| 0 <= i < |table| && table[i] == b;
      assert t1[i] == b;
    }
  }

  /** One round of sealing never fails and keeps the invariant: the owner has sealed one block
      more, either its own or the one already published under the same digest. */
  lemma SealChunkEffect(c: Cache, owned: map<RequestId, Owned>, id: RequestId, chunk: seq<Token>)
    requires SealReady(c, owned, id, chunk)
    ensures var hash := NextHash(c, owned[id], chunk);
            var (c1, s) := c.SealChunk(id, owned[id].count, hash);
            && s == Done
            && SealRound(c, c1, owned, id, hash)
            && CacheInv(c1, owned[id := SealedOn(owned[id], chunk)])
  {
    var hash := NextHash(c, owned[id], chunk);
    SealTarget(c, owned, id, chunk);
    SealChunkUnfolds(c, id, owned[id].count, hash);
    var c1 := c.SealChunk(id, owned[id].count, hash).0;
    var owned1 := owned[id := SealedOn(owned[id], chunk)];
    forall other | other in c1.tables ensures TableOk(c1, c1.tables[other], other, owned1[other]) {
      if other == id {
        SealOwnTable(c, c1, owned, id, chunk);
      } else {
        SealOtherTable(c, c1, owned, id, chunk, other);
      }
    }
    forall b | 0 <= b < |c1.pool.blocks| ensures c1.pool.blocks[b].refCnt == |Holders(c1.tables, b)| {
      SealRefCount(c, c1, owned, id, chunk, b);
    }
  }

  /** The digest to continue from is that of what the owner has sealed. */
  lemma SealedPrefixIs(c: Cache, owned: map<RequestId, Owned>, id: RequestId, sealedLen: nat)
    requires CacheInv(c, owned) && id in c.tables && sealedLen == Span(owned[id].count, c.blockLen)
    ensures c.SealedPrefix(id, sealedLen) == Ok(PrefixHash(owned[id].tokens, c.blockLen, owned[id].count))
    ensures sealedLen / c.blockLen == owned[id].count
  {
    var table, o := c.tables[id], owned[id];
    assert TableOk(c, table, id, o);
    QuotientIs(sealedLen, c.blockLen, o.count);
    if o.count > 0 {
      assert BlockAt(c, table, id, o, o.count - 1);
    }
  }

  /** What sealing `k` more blocks leaves besides the invariant: only the owner's table may
      change, and only where it was sealed; the index only grows, by blocks the owner keeps. */
  ghost predicate SealFrame(c: Cache, c1: Cache, id: RequestId, from: nat, to: nat)
    requires id in c.tables
  {
    && c1.blockLen == c.blockLen && |c1.pool.blocks| == |c.pool.blocks|
    && id in c1.tables && c1.tables == c.tables[id := c1.tables[id]]
    && |c1.tables[id]| == |c.tables[id]|
    && (forall j :: 0 <= j < |c.tables[id]| && !(from <= j < to) ==> c1.tables[id][j] == c.tables[id][j])
    && (forall h :: h in c.pool.sealed ==> h in c1.pool.sealed && c1.pool.sealed[h] == c.pool.sealed[h])
    && (forall h :: h in c1.pool.sealed && h !in c.pool.sealed ==>
          exists j :: from <= j < to && j < |c.tables[id]|
            && c1.pool.sealed[h] == c.tables[id][j] && c1.tables[id][j] == c.tables[id][j])
  }

  lemma SealRoundFrame(c: Cache, c1: Cache, owned: map<RequestId, Owned>, id: RequestId, hash: Hash)
    requires id in c.tables && id in owned && owned[id].count < |c.tables[id]|
    requires SealRound(c, c1, owned, id, hash)
    ensures SealFrame(c, c1, id, owned[id].count, owned[id].count + 1)
  {
    if hash !in c.pool.sealed {
      assert c.tables == c.tables[id := c.tables[id]];
    }
  }

  lemma SealFrameTransitive(c: Cache, c1: Cache, c2: Cache, id: RequestId, from: nat, mid: nat, to: nat)
    requires id in c.tables && from <= mid <= to
    requires SealFrame(c, c1, id, from, mid) && SealFrame(c1, c2, id, mid, to)
    ensures SealFrame(c, c2, id, from, to)
  {
  }

  /** `c1` is what sealing `tokens`, `k` blocks of them, leaves. */
  ghost predicate SealedMore(c: Cache, c1: Cache, owned: map<RequestId, Owned>, id: RequestId, tokens: seq<Token>, k: nat)
    requires id in c.tables && id in owned
  {
    match owned[id]
    case Owned(done, n) =>
      && CacheInv(c1, owned[id := Owned(done + tokens, n + k)])
      && SealFrame(c, c1, id, n, n + k)
  }

  lemma SealedMoreStep(c: Cache, c1: Cache, c2: Cache, owned: map<RequestId, Owned>, id: RequestId,
                       chunk: seq<Token>, more: seq<Token>, k: nat)
    requires id in c.tables && id in owned && id in c1.tables
    requires SealFrame(c, c1, id, owned[id].count, owned[id].count + 1)
    requires SealedMore(c1, c2, owned[id := SealedOn(owned[id], chunk)], id, more, k)
    ensures SealedMore(c, c2, owned, id, chunk + more, k + 1)
  {
    var o := owned[id];
    SealFrameTransitive(c, c1, c2, id, o.count, o.count + 1, o.count + k + 1);
    assert o.tokens + chunk + more == o.tokens + (chunk + more);
    assert owned[id := SealedOn(o, chunk)][id := Owned(o.tokens + (chunk + more), o.count + k + 1)]
        == owned[id := Owned(o.tokens + (chunk + more), o.count + k + 1)];
  }

  lemma SealedMoreNothing(c: Cache, owned: map<RequestId, Owned>, id: RequestId)
    requires CacheInv(c, owned) && id in c.tables
    ensures SealedMore(c, c, owned, id, [], 0)
  {
    assert owned[id].tokens + [] == owned[id].tokens;
    assert owned[id := owned[id]] == owned;
    assert c.tables == c.tables[id := c.tables[id]];
  }

  lemma {:induction false} SealChunksEffect(
    c: Cache, owned: map<RequestId, Owned>, id: RequestId, tokens: seq<Token>, k: nat)
    requires CacheInv(c, owned) && id in c.tables
    requires |tokens| == Span(k, c.blockLen) && owned[id].count + k <= |c.tables[id]|
    ensures var o := owned[id];
            var (c1, s) := c.SealChunks(id, tokens, o.count, PrefixHash(o.tokens, c.blockLen, o.count));
            s == Done && SealedMore(c, c1, owned, id, tokens, k)
    decreases k
  {
    hide Cache.SealChunk, SealRound, TableOk, RefCountsOk;
    var o, bl := owned[id], c.blockLen;
    if k == 0 {
      SealedMoreNothing(c, owned, id);
      assert tokens == [];
    } else {
      var chunk, more := tokens[..bl], tokens[bl..];
      assert chunk + more == tokens;
      var o1 := SealedOn(o, chunk);
      var c1 := c.SealChunk(id, o.count, NextHash(c, o, chunk)).0;
      SealChunksUnfolds(c, owned, id, chunk, more);
      var owned1 := owned[id := o1];
      SealChunksEffect(c1, owned1, id, more, k - 1);
      var c2 := c1.SealChunks(id, more, owned1[id].count, PrefixHash(owned1[id].tokens, c1.blockLen, owned1[id].count)).0;
      SealedMoreStep(c, c1, c2, owned, id, chunk, more, k - 1);
    }
  }

  lemma SealChunksDef(c: Cache, id: RequestId, chunk: seq<Token>, more: seq<Token>, idx: nat, prefix: Hash, c1: Cache)
    requires |chunk| == c.blockLen && c.SealChunk(id, idx, HashTokens(chunk, prefix)) == (c1, Done)
    ensures c.SealChunks(id, chunk + more, idx, prefix) == c1.SealChunks(id, more, idx + 1, HashTokens(chunk, prefix))
  {
    hide Cache.SealChunk;
    assert (chunk + more)[..c.blockLen] == chunk && (chunk + more)[c.blockLen..] == more;
  }

  lemma SealChunksUnfolds(c: Cache, owned: map<RequestId, Owned>, id: RequestId, chunk: seq<Token>, more: seq<Token>)
    requires SealReady(c, owned, id, chunk)
    ensures var o, o1 := owned[id], SealedOn(owned[id], chunk);
            var c1 := c.SealChunk(id, o.count, NextHash(c, o, chunk)).0;
            && CacheInv(c1, owned[id := o1])
            && SealFrame(c, c1, id, o.count, o.count + 1)
            && c.SealChunks(id, chunk + more, o.count, PrefixHash(o.tokens, c.blockLen, o.count))
                 == c1.SealChunks(id, more, o1.count, PrefixHash(o1.tokens, c1.blockLen, o1.count))
  {
    hide Cache.SealChunk, Cache.SealChunks, SealRound, RefCountsOk, TableOk, PoolWf;
    var o := owned[id];
    var hash := NextHash(c, o, chunk);
    SealChunkEffect(c, owned, id, chunk);
    NextHashFacts(c, owned, id, chunk);
    var c1 := c.SealChunk(id, o.count, hash).0;
    SealRoundFrame(c, c1, owned, id, hash);
    SealChunksDef(c, id, chunk, more, o.count, PrefixHash(o.tokens, c.blockLen, o.count), c1);
  }

  /** `seal_blocks`, called with the full blocks that follow what is sealed, never fails and
      returns their length. */
  lemma SealBlocksEffect(c: Cache, owned: map<RequestId, Owned>, id: RequestId, tokens: seq<Token>, sealedLen: nat, k: nat)
    requires CacheInv(c, owned) && id in c.tables && sealedLen == Span(owned[id].count, c.blockLen)
    requires |tokens| == Span(k, c.blockLen) && owned[id].count + k <= |c.tables[id]|
    ensures var o := owned[id];
            var (c1, r) := c.SealBlocks(id, tokens, sealedLen);
            r == Ok(|tokens|) && SealedMore(c, c1, owned, id, tokens, k)
  {
    SealedPrefixIs(c, owned, id, sealedLen);
    SealChunksEffect(c, owned, id, tokens, k);
    QuotientIs(|tokens|, c.blockLen, k);
    SpanIsProduct(k, c.blockLen);
  }

  // ------------------------------------------------------------------- object

  class KvCacheManager {
    const blockLen: Positive
    const pool: BlockPool
    var tables: map<RequestId, seq<BlockId>>

    function View(): Cache
      reads this, pool
    {
      Cache(blockLen, pool.View(), tables)
    }

    constructor (numBlocks: nat, blockLen: Positive)
      ensures fresh(pool)
      ensures View() == Cache(blockLen, NewPool(numBlocks), map[])
    {
      this.blockLen := blockLen;
      pool := new BlockPool(numBlocks);
      tables := map[];
    }

    /** A deep copy, from the value a clone took. */
    constructor Of(snapshot: Cache)
      ensures fresh(pool)
      ensures View() == snapshot
    {
      blockLen := snapshot.blockLen;
      pool := new BlockPool.Of(snapshot.pool);
      tables := snapshot.tables;
    }

    method PlanReuse(prompt: seq<Token>) returns (plan: Option<ReusePlan>)
      ensures plan == View().PlanReuse(prompt)
    {
      if |prompt| < blockLen {
        return None;
      }
      var blocks, prefix, rest := [], Seed, prompt;
      while |rest| >= blockLen
        invariant blocks + View().Walk(rest, prefix) == View().Walk(prompt, Seed)
        decreases |rest|
      {
        var hash := HashTokens(rest[..blockLen], prefix);
        if hash !in pool.sealed || pool.sealed[hash] >= |pool.blocks| {
          break;
        }
        ghost var before := blocks;
        blocks := blocks + [pool.sealed[hash]];
        prefix, rest := hash, rest[blockLen..];
        assert before + ([pool.sealed[hash]] + View().Walk(rest, prefix)) == blocks + View().Walk(rest, prefix);
      }
      assert blocks == View().Walk(prompt, Seed);
      blocks := blocks[..Min(|blocks|, Cap(prompt, blockLen))];
      return if blocks == [] then None else Some(ReusePlan(blocks, |blocks| * blockLen));
    }

    method SealChunk(id: RequestId, idx: nat, hash: Hash) returns (s: Status)
      modifies this, pool
      ensures (View(), s) == old(View().SealChunk(id, idx, hash))
    {
      if id !in tables || idx >= |tables[id]| {
        return Failure(Panicked);
      }
      var bid := tables[id][idx];
      var sealedAs := pool.SealBlock(bid, hash);
      match sealedAs
      case Err(e) => return Failure(e);
      case Ok(Published(_)) => return Done;
      case Ok(Existing(existing)) =>
        s := pool.RetainShared([existing]);
        if s.Failure? {
          return s;
        }
        var table: seq<BlockId> := tables[id][idx := existing];
        tables := tables[id := table];
        s := pool.ReleaseBlocks([bid]);
        return s;
    }

    method SealedPrefix(id: RequestId, sealedLen: nat) returns (r: Result<Hash>)
      ensures r == View().SealedPrefix(id, sealedLen)
    {
      if id !in tables {
        return Err(Panicked);
      }
      if sealedLen < blockLen {
        return Ok(Seed);
      }
      var idx := sealedLen / blockLen - 1;
      if !(0 <= idx < |tables[id]|) || tables[id][idx] >= |pool.blocks| {
        return Err(Panicked);
      }
      match pool.blocks[tables[id][idx]].state
      case Sealed(h) => return Ok(h);
      case Writable(_) => return Err(Panicked);
    }

    method SealBlocks(id: RequestId, tokens: seq<Token>, sealedLen: nat) returns (r: Result<nat>)
      modifies this, pool
      ensures (View(), r) == old(View().SealBlocks(id, tokens, sealedLen))
    {
      hide Cache.SealChunk, Cache.SealedPrefix;
      var start := SealedPrefix(id, sealedLen);
      if start.Err? {
        return Err(start.error);
      }
      var prefix := start.value;
      var nextIdx: nat := sealedLen / blockLen;
      var rest := tokens;
      var newSealedLen: nat := 0;
      ghost var target, rounds := View().SealChunks(id, tokens, nextIdx, prefix), 0;
      while |rest| >= blockLen
        invariant |rest| <= |tokens| && newSealedLen == |tokens| - |rest|
        invariant rounds >= 0 && newSealedLen == Span(rounds, blockLen)
        invariant View().SealChunks(id, rest, nextIdx, prefix) == target
        decreases |rest|
      {
        var hash := HashTokens(rest[..blockLen], prefix);
        var s := SealChunk(id, nextIdx, hash);
        if s.Failure? {
          return Err(s.error);
        }
        newSealedLen := newSealedLen + blockLen;
        rounds := rounds + 1;
        prefix, rest, nextIdx := hash, rest[blockLen..], nextIdx + 1;
      }
      QuotientIs(|tokens|, blockLen, rounds);
      SpanIsProduct(rounds, blockLen);
      return Ok(newSealedLen);
    }

    method ReserveTo(id: RequestId, plan: Option<ReusePlan>, tokens: nat) returns (r: Result<seq<BlockId>>)
      modifies this, pool
      ensures (View(), r) == old(View().ReserveTo(id, plan, tokens))
    {
      if plan.Some? && id in tables {
        return Err(InvalidReusePlan);
      }
      if plan.Some? && plan.value.reusedLen > tokens {
        return Err(Panicked);
      }
      var required := CeilDiv(if plan.Some? then tokens - plan.value.reusedLen else tokens, blockLen);
      var current := if id in tables then |tables[id]| else 0;
      if required > current {
        var delta := pool.ReuseAndReserve(
          if plan.Some? then plan.value.blocks else [], required - current, id);
        if delta.Err? {
          return delta;
        }
        var table := (if id in tables then tables[id] else []) + delta.value;
        tables := tables[id := table];
      }
      return if id in tables then Ok(tables[id]) else Err(Panicked);
    }

    method Release(id: RequestId) returns (s: Status)
      modifies this, pool
      ensures (View(), s) == old(View().Release(id))
    {
      if id in tables {
        var blocks := tables[id];
        tables := tables - {id};
        s := pool.ReleaseBlocks(blocks);
        return s;
      }
      return Done;
    }
  }
}
