/** The reference-counted pool of physical KV blocks (crates/einf-control/src/block_pool.rs).

    `Pool` is the value of a pool; the functions on it say what every operation returns and
    leaves behind, on any pool at all.  `BlockPool` is the mutable object, proved to do exactly
    that.  `PoolWf` is the invariant that the operations keep. */
module BlockPools {
  import opened Base

  /** The chained SHA-256 digests, taken to be collision free: a digest is the list of what
      was fed to the hasher, and no digest equals the seed prefix. */
  datatype Hash = Seed | Chain(prefix: Hash, tokens: seq<Token>)

  datatype BlockState = Writable(writer: Option<RequestId>) | Sealed(hash: Hash)

  datatype PhysicalBlock = PhysicalBlock(state: BlockState, refCnt: nat)

  datatype SealResult = Published(block: BlockId) | Existing(block: BlockId)

  datatype Pool = Pool(
    blocks: seq<PhysicalBlock>,
    free: set<BlockId>,
    used: set<BlockId>,
    sealed: map<Hash, BlockId>)
  {
    /** One step of the loop of `reserve`. */
    function TakeOne(bid: BlockId, writer: RequestId): (Pool, Status) {
      var p1 := this.(free := free - {bid}, used := used + {bid});
      if bid >= |blocks| then (p1, Failure(Panicked))
      else
        var blk := blocks[bid].(refCnt := blocks[bid].refCnt + 1);
        if blk.state.Sealed? then (p1.(blocks := blocks[bid := blk]), Failure(Panicked))
        else (p1.(blocks := blocks[bid := blk.(state := Writable(Some(writer)))]), Done)
    }

    function TakeAll(ids: seq<BlockId>, writer: RequestId): (Pool, Status)
      decreases |ids|
    {
      if ids == [] then (this, Done)
      else
        var (p1, s) := TakeOne(ids[0], writer);
        if s.Failure? then (p1, s) else p1.TakeAll(ids[1..], writer)
    }

    function Reserve(count: nat, writer: RequestId): (Pool, Result<seq<BlockId>>) {
      if count > |free| then (this, Err(InsufficientBlocks(count, |free|)))
      else
        var ids := Smallest(free, count);
        var (p1, s) := TakeAll(ids, writer);
        (p1, if s.Failure? then Err(s.error) else Ok(ids))
    }

    function SealBlock(bid: BlockId, hash: Hash): (Pool, Result<SealResult>) {
      if hash in sealed then
        (this, Ok(if sealed[hash] == bid then Published(bid) else Existing(sealed[hash])))
      else if bid >= |blocks| || blocks[bid].state.Sealed? then (this, Err(Panicked))
      else
        (this.(blocks := blocks[bid := blocks[bid].(state := Sealed(hash))],
            sealed := sealed[hash := bid]),
         Ok(Published(bid)))
    }

    /** One step of the loop of `release_blocks`. */
    function ReleaseOne(bid: BlockId): (Pool, Status) {
      if bid !in used then (this, Failure(BlockNotInUse(bid)))
      else if bid >= |blocks| || blocks[bid].refCnt == 0 then (this, Failure(Panicked))
      else if blocks[bid].refCnt == 1 then
        (Pool(blocks[bid := Fresh],
              free + {bid},
              used - {bid},
              if blocks[bid].state.Sealed? then this.sealed - {blocks[bid].state.hash} else sealed),
         Done)
      else
        (this.(blocks := blocks[bid := blocks[bid].(refCnt := blocks[bid].refCnt - 1)]), Done)
    }

    function ReleaseBlocks(ids: seq<BlockId>): (Pool, Status)
      decreases |ids|
    {
      if ids == [] then (this, Done)
      else
        var (p1, s) := ReleaseOne(ids[0]);
        if s.Failure? then (p1, s) else p1.ReleaseBlocks(ids[1..])
    }

    /** The checking loop of `retain_shared`. */
    function CheckSealed(ids: seq<BlockId>): Status {
      if ids == [] then Done
      else if ids[0] >= |blocks| then Failure(UnknownBlock(ids[0]))
      else if !blocks[ids[0]].state.Sealed? then Failure(UnsealedBlock(ids[0]))
      else CheckSealed(ids[1..])
    }

    /** One step of the counting loop of `retain_shared`. */
    function RetainOne(bid: BlockId): Pool {
      if bid >= |blocks| then this
      else
        var p1 := this.(blocks := blocks[bid := blocks[bid].(refCnt := blocks[bid].refCnt + 1)]);
        if bid in free then p1.(free := free - {bid}, used := used + {bid}) else p1
    }

    function RetainAll(ids: seq<BlockId>): Pool
      decreases |ids|
    {
      if ids == [] then this else RetainOne(ids[0]).RetainAll(ids[1..])
    }

    function RetainShared(ids: seq<BlockId>): (Pool, Status) {
      var s := CheckSealed(ids);
      if s.Failure? then (this, s) else (RetainAll(ids), Done)
    }

    function ReuseAndReserve(reused: seq<BlockId>, need: nat, writer: RequestId)
      : (Pool, Result<seq<BlockId>>)
    {
      var (p1, reserved) := Reserve(need, writer);
      if reserved.Err? then (p1, reserved)
      else
        var (p2, s) := p1.RetainShared(reused);
        if s.Failure? then
          var (p3, s3) := p2.ReleaseBlocks(reserved.value);
          (p3, Err(if s3.Failure? then s3.error else s.error))
        else (p2, Ok(reused + reserved.value))
    }
  }

  const Fresh := PhysicalBlock(Writable(None), 0)

  /** The ids `0..n`. */
  function BlockIds(n: nat): (ids: set<BlockId>)
    ensures |ids| == n
    ensures forall b: BlockId :: b in ids <==> 0 <= b < n
  {
    if n == 0 then {} else BlockIds(n - 1) + {n - 1}
  }

  function NewPool(n: nat): Pool {
    Pool(seq(n, _ => Fresh), BlockIds(n), {}, map[])
  }

  // ------------------------------------------------------------- operations

  lemma {:induction false} MinExists(s: set<nat>, a: nat)
    requires a in s
    ensures exists m :: m in s && forall x | x in s :: m <= x
    decreases a
  {
    if b :| b in s && b < a {
      MinExists(s, b);
    }
  }

  function Least(s: set<nat>): (m: nat)
    requires s != {}
    ensures m in s && forall x | x in s :: m <= x
  {
    assert exists m :: m in s && forall x | x in s :: m <= x by {
      var a :| a in s;
      MinExists(s, a);
    }
    var m :| m in s && forall x | x in s :: m <= x;
    m
  }

  /** The `count` smallest elements in ascending order: an ordered set's iteration order. */
  function Smallest(s: set<nat>, count: nat): seq<nat> {
    if count == 0 || s == {} then [] else [Least(s)] + Smallest(s - {Least(s)}, count - 1)
  }

  // -------------------------------------------------------------- invariant

  /** Free and used ids partition the pool, the free ones are exactly those without a
      reference, a writable block in use has one reference and a writer, and the sealed index
      is a bijection with the sealed blocks. */
  ghost predicate PoolWf(p: Pool) {
    && (forall b :: b in p.free ==> b < |p.blocks| && p.blocks[b] == Fresh)
    && (forall b :: b in p.used ==> b < |p.blocks| && b !in p.free)
    && (forall b :: 0 <= b < |p.blocks| ==> b in p.free || BlockInUse(p, b))
    && (forall h :: h in p.sealed ==> IndexEntry(p, h))
  }

  ghost predicate BlockInUse(p: Pool, b: BlockId)
    requires b < |p.blocks|
  {
    && b in p.used
    && p.blocks[b].refCnt > 0
    && match p.blocks[b].state
       case Writable(w) => p.blocks[b].refCnt == 1 && w.Some?
       case Sealed(h) => h in p.sealed && p.sealed[h] == b
  }

  ghost predicate IndexEntry(p: Pool, h: Hash)
    requires h in p.sealed
  {
    p.sealed[h] < |p.blocks| && p.blocks[p.sealed[h]].state == Sealed(h)
  }

  lemma NewPoolWf(n: nat)
    ensures PoolWf(NewPool(n)) && |NewPool(n).free| == n
  {
  }

  lemma {:induction false} SmallestProperties(s: set<nat>, count: nat)
    requires count <= |s|
    ensures var ids := Smallest(s, count);
            && |ids| == count
            && Distinct(ids)
            && (forall b :: b in ids ==> b in s)
            && (forall b, c :: b in ids && c in s && c !in ids ==> b < c)
  {
    if count > 0 {
      assert s != {};
      var m := Least(s);
      SmallestProperties(s - {m}, count - 1);
      var rest := Smallest(s - {m}, count - 1);
      var ids := Smallest(s, count);
      assert ids == [m] + rest;
      assert m !in rest;
      forall i, j | 0 <= i < j < |ids| ensures ids[i] != ids[j] {
        assert ids[j] == rest[j - 1];
        if i > 0 { assert ids[i] == rest[i - 1]; }
      }
    }
  }

  /** What `reserve` does to a well-formed pool: with enough room it never fails, hands out
      the smallest free ids, writable by `writer` alone, and changes nothing else. */
  ghost predicate Reserved(p: Pool, p1: Pool, ids: seq<BlockId>, writer: RequestId) {
    && |p1.blocks| == |p.blocks|
    && p1.free == p.free - Elements(ids)
    && p1.used == p.used + Elements(ids)
    && p1.sealed == p.sealed
    && (forall b :: 0 <= b < |p.blocks| ==>
          p1.blocks[b] == if b in ids then PhysicalBlock(Writable(Some(writer)), 1) else p.blocks[b])
  }

  lemma TakeOneWf(p: Pool, b: BlockId, writer: RequestId)
    requires PoolWf(p) && b in p.free
    ensures var (p1, s) := p.TakeOne(b, writer);
            s == Done && PoolWf(p1) && Reserved(p, p1, [b], writer)
  {
    var p1 := p.TakeOne(b, writer).0;
    assert p1.blocks == p.blocks[b := PhysicalBlock(Writable(Some(writer)), 1)];
    forall c | 0 <= c < |p1.blocks| ensures c in p1.free || BlockInUse(p1, c) {
      assert c in p.free || BlockInUse(p, c);
    }
    forall h | h in p1.sealed ensures IndexEntry(p1, h) {
      assert IndexEntry(p, h);
    }
    assert Elements([b]) == {b};
  }

  lemma {:induction false} TakeAllEffect(p: Pool, ids: seq<BlockId>, writer: RequestId)
    requires PoolWf(p) && Distinct(ids)
    requires forall b :: b in ids ==> b in p.free
    ensures var (p1, s) := p.TakeAll(ids, writer);
            s == Done && PoolWf(p1) && Reserved(p, p1, ids, writer)
    decreases |ids|
  {
    hide Pool.TakeOne, PoolWf;
    if ids == [] {
      assert Elements(ids) == {};
    } else {
      var b := ids[0];
      assert b in ids;
      TakeOneWf(p, b, writer);
      var p1 := p.TakeOne(b, writer).0;
      assert ids == [b] + ids[1..];
      assert Elements([b]) == {b};
      assert Elements(ids) == {b} + Elements(ids[1..]);
      TakeAllEffect(p1, ids[1..], writer);
    }
  }

  lemma ReserveEffect(p: Pool, count: nat, writer: RequestId)
    requires PoolWf(p)
    ensures var (p1, r) := p.Reserve(count, writer);
            && PoolWf(p1)
            && (r.Ok? <==> count <= |p.free|)
            && (r.Err? ==> p1 == p && r.error == InsufficientBlocks(count, |p.free|))
            && (r.Ok? ==>
                  && |r.value| == count && Distinct(r.value)
                  && (forall b :: b in r.value ==> b in p.free)
                  && (forall b, c :: b in r.value && c in p1.free ==> b < c)
                  && Reserved(p, p1, r.value, writer))
  {
    if count <= |p.free| {
      SmallestProperties(p.free, count);
      TakeAllEffect(p, Smallest(p.free, count), writer);
    }
  }

  /** What sealing does: a new digest is published on the block; a known one leaves the pool
      alone and names the block that already holds it. */
  lemma SealBlockEffect(p: Pool, bid: BlockId, hash: Hash)
    requires PoolWf(p) && bid in p.used && p.blocks[bid].state.Writable?
    ensures var (p1, r) := p.SealBlock(bid, hash);
            && PoolWf(p1) && r.Ok?
            && (hash in p.sealed ==> p1 == p && p.sealed[hash] != bid && r.value == Existing(p.sealed[hash]))
            && (hash !in p.sealed ==>
                  && r.value == Published(bid)
                  && p1 == p.(blocks := p.blocks[bid := PhysicalBlock(Sealed(hash), 1)],
                              sealed := p.sealed[hash := bid]))
  {
    assert bid < |p.blocks| && BlockInUse(p, bid);
    var p1 := p.SealBlock(bid, hash).0;
    if hash in p.sealed {
      assert IndexEntry(p, hash);
    } else {
      forall c | 0 <= c < |p1.blocks| ensures c in p1.free || BlockInUse(p1, c) {
        assert c in p.free || BlockInUse(p, c);
      }
      forall h | h in p1.sealed ensures IndexEntry(p1, h) {
        if h != hash { assert IndexEntry(p, h); }
      }
    }
  }

  /** What releasing distinct blocks does: one reference less each; the blocks left without
      one are free, fresh, and gone from the sealed index. */
  ghost predicate Released(p: Pool, p1: Pool, ids: seq<BlockId>) {
    && |p1.blocks| == |p.blocks|
    && (forall b :: 0 <= b < |p.blocks| ==>
          p1.blocks[b] ==
            if b !in ids then p.blocks[b]
            else if p.blocks[b].refCnt <= 1 then Fresh
            else p.blocks[b].(refCnt := p.blocks[b].refCnt - 1))
    && (forall b :: b in p1.free <==> b in p.free || (b in ids && b < |p.blocks| && p.blocks[b].refCnt <= 1))
    && (forall h :: h in p1.sealed <==>
          h in p.sealed && (p.sealed[h] in ids ==> p.sealed[h] < |p.blocks| && p.blocks[p.sealed[h]].refCnt > 1))
    && (forall h :: h in p1.sealed ==> p1.sealed[h] == p.sealed[h])
  }

  lemma ReleaseOneWf(p: Pool, b: BlockId)
    requires PoolWf(p) && b in p.used
    ensures var (p1, s) := p.ReleaseOne(b);
            s == Done && PoolWf(p1) && Released(p, p1, [b])
            && (forall c :: c in p.used && c != b ==> c in p1.used)
  {
    assert b < |p.blocks| && BlockInUse(p, b);
    var p1 := p.ReleaseOne(b).0;
    forall c | 0 <= c < |p1.blocks| ensures c in p1.free || BlockInUse(p1, c) {
      assert c in p.free || BlockInUse(p, c);
    }
    forall h | h in p1.sealed ensures IndexEntry(p1, h) {
      assert IndexEntry(p, h);
    }
    forall h | h in p.sealed ensures IndexEntry(p, h) {}
  }

  lemma {:induction false} ReleaseEffect(p: Pool, ids: seq<BlockId>)
    requires PoolWf(p) && Distinct(ids)
    requires forall b :: b in ids ==> b in p.used
    ensures var (p1, s) := p.ReleaseBlocks(ids);
            s == Done && PoolWf(p1) && Released(p, p1, ids)
    decreases |ids|
  {
    hide Pool.ReleaseOne, PoolWf;
    if ids != [] {
      var b := ids[0];
      assert b in ids;
      ReleaseOneWf(p, b);
      var p1 := p.ReleaseOne(b).0;
      ReleaseEffect(p1, ids[1..]);
      assert ids == [b] + ids[1..];
      assert b !in ids[1..];
    }
  }

  /** What retaining distinct sealed blocks does: one reference more each, nothing else. */
  ghost predicate Retained(p: Pool, p1: Pool, ids: seq<BlockId>) {
    && |p1.blocks| == |p.blocks|
    && p1.free == p.free && p1.used == p.used && p1.sealed == p.sealed
    && (forall b :: 0 <= b < |p.blocks| ==>
          p1.blocks[b] == if b in ids then p.blocks[b].(refCnt := p.blocks[b].refCnt + 1) else p.blocks[b])
  }

  lemma {:induction false} CheckSealedMeans(p: Pool, ids: seq<BlockId>)
    ensures p.CheckSealed(ids) == Done <==>
              forall b :: b in ids ==> b < |p.blocks| && p.blocks[b].state.Sealed?
  {
    if ids != [] {
      CheckSealedMeans(p, ids[1..]);
      assert forall b :: b in ids <==> b == ids[0] || b in ids[1..];
    }
  }

  lemma RetainOneWf(p: Pool, b: BlockId)
    requires PoolWf(p) && b < |p.blocks| && p.blocks[b].state.Sealed?
    ensures PoolWf(p.RetainOne(b)) && Retained(p, p.RetainOne(b), [b])
  {
    assert BlockInUse(p, b);
    var p1 := p.RetainOne(b);
    forall c | 0 <= c < |p1.blocks| ensures c in p1.free || BlockInUse(p1, c) {
      assert c in p.free || BlockInUse(p, c);
    }
    forall h | h in p1.sealed ensures IndexEntry(p1, h) {
      assert IndexEntry(p, h);
    }
  }

  lemma {:induction false} RetainAllEffect(p: Pool, ids: seq<BlockId>)
    requires PoolWf(p) && Distinct(ids)
    requires forall b :: b in ids ==> b < |p.blocks| && p.blocks[b].state.Sealed?
    ensures PoolWf(p.RetainAll(ids)) && Retained(p, p.RetainAll(ids), ids)
    decreases |ids|
  {
    hide Pool.RetainOne, PoolWf;
    if ids != [] {
      var b := ids[0];
      assert b in ids;
      RetainOneWf(p, b);
      var p1 := p.RetainOne(b);
      assert ids == [b] + ids[1..];
      assert b !in ids[1..];
      forall c | c in ids[1..] ensures c < |p1.blocks| && p1.blocks[c].state.Sealed? {
        assert c in ids;
      }
      RetainAllEffect(p1, ids[1..]);
    }
  }

  lemma RetainEffect(p: Pool, ids: seq<BlockId>)
    requires PoolWf(p) && Distinct(ids)
    requires forall b :: b in ids ==> b < |p.blocks| && p.blocks[b].state.Sealed?
    ensures var (p1, s) := p.RetainShared(ids);
            s == Done && PoolWf(p1) && Retained(p, p1, ids)
  {
    CheckSealedMeans(p, ids);
    RetainAllEffect(p, ids);
  }

  lemma ReservedKeepsSealed(p: Pool, mid: Pool, taken: seq<BlockId>, writer: RequestId, reused: seq<BlockId>)
    requires PoolWf(p) && Reserved(p, mid, taken, writer)
    requires forall b :: b in taken ==> b in p.free
    requires forall b :: b in reused ==> b < |p.blocks| && p.blocks[b].state.Sealed?
    ensures forall b :: b in reused ==> b !in taken && mid.blocks[b] == p.blocks[b]
  {
    forall b | b in reused ensures b !in taken && mid.blocks[b] == p.blocks[b] {
      assert p.blocks[b] != Fresh;
    }
  }

  /** `p1` comes from `p` by reserving `taken` for `writer` and then retaining `reused`. */
  ghost predicate ReusedAndReserved(
    p: Pool, p1: Pool, reused: seq<BlockId>, taken: seq<BlockId>, writer: RequestId)
  {
    && |p1.blocks| == |p.blocks|
    && p1.free == p.free - Elements(taken)
    && p1.used == p.used + Elements(taken)
    && p1.sealed == p.sealed
    && (forall b :: b in taken ==> b in p.free)
    && (forall b :: 0 <= b < |p.blocks| ==>
          p1.blocks[b] ==
            if b in taken then PhysicalBlock(Writable(Some(writer)), 1)
            else if b in reused then p.blocks[b].(refCnt := p.blocks[b].refCnt + 1)
            else p.blocks[b])
  }

  lemma ReserveThenRetain(
    p: Pool, mid: Pool, p1: Pool, reused: seq<BlockId>, taken: seq<BlockId>, writer: RequestId)
    requires Reserved(p, mid, taken, writer) && Retained(mid, p1, reused)
    requires forall b :: b in taken ==> b in p.free
    requires forall b :: b in reused ==> b !in taken
    ensures ReusedAndReserved(p, p1, reused, taken, writer)
  {
  }

  /** Reusing and reserving together is all or nothing: without room the pool is unchanged. */
  lemma ReuseAndReserveEffect(p: Pool, reused: seq<BlockId>, need: nat, writer: RequestId)
    requires PoolWf(p) && Distinct(reused)
    requires forall b :: b in reused ==> b < |p.blocks| && p.blocks[b].state.Sealed?
    ensures var (p1, r) := p.ReuseAndReserve(reused, need, writer);
            && PoolWf(p1)
            && (r.Ok? <==> need <= |p.free|)
            && (r.Err? ==> p1 == p && r.error == InsufficientBlocks(need, |p.free|))
            && (r.Ok? ==>
                  && |r.value| == |reused| + need && r.value[..|reused|] == reused && Distinct(r.value)
                  && ReusedAndReserved(p, p1, reused, r.value[|reused|..], writer))
  {
    ReserveEffect(p, need, writer);
    var (mid, reserved) := p.Reserve(need, writer);
    if reserved.Ok? {
      var taken := reserved.value;
      assert forall b :: b in taken ==> b in p.free;
      ReservedKeepsSealed(p, mid, taken, writer, reused);
      assert forall b :: b in reused ==> b < |mid.blocks| && mid.blocks[b].state.Sealed?;
      RetainEffect(mid, reused);
      var p1 := mid.RetainShared(reused).0;
      ReserveThenRetain(p, mid, p1, reused, taken, writer);
      DisjointConcat(reused, taken);
      var all := reused + taken;
      assert all[..|reused|] == reused && all[|reused|..] == taken;
      assert p.ReuseAndReserve(reused, need, writer) == (p1, Ok(all));
    }
  }

  // ----------------------------------------------------------------- object

  class BlockPool {
    var blocks: seq<PhysicalBlock>
    var free: set<BlockId>
    var used: set<BlockId>
    var sealed: map<Hash, BlockId>

    function View(): Pool
      reads this
    {
      Pool(blocks, free, used, sealed)
    }

    constructor (n: nat)
      ensures View() == NewPool(n)
    {
      blocks := seq(n, _ => Fresh);
      free := BlockIds(n);
      used := {};
      sealed := map[];
    }

    constructor Of(snapshot: Pool)
      ensures View() == snapshot
    {
      blocks := snapshot.blocks;
      free := snapshot.free;
      used := snapshot.used;
      sealed := snapshot.sealed;
    }

    method TakeBlock(bid: BlockId, writer: RequestId) returns (s: Status)
      modifies this
      ensures (View(), s) == old(View().TakeOne(bid, writer))
    {
      free := free - {bid};
      used := used + {bid};
      if bid >= |blocks| {
        return Failure(Panicked);
      }
      var block := blocks[bid].(refCnt := blocks[bid].refCnt + 1);
      ghost var before := blocks;
      blocks := blocks[bid := block];
      if block.state.Sealed? {
        return Failure(Panicked);
      }
      blocks := blocks[bid := block.(state := Writable(Some(writer)))];
      assert blocks == before[bid := block.(state := Writable(Some(writer)))];
      return Done;
    }

    method Reserve(count: nat, writer: RequestId) returns (r: Result<seq<BlockId>>)
      modifies this
      ensures (View(), r) == old(View().Reserve(count, writer))
    {
      if count > |free| {
        return Err(InsufficientBlocks(count, |free|));
      }
      var ids := Smallest(free, count);
      ghost var target := View().TakeAll(ids, writer);
      for i := 0 to |ids|
        invariant View().TakeAll(ids[i..], writer) == target
      {
        assert ids[i..][0] == ids[i] && ids[i..][1..] == ids[i + 1..];
        var s := TakeBlock(ids[i], writer);
        if s.Failure? {
          return Err(s.error);
        }
      }
      return Ok(ids);
    }

    method SealBlock(bid: BlockId, hash: Hash) returns (r: Result<SealResult>)
      modifies this
      ensures (View(), r) == old(View().SealBlock(bid, hash))
    {
      if hash in sealed {
        return Ok(if sealed[hash] == bid then Published(bid) else Existing(sealed[hash]));
      }
      if bid >= |blocks| || blocks[bid].state.Sealed? {
        return Err(Panicked);
      }
      blocks := blocks[bid := blocks[bid].(state := Sealed(hash))];
      sealed := sealed[hash := bid];
      return Ok(Published(bid));
    }

    method ReleaseBlock(bid: BlockId) returns (s: Status)
      modifies this
      ensures (View(), s) == old(View().ReleaseOne(bid))
    {
      if bid !in used {
        return Failure(BlockNotInUse(bid));
      }
      if bid >= |blocks| || blocks[bid].refCnt == 0 {
        return Failure(Panicked);
      }
      ghost var before := blocks;
      blocks := blocks[bid := blocks[bid].(refCnt := blocks[bid].refCnt - 1)];
      if blocks[bid].refCnt == 0 {
        if blocks[bid].state.Sealed? {
          sealed := sealed - {blocks[bid].state.hash};
        }
        blocks := blocks[bid := blocks[bid].(state := Writable(None))];
        assert blocks == before[bid := Fresh];
        free := free + {bid};
        used := used - {bid};
      }
      return Done;
    }

    method ReleaseBlocks(ids: seq<BlockId>) returns (s: Status)
      modifies this
      ensures (View(), s) == old(View().ReleaseBlocks(ids))
    {
      ghost var target := View().ReleaseBlocks(ids);
      for i := 0 to |ids|
        invariant View().ReleaseBlocks(ids[i..]) == target
      {
        assert ids[i..][0] == ids[i] && ids[i..][1..] == ids[i + 1..];
        s := ReleaseBlock(ids[i]);
        if s.Failure? {
          return s;
        }
      }
      return Done;
    }

    method RetainShared(ids: seq<BlockId>) returns (s: Status)
      modifies this
      ensures (View(), s) == old(View().RetainShared(ids))
    {
      for i := 0 to |ids|
        invariant View() == old(View())
        invariant View().CheckSealed(ids[i..]) == View().CheckSealed(ids)
      {
        assert ids[i..][0] == ids[i] && ids[i..][1..] == ids[i + 1..];
        if ids[i] >= |blocks| {
          return Failure(UnknownBlock(ids[i]));
        }
        if !blocks[ids[i]].state.Sealed? {
          return Failure(UnsealedBlock(ids[i]));
        }
      }
      ghost var target := View().RetainAll(ids);
      for i := 0 to |ids|
        invariant View().RetainAll(ids[i..]) == target
      {
        assert ids[i..][0] == ids[i] && ids[i..][1..] == ids[i + 1..];
        var id := ids[i];
        if id < |blocks| {
          blocks := blocks[id := blocks[id].(refCnt := blocks[id].refCnt + 1)];
          if id in free {
            free := free - {id};
            used := used + {id};
          }
        }
      }
      return Done;
    }

    method ReuseAndReserve(reused: seq<BlockId>, need: nat, writer: RequestId)
      returns (r: Result<seq<BlockId>>)
      modifies this
      ensures (View(), r) == old(View().ReuseAndReserve(reused, need, writer))
    {
      var reserved := Reserve(need, writer);
      if reserved.Err? {
        return reserved;
      }
      var s := RetainShared(reused);
      if s.Failure? {
        var undone := ReleaseBlocks(reserved.value);
        return Err(if undone.Failure? then undone.error else s.error);
      }
      return Ok(reused + reserved.value);
    }
  }
}
