/** The ring of shared-memory stages that overlaps copies with compute
    (src/einf/executors/torch/dsl/flash_attention.py:327-451).

    The kernel is modelled by the operations it issues.  `Perform` says what each does and when
    it would be a race, whatever the moment at which an asynchronous copy lands. */
module CopyRing {
  import opened Base

  /** A stage: never used; being filled by a copy group; filled as far as the waiting thread
      knows; filled for the whole block; being read; or read by everyone and free again. */
  datatype Slot =
    | Empty
    | InFlight(tile: nat, group: nat)
    | Arrived(tile: nat)
    | Visible(tile: nat)
    | BeingRead(tile: nat)
    | Drained(tile: nat)
  {
    /** Nobody may write it now. */
    predicate Busy() { InFlight? || Arrived? || Visible? || BeingRead? }
  }

  datatype Op =
    | Issue(tile: nat, stage: nat)
    | Commit
    | WaitGroup(pending: nat)
    | SyncThreads
    | Read(stage: nat)

  /** `taken` are the tiles copied to registers so far, `groups` the copy groups committed. */
  datatype Ring = Ring(slots: seq<Slot>, groups: nat, taken: seq<nat>)

  /** Waiting leaves at most the last `pending` groups in flight. */
  function Waited(r: Ring, pending: nat): (r1: Ring)
    ensures |r1.slots| == |r.slots|
  {
    r.(slots := seq(|r.slots|, s requires 0 <= s < |r.slots| =>
      if r.slots[s].InFlight? && r.slots[s].group + pending < r.groups then Arrived(r.slots[s].tile) else r.slots[s]))
  }

  /** A barrier: what arrived is visible to all, and what was read has been read by all. */
  function Synced(r: Ring): (r1: Ring)
    ensures |r1.slots| == |r.slots|
  {
    r.(slots := seq(|r.slots|, s requires 0 <= s < |r.slots| =>
      if r.slots[s].Arrived? then Visible(r.slots[s].tile)
      else if r.slots[s].BeingRead? then Drained(r.slots[s].tile) else r.slots[s]))
  }

  /** One operation, or `None` for a race: copying into a stage that is still in use, or reading
      one whose copy is not known to have landed for everyone. */
  function Perform(r: Ring, op: Op): Option<Ring> {
    match op
    case Issue(tile, stage) =>
      if stage >= |r.slots| || r.slots[stage].Busy() then None
      else Some(r.(slots := r.slots[stage := InFlight(tile, r.groups)]))
    case Commit => Some(r.(groups := r.groups + 1))
    case WaitGroup(pending) => Some(Waited(r, pending))
    case SyncThreads => Some(Synced(r))
    case Read(stage) =>
      if stage >= |r.slots| || !r.slots[stage].Visible? then None
      else Some(r.(slots := r.slots[stage := BeingRead(r.slots[stage].tile)], taken := r.taken + [r.slots[stage].tile]))
  }

  function PerformAll(r: Ring, ops: seq<Op>): Option<Ring>
    decreases |ops|
  {
    if ops == [] then Some(r)
    else
      var front := PerformAll(r, ops[..|ops| - 1]);
      if front.None? then None else Perform(front.value, ops[|ops| - 1])
  }

  function NewRing(stages: nat): Ring { Ring(seq(stages, _ => Empty), 0, []) }

  lemma PerformNext(r: Ring, ops: seq<Op>, op: Op)
    ensures PerformAll(r, ops + [op]) ==
              if PerformAll(r, ops).None? then None else Perform(PerformAll(r, ops).value, op)
  {
    assert (ops + [op])[..|ops|] == ops;
  }

  function UpTo(n: nat): seq<nat> { seq(n, i => i) }

  /** Between iterations: tiles from `kv` to `next` occupy their stages, nothing else is busy,
      and everything before `kv` has been read, in order. */
  ghost predicate RingOk(r: Ring, stages: Positive, kv: nat, next: nat) {
    && |r.slots| == stages && kv <= next && r.groups == next && r.taken == UpTo(kv)
    && (forall t :: kv <= t < next ==> r.slots[t % stages] == InFlight(t, t) || r.slots[t % stages] == Visible(t))
    && (forall s :: 0 <= s < stages && r.slots[s].Busy() ==> kv <= r.slots[s].tile < next && r.slots[s].tile % stages == s)
  }

  lemma ModDistinct(a: nat, b: nat, n: Positive)
    requires a < b < a + n
    ensures a % n != b % n
  {
    DivModJoin(a, n);
    DivModJoin(b, n);
    WithinOne(a, b, a / n, b / n, a % n, n);
  }

  lemma WithinOne(a: nat, b: nat, qa: nat, qb: nat, m: nat, n: nat)
    requires a == Span(qa, n) + m && a < b < a + n
    ensures b != Span(qb, n) + m
  {
    if qa < qb { SpanMono(qa + 1, qb, n); } else { SpanMono(qb, qa, n); }
  }

  lemma NextStage(t: nat, n: Positive)
    ensures (t % n + 1) % n == (t + 1) % n
  {
    DivModJoin(t, n);
    NextStageOf(t, t / n, t % n, n);
  }

  lemma NextStageOf(t: nat, q: nat, m: nat, n: Positive)
    requires t == Span(q, n) + m && m < n
    ensures (m + 1) % n == (t + 1) % n
  {
    if m + 1 < n {
      DivModSplit(q, m + 1, n);
      DivModSplit(0, m + 1, n);
    } else {
      DivModSplit(q + 1, 0, n);
      DivModSplit(1, 0, n);
    }
  }

  /** Issuing the next tile into the next stage, which is free when fewer tiles are ahead than
      there are stages. */
  lemma IssueNext(r: Ring, stages: Positive, kv: nat, next: nat)
    requires RingOk(r, stages, kv, next) && next - kv < stages
    ensures var r1 := Perform(r, Issue(next, next % stages));
            r1.Some? && var r2 := Perform(r1.value, Commit); r2.Some? && RingOk(r2.value, stages, kv, next + 1)
  {
    var w := next % stages;
    if r.slots[w].Busy() {
      ModDistinct(r.slots[w].tile, next, stages);
      assert false;
    }
    forall t | kv <= t < next ensures t % stages != w { ModDistinct(t, next, stages); }
  }

  /** The front tile is visible after a wait that leaves only later groups in flight. */
  lemma WaitAndSync(r: Ring, stages: Positive, kv: nat, next: nat, pending: nat)
    requires RingOk(r, stages, kv, next) && kv < next && kv + pending < next
    ensures var r1 := Synced(Waited(r, pending));
            RingOk(r1, stages, kv, next) && r1.slots[kv % stages] == Visible(kv)
  {
  }

  /** Copying the front tile to registers frees its stage at the next barrier. */
  lemma ReadAndSync(r: Ring, stages: Positive, kv: nat, next: nat)
    requires RingOk(r, stages, kv, next) && kv < next <= kv + stages && r.slots[kv % stages] == Visible(kv)
    ensures var r1 := Perform(r, Read(kv % stages));
            r1.Some? && RingOk(Synced(r1.value), stages, kv + 1, next)
  {
    var r1 := Perform(r, Read(kv % stages)).value;
    assert UpTo(kv) + [kv] == UpTo(kv + 1);
    forall t | kv < t < next ensures t % stages != kv % stages { ModDistinct(kv, t, stages); }
    var r2 := Synced(r1);
    forall s | 0 <= s < stages && r2.slots[s].Busy()
      ensures kv + 1 <= r2.slots[s].tile < next && r2.slots[s].tile % stages == s
    {
      assert r.slots[s].Busy();
      if s != kv % stages && r.slots[s].tile == kv { assert false; }
    }
  }

  /** The loads and waits of the kernel's KV loop, as it issues them. */
  method KvLoop(numTiles: nat, stages: Positive) returns (ops: seq<Op>)
    ensures PerformAll(NewRing(stages), ops).Some? && PerformAll(NewRing(stages), ops).value.taken == UpTo(numTiles)
  {
    hide Perform, RingOk;
    ops := [];
    ghost var ring := NewRing(stages);
    StartRing(stages);
    var writeStage, readStage, kvNext := 0, 0, 0;
    var prefetchSlots := if stages == 1 then 1 else stages - 1;
    var steadyWaitGroups := if stages == 1 then 0 else stages - 2;
    for kv := 0 to Min(numTiles, prefetchSlots)
      invariant kvNext == kv && writeStage == kvNext % stages
      invariant PerformAll(NewRing(stages), ops) == Some(ring) && RingOk(ring, stages, 0, kvNext)
    {
      SmallMod(kv, stages);
      ops, ring := IssueAndCommit(ops, ring, stages, 0, kvNext, kv);
      NextStage(kvNext, stages);
      kvNext := kvNext + 1;
      writeStage := (writeStage + 1) % stages;
    }
    for kv := 0 to numTiles
      invariant kvNext == Min(numTiles, kv + prefetchSlots)
      invariant writeStage == kvNext % stages && readStage == kv % stages
      invariant PerformAll(NewRing(stages), ops) == Some(ring) && RingOk(ring, stages, kv, kvNext)
    {
      var hasNextToIssue := kvNext < numTiles;
      ops, ring := WaitAndRead(ops, ring, stages, kv, kvNext, if hasNextToIssue then steadyWaitGroups else 0, readStage);
      if hasNextToIssue {
        ops, ring := IssueAndCommit(ops, ring, stages, kv + 1, kvNext, writeStage);
        NextStage(kvNext, stages);
        kvNext := kvNext + 1;
        writeStage := (writeStage + 1) % stages;
      }
      NextStage(kv, stages);
      readStage := (readStage + 1) % stages;
    }
    RingReads(ring, stages, numTiles);
  }

  lemma SmallMod(k: nat, n: Positive)
    ensures k < n ==> k % n == k
  {
  }

  lemma StartRing(stages: Positive)
    ensures RingOk(NewRing(stages), stages, 0, 0)
  {
    assert UpTo(0) == [];
  }

  lemma RingReads(r: Ring, stages: Positive, n: nat)
    requires RingOk(r, stages, n, n)
    ensures r.taken == UpTo(n)
  {
  }

  method IssueAndCommit(before: seq<Op>, ghost ring0: Ring, stages: Positive, ghost kv: nat, next: nat, stage: nat)
    returns (ops: seq<Op>, ghost ring: Ring)
    requires PerformAll(NewRing(stages), before) == Some(ring0) && RingOk(ring0, stages, kv, next)
    requires next - kv < stages && stage == next % stages
    ensures PerformAll(NewRing(stages), ops) == Some(ring) && RingOk(ring, stages, kv, next + 1)
  {
    hide RingOk, PerformAll;
    IssueNext(ring0, stages, kv, next);
    PerformNext(NewRing(stages), before, Issue(next, stage));
    ops := before + [Issue(next, stage)];
    PerformNext(NewRing(stages), ops, Commit);
    ops := ops + [Commit];
    ring := Perform(Perform(ring0, Issue(next, stage)).value, Commit).value;
  }

  method WaitAndRead(before: seq<Op>, ghost ring0: Ring, stages: Positive, kv: nat, ghost next: nat, pending: nat, stage: nat)
    returns (ops: seq<Op>, ghost ring: Ring)
    requires PerformAll(NewRing(stages), before) == Some(ring0) && RingOk(ring0, stages, kv, next)
    requires kv < next <= kv + stages && kv + pending < next && stage == kv % stages
    ensures PerformAll(NewRing(stages), ops) == Some(ring) && RingOk(ring, stages, kv + 1, next)
  {
    hide RingOk, PerformAll;
    WaitAndSync(ring0, stages, kv, next, pending);
    ring := Synced(Waited(ring0, pending));
    ReadAndSync(ring, stages, kv, next);
    PerformNext(NewRing(stages), before, WaitGroup(pending));
    ops := before + [WaitGroup(pending)];
    PerformNext(NewRing(stages), ops, SyncThreads);
    ops := ops + [SyncThreads];
    PerformNext(NewRing(stages), ops, Read(stage));
    ops := ops + [Read(stage)];
    PerformNext(NewRing(stages), ops, SyncThreads);
    ops := ops + [SyncThreads];
    ring := Synced(Perform(ring, Read(stage)).value);
  }
}
