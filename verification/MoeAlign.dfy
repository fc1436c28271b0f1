/** Sorting routed (token, slot) pairs by expert and padding every expert's run to whole blocks
    (src/einf/executors/torch/triton_moe.py:44-95). */
module MoeAlignment {
  import opened Base

  /** The pairs below `n` that go to expert `e`, in order. */
  function PairsOf(flat: seq<nat>, e: nat, n: nat): (s: seq<nat>)
    requires n <= |flat|
    ensures forall i :: 0 <= i < |s| ==> s[i] < n && flat[s[i]] == e
    decreases n
  {
    if n == 0 then [] else PairsOf(flat, e, n - 1) + (if flat[n - 1] == e then [n - 1] else [])
  }

  function Count(flat: seq<nat>, e: nat): nat { |PairsOf(flat, e, |flat|)| }

  function Blocks(flat: seq<nat>, e: nat, bm: Positive): nat { CeilDiv(Count(flat, e), bm) }

  /** The rows of an expert's run: its pairs, padded to whole blocks. */
  function RunLen(flat: seq<nat>, e: nat, bm: Positive): nat { Span(Blocks(flat, e, bm), bm) }

  /** What comes before expert `e`: pairs, blocks and rows. */
  function PairsBefore(flat: seq<nat>, e: nat): nat {
    if e == 0 then 0 else PairsBefore(flat, e - 1) + Count(flat, e - 1)
  }

  function BlocksBefore(flat: seq<nat>, e: nat, bm: Positive): nat {
    if e == 0 then 0 else BlocksBefore(flat, e - 1, bm) + Blocks(flat, e - 1, bm)
  }

  function RowsBefore(flat: seq<nat>, e: nat, bm: Positive): nat {
    if e == 0 then 0 else RowsBefore(flat, e - 1, bm) + RunLen(flat, e - 1, bm)
  }

  lemma {:induction false} RowsAreBlocks(flat: seq<nat>, e: nat, bm: Positive)
    ensures RowsBefore(flat, e, bm) == Span(BlocksBefore(flat, e, bm), bm)
  {
    hide Blocks;
    if e > 0 {
      RowsAreBlocks(flat, e - 1, bm);
      SpanSum(BlocksBefore(flat, e - 1, bm), Blocks(flat, e - 1, bm), bm);
    }
  }

  lemma PairsFit(flat: seq<nat>, e: nat, bm: Positive)
    ensures Count(flat, e) <= RunLen(flat, e, bm)
  {
    CeilDivBounds(Count(flat, e), bm);
  }

  /** The stable sort of the pairs by expert: `argsort(flat, stable=True)`. */
  function StableOrder(flat: seq<nat>, e: nat): (s: seq<nat>)
    ensures |s| == PairsBefore(flat, e)
    decreases e
  {
    if e == 0 then [] else StableOrder(flat, e - 1) + PairsOf(flat, e - 1, |flat|)
  }

  lemma {:induction false} PairsOfMeans(flat: seq<nat>, e: nat, n: nat)
    requires n <= |flat|
    ensures forall p: nat :: p in PairsOf(flat, e, n) <==> p < n && flat[p] == e
    ensures forall i, j :: 0 <= i < j < |PairsOf(flat, e, n)| ==> PairsOf(flat, e, n)[i] < PairsOf(flat, e, n)[j]
  {
    if n > 0 { PairsOfMeans(flat, e, n - 1); }
  }

  /** `a` comes before `b` in a stable sort by expert. */
  predicate SortsBefore(flat: seq<nat>, a: nat, b: nat) {
    a < |flat| && b < |flat| && (flat[a] < flat[b] || (flat[a] == flat[b] && a < b))
  }

  lemma OrderPairs(flat: seq<nat>, e: nat, front: seq<nat>, last: seq<nat>, i: nat, j: nat)
    requires i < j < |front| + |last|
    requires forall p: nat :: p in front ==> p < |flat| && flat[p] < e
    requires forall p: nat :: p in last ==> p < |flat| && flat[p] == e
    requires forall a, b :: 0 <= a < b < |front| ==> SortsBefore(flat, front[a], front[b])
    requires forall a, b :: 0 <= a < b < |last| ==> last[a] < last[b]
    ensures SortsBefore(flat, (front + last)[i], (front + last)[j])
  {
    if j < |front| {
      assert SortsBefore(flat, front[i], front[j]);
    } else {
      assert last[j - |front|] in last;
      if i < |front| { assert front[i] in front; } else { assert last[i - |front|] in last; }
    }
  }

  /** It is the stable sort: every pair once, by expert, and by index within an expert. */
  lemma {:induction false} StableOrderSorts(flat: seq<nat>, e: nat)
    ensures forall p: nat :: p in StableOrder(flat, e) <==> p < |flat| && flat[p] < e
    ensures forall i, j :: 0 <= i < j < |StableOrder(flat, e)| ==>
              SortsBefore(flat, StableOrder(flat, e)[i], StableOrder(flat, e)[j])
  {
    hide SortsBefore, PairsOf;
    if e > 0 {
      StableOrderSorts(flat, e - 1);
      PairsOfMeans(flat, e - 1, |flat|);
      var front, last := StableOrder(flat, e - 1), PairsOf(flat, e - 1, |flat|);
      var s := StableOrder(flat, e);
      assert s == front + last;
      assert forall p: nat :: p in s <==> p in front || p in last;
      forall i, j | 0 <= i < j < |s| ensures SortsBefore(flat, s[i], s[j]) {
        OrderPairs(flat, e - 1, front, last, i, j);
      }
    }
  }

  /** Rows of the grouped GEMMs: each expert's pairs, then sentinels up to whole blocks. */
  function Run(flat: seq<nat>, e: nat, bm: Positive): (s: seq<int>)
    ensures |s| == RunLen(flat, e, bm)
  {
    var pairs, n := PairsOf(flat, e, |flat|), RunLen(flat, e, bm);
    seq(n, i requires 0 <= i < n => if i < |pairs| then pairs[i] as int else -1)
  }

  function Runs(flat: seq<nat>, e: nat, bm: Positive): (s: seq<int>)
    ensures |s| == RowsBefore(flat, e, bm)
    decreases e
  {
    if e == 0 then [] else Runs(flat, e - 1, bm) + Run(flat, e - 1, bm)
  }

  /** The expert of every block. */
  function BlockExperts(flat: seq<nat>, e: nat, bm: Positive): (s: seq<nat>)
    ensures |s| == BlocksBefore(flat, e, bm)
    decreases e
  {
    if e == 0 then [] else BlockExperts(flat, e - 1, bm) + seq(Blocks(flat, e - 1, bm), _ => e - 1)
  }

  // -------------------------------------------------------------- what it means

  lemma {:induction false} BeforeMono(flat: seq<nat>, a: nat, b: nat, bm: Positive)
    requires a <= b
    ensures PairsBefore(flat, a) <= PairsBefore(flat, b) && RowsBefore(flat, a, bm) <= RowsBefore(flat, b, bm)
    decreases b
  {
    hide RunLen;
    if a < b { BeforeMono(flat, a, b - 1, bm); }
  }

  /** Row `i` of expert `e`'s run. */
  lemma {:induction false} RunsAt(flat: seq<nat>, experts: nat, e: nat, bm: Positive, i: nat)
    requires e < experts && i < RunLen(flat, e, bm)
    ensures RowsBefore(flat, e, bm) + i < |Runs(flat, experts, bm)|
    ensures Runs(flat, experts, bm)[RowsBefore(flat, e, bm) + i]
         == if i < Count(flat, e) then PairsOf(flat, e, |flat|)[i] else -1
    decreases experts
  {
    hide RunLen, RowsBefore, Run, Runs, Count, PairsOf;
    RunsSplit(flat, experts, bm);
    if e < experts - 1 { RunsAt(flat, experts - 1, e, bm, i); } else { RunAt(flat, e, bm, i); }
  }

  lemma RunsSplit(flat: seq<nat>, experts: nat, bm: Positive)
    requires experts > 0
    ensures Runs(flat, experts, bm) == Runs(flat, experts - 1, bm) + Run(flat, experts - 1, bm)
  {
  }

  lemma RunAt(flat: seq<nat>, e: nat, bm: Positive, i: nat)
    requires i < RunLen(flat, e, bm)
    ensures Run(flat, e, bm)[i] == if i < Count(flat, e) then PairsOf(flat, e, |flat|)[i] else -1
  {
    hide RunLen;
  }

  lemma {:induction false} BlockExpertAt(flat: seq<nat>, experts: nat, e: nat, bm: Positive, b: nat)
    requires e < experts && b < Blocks(flat, e, bm)
    ensures BlocksBefore(flat, e, bm) + b < |BlockExperts(flat, experts, bm)|
    ensures BlockExperts(flat, experts, bm)[BlocksBefore(flat, e, bm) + b] == e
    decreases experts
  {
    hide Blocks;
    if e < experts - 1 { BlockExpertAt(flat, experts - 1, e, bm, b); }
  }

  /** Every row lies in some expert's run. */
  lemma {:induction false} Locate(flat: seq<nat>, experts: nat, bm: Positive, r: nat) returns (e: nat, i: nat)
    requires r < RowsBefore(flat, experts, bm)
    ensures e < experts && i < RunLen(flat, e, bm) && r == RowsBefore(flat, e, bm) + i
    decreases experts
  {
    hide RunLen;
    var last := experts - 1;
    if r >= RowsBefore(flat, last, bm) {
      e, i := last, r - RowsBefore(flat, last, bm);
    } else {
      e, i := Locate(flat, last, bm, r);
    }
  }

  /** The block of a row. */
  function BlockOf(r: nat, bm: Positive): nat { r / bm }

  lemma BlockOfRow(flat: seq<nat>, e: nat, bm: Positive, i: nat)
    requires i < RunLen(flat, e, bm)
    ensures (RowsBefore(flat, e, bm) + i) / bm == BlocksBefore(flat, e, bm) + i / bm && i / bm < Blocks(flat, e, bm)
  {
    hide Blocks, BlocksBefore, RowsBefore;
    RowsAreBlocks(flat, e, bm);
    DivModJoin(i, bm);
    InRun(BlocksBefore(flat, e, bm), i / bm, i % bm, bm);
    if i / bm >= Blocks(flat, e, bm) { SpanMono(Blocks(flat, e, bm), i / bm, bm); }
  }

  lemma InRun(blocks: nat, q: nat, m: nat, bm: Positive)
    requires m < bm
    ensures (Span(blocks, bm) + (Span(q, bm) + m)) / bm == blocks + q
  {
    SpanSum(blocks, q, bm);
    QuotientIs(Span(blocks + q, bm) + m, bm, blocks + q);
  }

  /** Every block holds the pairs of a single expert, the one recorded for it. */
  lemma BlocksAreSingleExpert(flat: seq<nat>, experts: nat, bm: Positive, r: nat)
    requires r < |Runs(flat, experts, bm)|
    ensures BlockOf(r, bm) < |BlockExperts(flat, experts, bm)|
    ensures var p := Runs(flat, experts, bm)[r];
            p == -1 || (0 <= p < |flat| && flat[p] == BlockExperts(flat, experts, bm)[BlockOf(r, bm)])
  {
    hide RunLen, Blocks, Runs, BlockExperts, RowsBefore, BlocksBefore;
    var e, i := Locate(flat, experts, bm, r);
    RunsAt(flat, experts, e, bm, i);
    BlockOfRow(flat, e, bm, i);
    BlockExpertAt(flat, experts, e, bm, i / bm);
  }

  function Valid(rows: seq<int>): seq<nat> {
    if rows == [] then [] else Valid(rows[..|rows| - 1]) + (if rows[|rows| - 1] >= 0 then [rows[|rows| - 1]] else [])
  }

  lemma {:induction false} ValidConcat(a: seq<int>, b: seq<int>)
    ensures Valid(a + b) == Valid(a) + Valid(b)
  {
    if b == [] {
      assert a + b == a;
    } else {
      assert (a + b)[..|a + b| - 1] == a + b[..|b| - 1];
      ValidConcat(a, b[..|b| - 1]);
    }
  }

  lemma {:induction false} ValidPadded(pairs: seq<nat>, rows: seq<int>)
    requires |pairs| <= |rows|
    requires forall i :: 0 <= i < |rows| ==> rows[i] == if i < |pairs| then pairs[i] else -1
    ensures Valid(rows) == pairs
  {
    if rows != [] {
      var front := rows[..|rows| - 1];
      if |pairs| == |rows| {
        ValidPadded(pairs[..|pairs| - 1], front);
      } else {
        ValidPadded(pairs, front);
      }
    }
  }

  lemma ValidRun(flat: seq<nat>, e: nat, bm: Positive)
    ensures Valid(Run(flat, e, bm)) == PairsOf(flat, e, |flat|)
  {
    hide RunLen, Valid, PairsOf;
    PairsFit(flat, e, bm);
    ValidPadded(PairsOf(flat, e, |flat|), Run(flat, e, bm));
  }

  /** Every pair is placed exactly once, and the rows visit the pairs in the stable order. */
  lemma {:induction false} RunsVisitAll(flat: seq<nat>, experts: nat, bm: Positive)
    ensures Valid(Runs(flat, experts, bm)) == StableOrder(flat, experts)
  {
    hide RunLen, Run, Valid, PairsOf;
    if experts > 0 {
      var e := experts - 1;
      RunsVisitAll(flat, e, bm);
      ValidConcat(Runs(flat, e, bm), Run(flat, e, bm));
      ValidRun(flat, e, bm);
    } else {
      ValidPadded([], []);
    }
  }

  /** The pairs of the first `e` experts are at most all. */
  lemma {:induction false} CountsUpTo(flat: seq<nat>, e: nat, n: nat)
    requires n <= |flat|
    ensures PairsBeforeIn(flat, e, n) <= n
    ensures (forall p :: 0 <= p < n ==> flat[p] < e) ==> PairsBeforeIn(flat, e, n) == n
  {
    hide PairsBeforeIn, PairsOf;
    if n == 0 {
      NoneBefore(flat, e);
    } else {
      CountsUpTo(flat, e, n - 1);
      OneMoreBefore(flat, e, n);
    }
  }

  function PairsBeforeIn(flat: seq<nat>, e: nat, n: nat): nat
    requires n <= |flat|
  {
    if e == 0 then 0 else PairsBeforeIn(flat, e - 1, n) + |PairsOf(flat, e - 1, n)|
  }

  lemma {:induction false} NoneBefore(flat: seq<nat>, e: nat)
    ensures PairsBeforeIn(flat, e, 0) == 0
  {
    if e > 0 { NoneBefore(flat, e - 1); }
  }

  lemma {:induction false} OneMoreBefore(flat: seq<nat>, e: nat, n: nat)
    requires 0 < n <= |flat|
    ensures PairsBeforeIn(flat, e, n) == PairsBeforeIn(flat, e, n - 1) + (if flat[n - 1] < e then 1 else 0)
  {
    if e > 0 { OneMoreBefore(flat, e - 1, n); }
  }

  lemma {:induction false} PairsBeforeIs(flat: seq<nat>, e: nat)
    ensures PairsBefore(flat, e) == PairsBeforeIn(flat, e, |flat|)
  {
    if e > 0 { PairsBeforeIs(flat, e - 1); }
  }

  lemma RunLenBound(flat: seq<nat>, e: nat, bm: Positive)
    ensures RunLen(flat, e, bm) <= Count(flat, e) + bm
  {
    var c := Count(flat, e);
    CeilDivBounds(c, bm);
    if c == 0 { QuotientIs(bm - 1, bm, 0); }
  }

  lemma {:induction false} RowsNeeded(flat: seq<nat>, e: nat, bm: Positive)
    ensures RowsBefore(flat, e, bm) <= PairsBefore(flat, e) + Span(e, bm)
  {
    hide RunLen;
    if e > 0 {
      RowsNeeded(flat, e - 1, bm);
      RunLenBound(flat, e - 1, bm);
    }
  }

  /** The grid is large enough: padding wastes less than a block per expert. */
  lemma PaddedLengthBound(flat: seq<nat>, experts: nat, bm: Positive)
    ensures |Runs(flat, experts, bm)| <= Span(CeilDiv(|flat|, bm) + experts, bm)
  {
    hide CeilDiv, Span, RowsBefore, PairsBefore, PairsBeforeIn, Runs;
    RowsNeeded(flat, experts, bm);
    PairsBeforeIs(flat, experts);
    CountsUpTo(flat, experts, |flat|);
    assert Span(CeilDiv(|flat|, bm), bm) >= |flat| by { CeilDivBounds(|flat|, bm); }
    SpanSum(CeilDiv(|flat|, bm), experts, bm);
  }

  // ----------------------------------------------------------------- the program

  lemma OrderSplits(flat: seq<nat>, experts: nat)
    ensures experts == 0 ==> StableOrder(flat, experts) == []
    ensures experts > 0 ==>
              && StableOrder(flat, experts) == StableOrder(flat, experts - 1) + PairsOf(flat, experts - 1, |flat|)
              && Count(flat, experts - 1) == |PairsOf(flat, experts - 1, |flat|)|
  {
  }

  /** Place `j` of the stable order, and its row: the expert's first row plus the rank within
      the expert. */
  lemma {:induction false} OrderAt(flat: seq<nat>, experts: nat, j: nat) returns (e: nat)
    requires j < |StableOrder(flat, experts)|
    ensures e < experts && PairsBefore(flat, e) <= j < PairsBefore(flat, e) + Count(flat, e)
    ensures StableOrder(flat, experts)[j] == PairsOf(flat, e, |flat|)[j - PairsBefore(flat, e)]
    ensures StableOrder(flat, experts)[j] < |flat| && flat[StableOrder(flat, experts)[j]] == e
    decreases experts
  {
    hide StableOrder, PairsBefore, PairsOf, Count;
    OrderSplits(flat, experts);
    var last := experts - 1;
    if j >= |StableOrder(flat, last)| { e := last; } else { e := OrderAt(flat, last, j); }
  }

  /** `bincount`. */
  method BinCount(flat: seq<nat>, experts: nat) returns (counts: seq<nat>)
    requires forall p :: 0 <= p < |flat| ==> flat[p] < experts
    ensures |counts| == experts && forall e :: 0 <= e < experts ==> counts[e] == Count(flat, e)
  {
    counts := seq(experts, _ => 0);
    for p := 0 to |flat|
      invariant |counts| == experts && forall e :: 0 <= e < experts ==> counts[e] == |PairsOf(flat, e, p)|
    {
      counts := counts[flat[p] := counts[flat[p]] + 1];
    }
  }

  /** A count, rounded up to whole blocks. */
  function PaddedCount(count: nat, bm: Positive): nat { CeilDiv(count, bm) * bm }

  lemma PaddedIsRun(flat: seq<nat>, e: nat, bm: Positive)
    ensures PaddedCount(Count(flat, e), bm) == RunLen(flat, e, bm)
  {
    SpanIsProduct(CeilDiv(Count(flat, e), bm), bm);
  }

  /** Align, from counts, cumulative sums and one scatter. */
  method AlignBlockSize(flat: seq<nat>, bm: Positive, experts: nat)
    returns (sortedIds: seq<int>, expertIds: seq<nat>, totalPadded: nat)
    requires forall p :: 0 <= p < |flat| ==> flat[p] < experts
    ensures sortedIds == Runs(flat, experts, bm) && expertIds == BlockExperts(flat, experts, bm)
    ensures totalPadded == |sortedIds|
  {
    hide CeilDiv, Count, RunLen, PaddedCount;
    var counts := BinCount(flat, experts);
    var exclusiveCounts, exclusivePadded := [], [];
    var pairs, rows := 0, 0;
    expertIds := [];
    for e := 0 to experts
      invariant pairs == PairsBefore(flat, e) && rows == RowsBefore(flat, e, bm)
      invariant |exclusiveCounts| == e && forall d :: 0 <= d < e ==> exclusiveCounts[d] == PairsBefore(flat, d)
      invariant |exclusivePadded| == e && forall d :: 0 <= d < e ==> exclusivePadded[d] == RowsBefore(flat, d, bm)
      invariant expertIds == BlockExperts(flat, e, bm)
    {
      var blocks, padded := CeilDiv(counts[e], bm), PaddedCount(counts[e], bm);
      PaddedIsRun(flat, e, bm);
      exclusiveCounts, exclusivePadded := exclusiveCounts + [pairs], exclusivePadded + [rows];
      pairs, rows := pairs + counts[e], rows + padded;
      expertIds := expertIds + seq(blocks, _ => e);
    }
    totalPadded := rows;
    sortedIds := Scatter(flat, bm, experts, exclusiveCounts, exclusivePadded, totalPadded);
  }

  /** The rows written once the first `j` pairs of the order are placed. */
  ghost predicate PlacedUpTo(flat: seq<nat>, bm: Positive, experts: nat, rows: seq<int>, j: nat) {
    && |rows| == RowsBefore(flat, experts, bm)
    && forall e, i :: 0 <= e < experts && 0 <= i < RunLen(flat, e, bm) ==> RowPlaced(flat, bm, rows, j, e, i)
  }

  ghost predicate RowPlaced(flat: seq<nat>, bm: Positive, rows: seq<int>, j: nat, e: nat, i: nat) {
    var r := RowsBefore(flat, e, bm) + i;
    r < |rows| && rows[r] == if i < Count(flat, e) && PairsBefore(flat, e) + i < j then PairsOf(flat, e, |flat|)[i] else -1
  }

  method Scatter(flat: seq<nat>, bm: Positive, experts: nat, exclusiveCounts: seq<nat>, exclusivePadded: seq<nat>, total: nat)
    returns (sortedIds: seq<int>)
    requires forall p :: 0 <= p < |flat| ==> flat[p] < experts
    requires |exclusiveCounts| == experts && forall e :: 0 <= e < experts ==> exclusiveCounts[e] == PairsBefore(flat, e)
    requires |exclusivePadded| == experts
    requires forall e :: 0 <= e < experts ==> exclusivePadded[e] == RowsBefore(flat, e, bm)
    requires total == RowsBefore(flat, experts, bm)
    ensures sortedIds == Runs(flat, experts, bm)
  {
    hide PlacedUpTo, RowPlaced, StableOrder, Runs, RunLen, RowsBefore, PairsBefore;
    var order := StableOrder(flat, experts);
    sortedIds := seq(total, _ => -1);
    NothingPlaced(flat, bm, experts, sortedIds);
    for j := 0 to |order|
      invariant |sortedIds| == total && PlacedUpTo(flat, bm, experts, sortedIds, j)
    {
      ghost var e0 := OrderAt(flat, experts, j);
      var e := flat[order[j]];
      PlaceInRange(flat, bm, experts, e, j - PairsBefore(flat, e));
      var pos := exclusivePadded[e] + (j - exclusiveCounts[e]);
      PlaceNext(flat, bm, experts, sortedIds, j, e);
      sortedIds := sortedIds[pos := order[j]];
    }
    AllPlaced(flat, bm, experts, sortedIds);
  }

  lemma NothingPlaced(flat: seq<nat>, bm: Positive, experts: nat, rows: seq<int>)
    requires rows == seq(RowsBefore(flat, experts, bm), _ => -1)
    ensures PlacedUpTo(flat, bm, experts, rows, 0)
  {
    hide RunLen, RowsBefore, PairsBefore, Runs;
    forall e, i | 0 <= e < experts && 0 <= i < RunLen(flat, e, bm) ensures RowPlaced(flat, bm, rows, 0, e, i) {
      RunsAt(flat, experts, e, bm, i);
    }
  }

  lemma PlaceInRange(flat: seq<nat>, bm: Positive, experts: nat, e: nat, i: nat)
    requires e < experts && i < Count(flat, e)
    ensures i < RunLen(flat, e, bm) && RowsBefore(flat, e, bm) + i < RowsBefore(flat, experts, bm)
  {
    hide RunLen, Runs, RowsBefore;
    PairsFit(flat, e, bm);
    RunsAt(flat, experts, e, bm, i);
  }

  /** Different rows of the runs are different positions. */
  lemma RunsDisjoint(flat: seq<nat>, bm: Positive, e: nat, i: nat, d: nat, k: nat)
    requires i < RunLen(flat, e, bm) && k < RunLen(flat, d, bm)
    requires RowsBefore(flat, e, bm) + i == RowsBefore(flat, d, bm) + k
    ensures e == d && i == k
  {
    hide RunLen, RowsBefore;
    if e < d { RunEnds(flat, bm, e, d); }
    if d < e { RunEnds(flat, bm, d, e); }
  }

  lemma RunEnds(flat: seq<nat>, bm: Positive, e: nat, d: nat)
    requires e < d
    ensures RowsBefore(flat, e, bm) + RunLen(flat, e, bm) <= RowsBefore(flat, d, bm)
    ensures PairsBefore(flat, e) + Count(flat, e) <= PairsBefore(flat, d)
  {
    hide RunLen, Count;
    BeforeMono(flat, e + 1, d, bm);
  }

  lemma PlaceNext(flat: seq<nat>, bm: Positive, experts: nat, rows: seq<int>, j: nat, e: nat)
    requires PlacedUpTo(flat, bm, experts, rows, j) && e < experts
    requires PairsBefore(flat, e) <= j < PairsBefore(flat, e) + Count(flat, e)
    ensures var i := j - PairsBefore(flat, e);
            var pos := RowsBefore(flat, e, bm) + i;
            pos < |rows| && PlacedUpTo(flat, bm, experts, rows[pos := PairsOf(flat, e, |flat|)[i]], j + 1)
  {
    hide RunLen, RowsBefore, PairsBefore, RowPlaced;
    var i := j - PairsBefore(flat, e);
    PlaceInRange(flat, bm, experts, e, i);
    var pos := RowsBefore(flat, e, bm) + i;
    var rows1 := rows[pos := PairsOf(flat, e, |flat|)[i]];
    var next := j + 1;
    forall d, k | 0 <= d < experts && 0 <= k < RunLen(flat, d, bm) ensures RowPlaced(flat, bm, rows1, next, d, k) {
      OtherPlaced(flat, bm, experts, rows, j, e, d, k);
    }
  }

  lemma OtherPlaced(flat: seq<nat>, bm: Positive, experts: nat, rows: seq<int>, j: nat, e: nat, d: nat, k: nat)
    requires PlacedUpTo(flat, bm, experts, rows, j) && e < experts && d < experts && k < RunLen(flat, d, bm)
    requires PairsBefore(flat, e) <= j < PairsBefore(flat, e) + Count(flat, e)
    requires RowsBefore(flat, e, bm) + (j - PairsBefore(flat, e)) < |rows|
    ensures var i := j - PairsBefore(flat, e);
            RowPlaced(flat, bm, rows[RowsBefore(flat, e, bm) + i := PairsOf(flat, e, |flat|)[i]], j + 1, d, k)
  {
    hide RunLen, RowsBefore, PairsBefore;
    var i := j - PairsBefore(flat, e);
    PlaceInRange(flat, bm, experts, e, i);
    assert RowPlaced(flat, bm, rows, j, d, k);
    if RowsBefore(flat, e, bm) + i == RowsBefore(flat, d, bm) + k {
      RunsDisjoint(flat, bm, e, i, d, k);
    } else if k < Count(flat, d) && PairsBefore(flat, d) + k == j {
      if e < d { RunEnds(flat, bm, e, d); } else if d < e { RunEnds(flat, bm, d, e); }
      assert false;
    }
  }

  lemma AllPlaced(flat: seq<nat>, bm: Positive, experts: nat, rows: seq<int>)
    requires PlacedUpTo(flat, bm, experts, rows, PairsBefore(flat, experts))
    ensures rows == Runs(flat, experts, bm)
  {
    hide RunLen, RowsBefore, PairsBefore, Runs;
    forall r | 0 <= r < |rows| ensures rows[r] == Runs(flat, experts, bm)[r] {
      var e, i := Locate(flat, experts, bm, r);
      RunsAt(flat, experts, e, bm, i);
      assert RowPlaced(flat, bm, rows, PairsBefore(flat, experts), e, i);
      RunEnds(flat, bm, e, experts);
    }
  }
}
