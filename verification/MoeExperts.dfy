/** The expert MLP over aligned pairs (src/einf/executors/torch/triton_moe.py:103-252, 260-421), over
    exact arithmetic: grouped GEMMs, combination, and the per-expert reference. */
module MoeExperts {
  import opened Base
  import opened MoeAlignment

  type Matrix = seq<seq<real>>

  ghost predicate Shape(m: Matrix, rows: nat, cols: nat) {
    |m| == rows && forall i :: 0 <= i < rows ==> |m[i]| == cols
  }

  function Dot(a: seq<real>, b: seq<real>, n: nat): real
    requires n <= |a| && n <= |b|
  {
    if n == 0 then 0.0 else Dot(a, b, n - 1) + a[n - 1] * b[n - 1]
  }

  /** The reduction loop: tiles of `blockH`, masked past the end. */
  method TileDot(a: seq<real>, b: seq<real>, hDim: nat, blockH: Positive) returns (acc: real)
    requires |a| == hDim && |b| == hDim
    ensures acc == Dot(a, b, hDim)
  {
    acc := 0.0;
    var h := 0;
    while h < hDim
      invariant acc == Dot(a, b, Min(h, hDim))
      decreases hDim - h
    {
      for k := 0 to blockH
        invariant acc == Dot(a, b, Min(h + k, hDim))
      {
        var av, bv := if h + k < hDim then a[h + k] else 0.0, if h + k < hDim then b[h + k] else 0.0;
        acc := acc + av * bv;
      }
      h := h + blockH;
    }
  }

  // ------------------------------------------------------------- grouped GEMM

  /** What both grouped GEMMs are given: rows in sorted order, the expert of each block, routing
      weights, and the operand of every expert. */
  datatype Gemm = Gemm(rows: seq<int>, experts: seq<nat>, weights: seq<real>, b: seq<Matrix>,
                       hDim: nat, nDim: nat, kPairs: Positive, gatherA: bool, applyWeight: bool)
  {
    ghost predicate Valid(a: Matrix, bm: Positive) {
      && |rows| == Span(|experts|, bm)
      && (forall k :: 0 <= k < |experts| ==> experts[k] < |b|)
      && (forall e :: 0 <= e < |b| ==> Shape(b[e], nDim, hDim))
      && (forall r :: 0 <= r < |rows| && rows[r] >= 0 ==> rows[r] < |weights|)
      && (forall r :: 0 <= r < |rows| && rows[r] >= 0 ==> ARow(r) < |a| && |a[ARow(r)]| == hDim)
    }

    /** Row of the A operand: the pair's token, or the row itself. */
    function ARow(r: nat): nat
      requires r < |rows|
    {
      if gatherA then (if rows[r] >= 0 then TokenOf(rows[r], kPairs) else 0) else r
    }

    /** An entry of the product for a row that holds a pair. */
    function Entry(a: Matrix, bm: Positive, r: nat, n: nat): real
      requires Valid(a, bm) && r < |rows| && rows[r] >= 0 && n < nDim
    {
      BlockInRange(|experts|, bm, r);
      var product := Dot(a[ARow(r)], b[experts[BlockOf(r, bm)]][n], hDim);
      if applyWeight then product * weights[rows[r]] else product
    }
  }

  lemma BlockInRange(blocks: nat, bm: Positive, r: nat)
    requires r < Span(blocks, bm)
    ensures BlockOf(r, bm) < blocks
  {
    SpanOfQuotient(r, bm);
    if BlockOf(r, bm) >= blocks { SpanMono(blocks, BlockOf(r, bm), bm); }
  }

  /** One tile: a block of rows, `blockN` columns.  Sentinel rows are not stored. */
  method Program(g: Gemm, a: Matrix, c: array2<real>, bm: Positive, blockN: Positive, blockH: Positive, pidM: nat, pidN: nat)
    requires g.Valid(a, bm) && Span(pidM, bm) + bm <= c.Length0 && c.Length1 == g.nDim
    modifies c
    ensures forall r, n :: 0 <= r < c.Length0 && 0 <= n < c.Length1 ==>
              c[r, n] == if Span(pidM, bm) <= r < Span(pidM, bm) + bm && r < |g.rows| && g.rows[r] >= 0
                            && Span(pidN, blockN) <= n < Span(pidN, blockN) + blockN
                         then g.Entry(a, bm, r, n) else old(c[r, n])
  {
    hide Gemm.Entry;
    var sgrow, scol := Span(pidM, bm), Span(pidN, blockN);
    if |g.rows| <= sgrow {
      return;
    }
    for i := 0 to bm
      invariant forall r, n :: 0 <= r < c.Length0 && 0 <= n < c.Length1 ==>
                  c[r, n] == if sgrow <= r < sgrow + i && r < |g.rows| && g.rows[r] >= 0 && scol <= n < scol + blockN
                             then g.Entry(a, bm, r, n) else old(c[r, n])
    {
      var r := sgrow + i;
      if r < |g.rows| && g.rows[r] >= 0 {
        StoreRow(g, a, c, bm, blockH, r, scol, Min(scol + blockN, g.nDim));
      }
    }
  }

  method StoreRow(g: Gemm, a: Matrix, c: array2<real>, bm: Positive, blockH: Positive, r: nat, from: nat, to: int)
    requires g.Valid(a, bm) && r < |g.rows| && r < c.Length0 && g.rows[r] >= 0 && c.Length1 == g.nDim && to <= g.nDim
    modifies c
    ensures forall q, n :: 0 <= q < c.Length0 && 0 <= n < c.Length1 ==>
              c[q, n] == if q == r && from <= n < to then g.Entry(a, bm, r, n) else old(c[q, n])
  {
    BlockInRange(|g.experts|, bm, r);
    var n := from;
    while n < to
      invariant from <= n && (n <= to || n == from)
      invariant forall q, k :: 0 <= q < c.Length0 && 0 <= k < c.Length1 ==>
                  c[q, k] == if q == r && from <= k < n then g.Entry(a, bm, r, k) else old(c[q, k])
    {
      var acc := TileDot(a[g.ARow(r)], g.b[g.experts[BlockOf(r, bm)]][n], g.hDim, blockH);
      c[r, n] := if g.applyWeight then acc * g.weights[g.rows[r]] else acc;
      n := n + 1;
    }
  }

  /** The grid: enough row blocks for the padded rows, and all columns. */
  method GroupedGemm(g: Gemm, a: Matrix, c: array2<real>, bm: Positive, blockN: Positive, blockH: Positive, gridM: nat)
    requires g.Valid(a, bm) && c.Length0 == Span(gridM, bm) && c.Length1 == g.nDim && |g.rows| <= c.Length0
    modifies c
    ensures forall r, n :: 0 <= r < |g.rows| && g.rows[r] >= 0 && 0 <= n < g.nDim ==> c[r, n] == g.Entry(a, bm, r, n)
  {
    hide Gemm.Entry, Gemm.Valid;
    var columns := CeilDiv(g.nDim, blockN);
    CeilDivBounds(g.nDim, blockN);
    for pidM := 0 to gridM
      invariant forall r, n :: 0 <= r < |g.rows| && r < Span(pidM, bm) && g.rows[r] >= 0 && 0 <= n < g.nDim ==>
                  c[r, n] == g.Entry(a, bm, r, n)
    {
      SpanMono(pidM + 1, gridM, bm);
      for pidN := 0 to columns
        invariant forall r, n ::
                    (0 <= r < |g.rows| && g.rows[r] >= 0 && 0 <= n < g.nDim
                     && (r < Span(pidM, bm) || (r < Span(pidM, bm) + bm && n < Span(pidN, blockN))))
                    ==> c[r, n] == g.Entry(a, bm, r, n)
      {
        Program(g, a, c, bm, blockN, blockH, pidM, pidN);
      }
    }
  }

  // -------------------------------------------------------------- accumulation

  /** Pairs decode as `token * k + slot`. */
  function TokenOf(p: nat, k: Positive): nat { p / k }

  /** What a pair adds to each column of its token. */
  type Share = (nat, nat) -> real

  /** Column `d` of token `t`, after adding the pairs of `order` one by one. */
  function Accumulated(order: seq<nat>, k: Positive, share: Share, t: nat, d: nat): real {
    if order == [] then 0.0
    else
      var p := order[|order| - 1];
      Accumulated(order[..|order| - 1], k, share, t, d) + (if TokenOf(p, k) == t then share(p, d) else 0.0)
  }

  lemma {:induction false} AccumulatedConcat(a: seq<nat>, b: seq<nat>, k: Positive, share: Share, t: nat, d: nat)
    ensures Accumulated(a + b, k, share, t, d) == Accumulated(a, k, share, t, d) + Accumulated(b, k, share, t, d)
  {
    if b == [] {
      assert a + b == a;
    } else {
      assert (a + b)[..|a + b| - 1] == a + b[..|b| - 1];
      AccumulatedConcat(a, b[..|b| - 1], k, share, t, d);
    }
  }

  /** The reference value: the token's pairs among the first `n`, in any order. */
  function PairTotal(n: nat, k: Positive, share: Share, t: nat, d: nat): real {
    if n == 0 then 0.0 else PairTotal(n - 1, k, share, t, d) + (if TokenOf(n - 1, k) == t then share(n - 1, d) else 0.0)
  }

  function ExpertTotal(flat: seq<nat>, e: nat, n: nat, k: Positive, share: Share, t: nat, d: nat): real
    requires n <= |flat|
  {
    if e == 0 then 0.0
    else ExpertTotal(flat, e - 1, n, k, share, t, d) + Accumulated(PairsOf(flat, e - 1, n), k, share, t, d)
  }

  lemma {:induction false} ExpertTotalNext(flat: seq<nat>, e: nat, n: nat, k: Positive, share: Share, t: nat, d: nat)
    requires 0 < n <= |flat|
    ensures ExpertTotal(flat, e, n, k, share, t, d) == ExpertTotal(flat, e, n - 1, k, share, t, d)
              + (if flat[n - 1] < e && TokenOf(n - 1, k) == t then share(n - 1, d) else 0.0)
  {
    hide TokenOf, Accumulated;
    if e > 0 {
      ExpertTotalNext(flat, e - 1, n, k, share, t, d);
      PairsTotalNext(flat, e - 1, n, k, share, t, d);
    }
  }

  lemma PairsTotalNext(flat: seq<nat>, e: nat, n: nat, k: Positive, share: Share, t: nat, d: nat)
    requires 0 < n <= |flat|
    ensures Accumulated(PairsOf(flat, e, n), k, share, t, d) == Accumulated(PairsOf(flat, e, n - 1), k, share, t, d)
              + (if flat[n - 1] == e && TokenOf(n - 1, k) == t then share(n - 1, d) else 0.0)
  {
    hide TokenOf;
    var pairs, before := PairsOf(flat, e, n), PairsOf(flat, e, n - 1);
    if flat[n - 1] == e { assert pairs[..|pairs| - 1] == before; } else { assert pairs == before; }
  }

  lemma {:induction false} NoPairs(flat: seq<nat>, e: nat, k: Positive, share: Share, t: nat, d: nat)
    ensures ExpertTotal(flat, e, 0, k, share, t, d) == 0.0
  {
    if e > 0 { NoPairs(flat, e - 1, k, share, t, d); }
  }

  lemma {:induction false} ExpertsCoverPairs(flat: seq<nat>, e: nat, n: nat, k: Positive, share: Share, t: nat, d: nat)
    requires n <= |flat| && forall p :: 0 <= p < |flat| ==> flat[p] < e
    ensures ExpertTotal(flat, e, n, k, share, t, d) == PairTotal(n, k, share, t, d)
  {
    hide TokenOf, Accumulated, ExpertTotal;
    if n == 0 {
      NoPairs(flat, e, k, share, t, d);
    } else {
      ExpertsCoverPairs(flat, e, n - 1, k, share, t, d);
      ExpertTotalNext(flat, e, n, k, share, t, d);
    }
  }

  lemma {:induction false} OrderTotal(flat: seq<nat>, e: nat, k: Positive, share: Share, t: nat, d: nat)
    ensures Accumulated(StableOrder(flat, e), k, share, t, d) == ExpertTotal(flat, e, |flat|, k, share, t, d)
  {
    hide TokenOf, Accumulated, PairsOf;
    if e == 0 {
      AccumulatedNothing(k, share, t, d);
    } else {
      OrderTotal(flat, e - 1, k, share, t, d);
      AccumulatedConcat(StableOrder(flat, e - 1), PairsOf(flat, e - 1, |flat|), k, share, t, d);
    }
  }

  lemma AccumulatedNothing(k: Positive, share: Share, t: nat, d: nat)
    ensures Accumulated([], k, share, t, d) == 0.0
  {
  }

  /** `out.index_add_`: row `i` of `values` goes to the token of `order[i]`. */
  method IndexAdd(out: array2<real>, order: seq<nat>, values: Matrix, k: Positive, ghost share: Share, ghost before: seq<nat>)
    requires Shape(values, |order|, out.Length1)
    requires forall i, d :: 0 <= i < |order| && 0 <= d < out.Length1 ==> values[i][d] == share(order[i], d)
    requires forall i :: 0 <= i < |order| ==> TokenOf(order[i], k) < out.Length0
    requires forall t, d :: 0 <= t < out.Length0 && 0 <= d < out.Length1 ==> out[t, d] == Accumulated(before, k, share, t, d)
    modifies out
    ensures forall t, d :: 0 <= t < out.Length0 && 0 <= d < out.Length1 ==>
              out[t, d] == Accumulated(before + order, k, share, t, d)
  {
    assert before + order[..0] == before;
    for i := 0 to |order|
      invariant forall t, d :: 0 <= t < out.Length0 && 0 <= d < out.Length1 ==>
                  out[t, d] == Accumulated(before + order[..i], k, share, t, d)
    {
      var t0 := TokenOf(order[i], k);
      assert (before + order[..i + 1])[..|before + order[..i + 1]| - 1] == before + order[..i];
      for d0 := 0 to out.Length1
        invariant forall t, d :: 0 <= t < out.Length0 && 0 <= d < out.Length1 ==>
                    out[t, d] == Accumulated(before + order[..i], k, share, t, d)
                                   + (if t == t0 && d < d0 then share(order[i], d) else 0.0)
      {
        out[t0, d0] := out[t0, d0] + values[i][d0];
      }
    }
    assert before + order[..|order|] == before + order;
  }

  // ------------------------------------------------------------------ pipelines

  /** The layer: routing, weights, and the activation between the two products. */
  datatype Layer = Layer(tokens: nat, k: Positive, experts: nat, hDim: nat, inter: nat, n2: nat,
                         hidden: Matrix, flatIds: seq<nat>, flatWeights: seq<real>, w13: seq<Matrix>, w2: seq<Matrix>,
                         silu: real -> real)
  {
    ghost predicate Valid() {
      && |flatIds| == |flatWeights| == Span(tokens, k)
      && (forall p :: 0 <= p < |flatIds| ==> flatIds[p] < experts && TokenOf(p, k) < tokens)
      && |hidden| == tokens && (forall t :: 0 <= t < tokens ==> |hidden[t]| == hDim)
      && |w13| == |w2| == experts
      && (forall e :: 0 <= e < experts ==> Shape(w13[e], n2, hDim) && Shape(w2[e], hDim, inter))
      && n2 == 2 * inter
    }

    /** `silu(h[:inter]) * h[inter:]`. */
    function Activation(h: seq<real>): (r: seq<real>)
      requires |h| == 2 * inter
      ensures |r| == inter
    {
      seq(inter, i requires 0 <= i < inter => silu(h[i]) * h[inter + i])
    }

    /** The expert's MLP on one token: two products with the activation between. */
    function Up(p: nat): seq<real>
      requires Valid() && p < |flatIds|
    {
      seq(n2, n requires 0 <= n < n2 => Dot(hidden[TokenOf(p, k)], w13[flatIds[p]][n], hDim))
    }

    function Down(p: nat, d: nat): real
      requires Valid() && p < |flatIds| && d < hDim
    {
      Dot(Activation(Up(p)), w2[flatIds[p]][d], inter)
    }

    /** What pair `p` adds to column `d` of its token. */
    function PairShare(p: nat, d: nat): real
      requires Valid()
    {
      if p < |flatIds| && d < hDim then Down(p, d) * flatWeights[p] else 0.0
    }

    ghost function ShareOf(): Share
      requires Valid()
    {
      (p: nat, d: nat) => PairShare(p, d)
    }

    /** The layer's output: what the token's pairs add up to. */
    ghost function Output(t: nat, d: nat): real
      requires Valid()
    {
      PairTotal(|flatIds|, k, ShareOf(), t, d)
    }
  }

  /** Rows times the transpose of `w`. */
  method TimesTransposed(x: Matrix, w: Matrix, n: nat, dim: nat) returns (y: Matrix)
    requires Shape(x, |x|, dim) && Shape(w, n, dim)
    ensures Shape(y, |x|, n)
    ensures forall i, c :: 0 <= i < |x| && 0 <= c < n ==> y[i][c] == Dot(x[i], w[c], dim)
  {
    y := [];
    for i := 0 to |x|
      invariant Shape(y, i, n) && forall q, c :: 0 <= q < i && 0 <= c < n ==> y[q][c] == Dot(x[q], w[c], dim)
    {
      y := y + [seq(n, c requires 0 <= c < n => Dot(x[i], w[c], dim))];
    }
  }

  /** One expert of the reference: its pairs' tokens through both of its matrices, weighted. */
  method ExpertRows(l: Layer, e: nat, pairs: seq<nat>) returns (y: Matrix)
    requires l.Valid() && e < l.experts && pairs == PairsOf(l.flatIds, e, |l.flatIds|)
    ensures Shape(y, |pairs|, l.hDim)
    ensures forall i, d :: 0 <= i < |pairs| && 0 <= d < l.hDim ==> y[i][d] == l.PairShare(pairs[i], d)
  {
    hide TokenOf, Dot, Layer.Up, Layer.Activation;
    ExpertPairs(l, e, pairs);
    var x := seq(|pairs|, i requires 0 <= i < |pairs| => l.hidden[TokenOf(pairs[i], l.k)]);
    var h := TimesTransposed(x, l.w13[e], l.n2, l.hDim);
    forall i | 0 <= i < |pairs| ensures h[i] == l.Up(pairs[i]) { UpIs(l, pairs[i], h[i]); }
    var act := seq(|pairs|, i requires 0 <= i < |pairs| => l.Activation(h[i]));
    var product := TimesTransposed(act, l.w2[e], l.hDim, l.inter);
    y := seq(|pairs|, i requires 0 <= i < |pairs| =>
      seq(l.hDim, d requires 0 <= d < l.hDim => product[i][d] * l.flatWeights[pairs[i]]));
  }

  lemma ExpertPairs(l: Layer, e: nat, pairs: seq<nat>)
    requires l.Valid() && pairs == PairsOf(l.flatIds, e, |l.flatIds|)
    ensures forall i :: 0 <= i < |pairs| ==>
              pairs[i] < |l.flatIds| && l.flatIds[pairs[i]] == e && TokenOf(pairs[i], l.k) < l.tokens
  {
    hide TokenOf;
    PairsOfMeans(l.flatIds, e, |l.flatIds|);
    assert forall i :: 0 <= i < |pairs| ==> pairs[i] in pairs;
  }

  lemma UpIs(l: Layer, p: nat, row: seq<real>)
    requires l.Valid() && p < |l.flatIds| && |row| == l.n2
    requires forall n :: 0 <= n < l.n2 ==> row[n] == Dot(l.hidden[TokenOf(p, l.k)], l.w13[l.flatIds[p]][n], l.hDim)
    ensures row == l.Up(p)
  {
    hide TokenOf, Dot;
  }

  /** The per-expert reference. */
  method ExpertMlpReference(l: Layer) returns (out: array2<real>)
    requires l.Valid()
    ensures fresh(out) && out.Length0 == l.tokens && out.Length1 == l.hDim
    ensures forall t, d :: 0 <= t < l.tokens && 0 <= d < l.hDim ==> out[t, d] == l.Output(t, d)
  {
    hide Accumulated, PairTotal, PairsOf, TokenOf, Layer.PairShare;
    out := new real[l.tokens, l.hDim]((_, _) => 0.0);
    ghost var share := l.ShareOf();
    forall t: nat, d: nat ensures Accumulated([], l.k, share, t, d) == 0.0 { AccumulatedNothing(l.k, share, t, d); }
    for e := 0 to l.experts
      invariant forall t, d :: 0 <= t < out.Length0 && 0 <= d < out.Length1 ==>
                  out[t, d] == Accumulated(StableOrder(l.flatIds, e), l.k, share, t, d)
    {
      var pairs := PairsOf(l.flatIds, e, |l.flatIds|);
      PairsOfMeans(l.flatIds, e, |l.flatIds|);
      assert forall i :: 0 <= i < |pairs| ==> pairs[i] in pairs;
      if pairs != [] {
        var y := ExpertRows(l, e, pairs);
        IndexAdd(out, pairs, y, l.k, share, StableOrder(l.flatIds, e));
      }
      assert StableOrder(l.flatIds, e + 1) == StableOrder(l.flatIds, e) + pairs;
      assert StableOrder(l.flatIds, e) + [] == StableOrder(l.flatIds, e);
    }
    TotalsAgree(l, share);
  }

  lemma TotalsAgree(l: Layer, share: Share)
    requires l.Valid()
    ensures forall t: nat, d: nat ::
              Accumulated(StableOrder(l.flatIds, l.experts), l.k, share, t, d) == PairTotal(|l.flatIds|, l.k, share, t, d)
  {
    forall t: nat, d: nat
      ensures Accumulated(StableOrder(l.flatIds, l.experts), l.k, share, t, d) == PairTotal(|l.flatIds|, l.k, share, t, d)
    {
      OrderTotal(l.flatIds, l.experts, l.k, share, t, d);
      ExpertsCoverPairs(l.flatIds, l.experts, |l.flatIds|, l.k, share, t, d);
    }
  }

  /** `moe_combine`: scatter-sum the rows that hold pairs. */
  method Combine(c2: array2<real>, rows: seq<int>, tokens: nat, k: Positive, ghost share: Share) returns (out: array2<real>)
    requires |rows| <= c2.Length0
    requires forall r :: 0 <= r < |rows| && rows[r] >= 0 ==> TokenOf(rows[r], k) < tokens
    requires forall r, d :: 0 <= r < |rows| && rows[r] >= 0 && 0 <= d < c2.Length1 ==> c2[r, d] == share(rows[r], d)
    ensures fresh(out) && out.Length0 == tokens && out.Length1 == c2.Length1
    ensures forall t, d :: 0 <= t < tokens && 0 <= d < c2.Length1 ==> out[t, d] == Accumulated(Valid(rows), k, share, t, d)
  {
    hide TokenOf, Valid, Accumulated;
    out := new real[tokens, c2.Length1]((_, _) => 0.0);
    forall t: nat, d: nat ensures Accumulated(Valid(rows[..0]), k, share, t, d) == 0.0 { NoRows(rows, k, share, t, d); }
    for r := 0 to |rows|
      invariant fresh(out)
      invariant forall t, d :: 0 <= t < out.Length0 && 0 <= d < out.Length1 ==>
                  out[t, d] == Accumulated(Valid(rows[..r]), k, share, t, d)
    {
      forall t: nat, d: nat
        ensures Accumulated(Valid(rows[..r + 1]), k, share, t, d) == Accumulated(Valid(rows[..r]), k, share, t, d)
                  + (if rows[r] >= 0 && TokenOf(rows[r], k) == t then share(rows[r], d) else 0.0)
      {
        OneMoreRow(rows, r, k, share, t, d);
      }
      if rows[r] >= 0 {
        var t0 := TokenOf(rows[r], k);
        for d0 := 0 to out.Length1
          invariant forall t, d :: 0 <= t < out.Length0 && 0 <= d < out.Length1 ==>
                      out[t, d] == Accumulated(Valid(rows[..r]), k, share, t, d)
                                     + (if t == t0 && d < d0 then share(rows[r], d) else 0.0)
        {
          out[t0, d0] := out[t0, d0] + c2[r, d0];
        }
      }
    }
    assert rows[..|rows|] == rows;
  }

  lemma NoRows(rows: seq<int>, k: Positive, share: Share, t: nat, d: nat)
    ensures Accumulated(Valid(rows[..0]), k, share, t, d) == 0.0
  {
  }

  lemma OneMoreRow(rows: seq<int>, r: nat, k: Positive, share: Share, t: nat, d: nat)
    requires r < |rows|
    ensures Accumulated(Valid(rows[..r + 1]), k, share, t, d) == Accumulated(Valid(rows[..r]), k, share, t, d)
              + (if rows[r] >= 0 && TokenOf(rows[r], k) == t then share(rows[r], d) else 0.0)
  {
    hide TokenOf;
    assert rows[..r + 1][..r] == rows[..r];
    var before, after := Valid(rows[..r]), Valid(rows[..r + 1]);
    if rows[r] >= 0 { assert after[..|after| - 1] == before; } else { assert after == before; }
  }

  // --------------------------------------------------------------- fused path

  /** The fused path: align, gather into the first product, activate, second product with the
      routing weights, combine. */
  method MoeExpertMlp(l: Layer, blockM: Positive, blockN: Positive, blockH: Positive) returns (out: array2<real>)
    requires l.Valid()
    ensures fresh(out) && out.Length0 == l.tokens && out.Length1 == l.hDim
    ensures forall t, d :: 0 <= t < l.tokens && 0 <= d < l.hDim ==> out[t, d] == l.Output(t, d)
  {
    ghost var share := l.ShareOf();
    hide PairTotal, Accumulated, Valid, Runs, BlockExperts, Aligned, Layer.Valid;
    IdsInRange(l);
    var rows, expertIds, total := AlignBlockSize(l.flatIds, blockM, l.experts);
    var gridM := CeilDiv(|l.flatIds|, blockM) + l.experts;
    PaddedLengthBound(l.flatIds, l.experts, blockM);
    RowsHoldPairs(l, rows, expertIds, blockM);
    var act := FirstProduct(l, rows, expertIds, blockM, blockN, blockH, gridM);
    var c2 := SecondProduct(l, share, rows, expertIds, act, blockM, blockN, blockH, gridM);
    TokensInRange(l, rows, expertIds, blockM);
    out := Combine(c2, rows, l.tokens, l.k, share);
    RunsVisitAll(l.flatIds, l.experts, blockM);
    TotalsAgree(l, share);
  }

  /** Fused path and per-expert reference return the same. */
  method FusedAndReference(l: Layer, blockM: Positive, blockN: Positive, blockH: Positive)
    returns (fused: array2<real>, reference: array2<real>)
    requires l.Valid()
    ensures fused.Length0 == reference.Length0 == l.tokens && fused.Length1 == reference.Length1 == l.hDim
    ensures forall t, d :: 0 <= t < l.tokens && 0 <= d < l.hDim ==> fused[t, d] == reference[t, d]
  {
    hide Layer.Valid, Layer.Output;
    fused := MoeExpertMlp(l, blockM, blockN, blockH);
    reference := ExpertMlpReference(l);
  }

  lemma IdsInRange(l: Layer)
    requires l.Valid()
    ensures forall p :: 0 <= p < |l.flatIds| ==> l.flatIds[p] < l.experts
  {
    hide TokenOf;
  }

  lemma TokensInRange(l: Layer, rows: seq<int>, expertIds: seq<nat>, bm: Positive)
    requires l.Valid() && Aligned(l, rows, expertIds, bm)
    ensures forall r :: 0 <= r < |rows| && rows[r] >= 0 ==> TokenOf(rows[r], l.k) < l.tokens
  {
    hide TokenOf;
    forall r | 0 <= r < |rows| && rows[r] >= 0 ensures TokenOf(rows[r], l.k) < l.tokens {
      assert RowAligned(l, rows, expertIds, bm, r);
    }
  }

  /** The first product, gathered by token, and the activation. */
  method FirstProduct(l: Layer, rows: seq<int>, expertIds: seq<nat>, blockM: Positive, blockN: Positive, blockH: Positive, gridM: nat)
    returns (act: Matrix)
    requires l.Valid() && Aligned(l, rows, expertIds, blockM) && |rows| <= Span(gridM, blockM)
    ensures |act| == |rows| && forall r :: 0 <= r < |rows| ==> |act[r]| == l.inter
    ensures forall r :: 0 <= r < |rows| && rows[r] >= 0 ==> rows[r] < |l.flatIds| && act[r] == l.Activation(l.Up(rows[r]))
  {
    hide Gemm.Entry, Gemm.Valid, Aligned, Layer.Up;
    var first := Gemm(rows, expertIds, l.flatWeights, l.w13, l.hDim, l.n2, l.k, true, false);
    FirstValid(l, rows, expertIds, blockM);
    var c1 := new real[Span(gridM, blockM), l.n2];
    GroupedGemm(first, l.hidden, c1, blockM, blockN, blockH, gridM);
    act := Activate(l, c1, |rows|);
    ActivatedIs(l, rows, expertIds, blockM, c1, act);
  }

  /** The second product, scaled by the routing weights. */
  method SecondProduct(l: Layer, ghost share: Share, rows: seq<int>, expertIds: seq<nat>, act: Matrix,
                       blockM: Positive, blockN: Positive, blockH: Positive, gridM: nat)
    returns (c2: array2<real>)
    requires l.Valid() && share == l.ShareOf() && Aligned(l, rows, expertIds, blockM) && |rows| <= Span(gridM, blockM)
    requires |act| == |rows| && forall r :: 0 <= r < |rows| ==> |act[r]| == l.inter
    requires forall r :: 0 <= r < |rows| && rows[r] >= 0 ==> rows[r] < |l.flatIds| && act[r] == l.Activation(l.Up(rows[r]))
    ensures fresh(c2) && |rows| <= c2.Length0 && c2.Length1 == l.hDim
    ensures forall r, d :: 0 <= r < |rows| && rows[r] >= 0 && 0 <= d < l.hDim ==> c2[r, d] == share(rows[r], d)
  {
    hide Gemm.Entry, Gemm.Valid, Aligned, Layer.Up, Layer.PairShare;
    var second := Gemm(rows, expertIds, l.flatWeights, l.w2, l.inter, l.hDim, l.k, false, true);
    SecondValid(l, rows, expertIds, act, blockM);
    c2 := new real[Span(gridM, blockM), l.hDim];
    GroupedGemm(second, act, c2, blockM, blockN, blockH, gridM);
    forall r, d | 0 <= r < |rows| && rows[r] >= 0 && 0 <= d < l.hDim ensures c2[r, d] == share(rows[r], d) {
      SecondEntry(l, rows, expertIds, blockM, act, r, d);
    }
  }

  lemma FirstValid(l: Layer, rows: seq<int>, expertIds: seq<nat>, bm: Positive)
    requires l.Valid() && Aligned(l, rows, expertIds, bm)
    ensures Gemm(rows, expertIds, l.flatWeights, l.w13, l.hDim, l.n2, l.k, true, false).Valid(l.hidden, bm)
  {
    hide TokenOf;
    forall r | 0 <= r < |rows| && rows[r] >= 0 ensures rows[r] < |l.flatIds| && TokenOf(rows[r], l.k) < l.tokens {
      assert RowAligned(l, rows, expertIds, bm, r);
    }
  }

  lemma SecondValid(l: Layer, rows: seq<int>, expertIds: seq<nat>, act: Matrix, bm: Positive)
    requires l.Valid() && Aligned(l, rows, expertIds, bm) && |act| == |rows|
    requires forall r :: 0 <= r < |rows| ==> |act[r]| == l.inter
    ensures Gemm(rows, expertIds, l.flatWeights, l.w2, l.inter, l.hDim, l.k, false, true).Valid(act, bm)
  {
    hide TokenOf;
    forall r | 0 <= r < |rows| && rows[r] >= 0 ensures rows[r] < |l.flatIds| {
      assert RowAligned(l, rows, expertIds, bm, r);
    }
  }

  /** Rows hold pairs or sentinels, and a row's block records its pair's expert. */
  ghost predicate Aligned(l: Layer, rows: seq<int>, expertIds: seq<nat>, bm: Positive) {
    && |rows| == Span(|expertIds|, bm)
    && (forall b :: 0 <= b < |expertIds| ==> expertIds[b] < l.experts)
    && forall r :: 0 <= r < |rows| ==> RowAligned(l, rows, expertIds, bm, r)
  }

  ghost predicate RowAligned(l: Layer, rows: seq<int>, expertIds: seq<nat>, bm: Positive, r: nat)
    requires r < |rows|
  {
    BlockOf(r, bm) < |expertIds|
    && (rows[r] < 0 || (rows[r] < |l.flatIds| && l.flatIds[rows[r]] == expertIds[BlockOf(r, bm)]))
  }

  lemma {:induction false} ExpertIdsInRange(flat: seq<nat>, experts: nat, bm: Positive)
    ensures forall b :: 0 <= b < |BlockExperts(flat, experts, bm)| ==> BlockExperts(flat, experts, bm)[b] < experts
  {
    hide Blocks;
    if experts > 0 { ExpertIdsInRange(flat, experts - 1, bm); }
  }

  lemma RowsHoldPairs(l: Layer, rows: seq<int>, expertIds: seq<nat>, bm: Positive)
    requires l.Valid() && rows == Runs(l.flatIds, l.experts, bm) && expertIds == BlockExperts(l.flatIds, l.experts, bm)
    ensures Aligned(l, rows, expertIds, bm)
  {
    hide Runs, BlockExperts, RowsBefore, BlocksBefore;
    RowsAreBlocks(l.flatIds, l.experts, bm);
    ExpertIdsInRange(l.flatIds, l.experts, bm);
    forall r | 0 <= r < |rows| ensures RowAligned(l, rows, expertIds, bm, r) {
      BlocksAreSingleExpert(l.flatIds, l.experts, bm, r);
    }
  }

  method Activate(l: Layer, c1: array2<real>, n: nat) returns (act: Matrix)
    requires l.Valid() && n <= c1.Length0 && c1.Length1 == l.n2
    ensures |act| == n && forall r :: 0 <= r < n ==> act[r] == l.Activation(RowOf(c1, r)) && |act[r]| == l.inter
  {
    act := [];
    for r := 0 to n
      invariant |act| == r && forall q :: 0 <= q < r ==> act[q] == l.Activation(RowOf(c1, q)) && |act[q]| == l.inter
    {
      act := act + [l.Activation(RowOf(c1, r))];
    }
  }

  function RowOf(c: array2<real>, r: nat): seq<real>
    requires r < c.Length0
    reads c
  {
    seq(c.Length1, n requires 0 <= n < c.Length1 reads c => c[r, n])
  }

  /** After the first product, a row that holds a pair holds its activated projection. */
  lemma ActivatedIs(l: Layer, rows: seq<int>, expertIds: seq<nat>, bm: Positive, c1: array2<real>, act: Matrix)
    requires l.Valid() && Aligned(l, rows, expertIds, bm) && |rows| <= c1.Length0 && c1.Length1 == l.n2 && |act| == |rows|
    requires var g := Gemm(rows, expertIds, l.flatWeights, l.w13, l.hDim, l.n2, l.k, true, false);
             && g.Valid(l.hidden, bm)
             && forall r, n :: 0 <= r < |rows| && rows[r] >= 0 && 0 <= n < l.n2 ==> c1[r, n] == g.Entry(l.hidden, bm, r, n)
    requires forall r :: 0 <= r < |rows| ==> act[r] == l.Activation(RowOf(c1, r)) && |act[r]| == l.inter
    ensures forall r :: 0 <= r < |rows| && rows[r] >= 0 ==> rows[r] < |l.flatIds| && act[r] == l.Activation(l.Up(rows[r]))
  {
    hide TokenOf, BlockOf, Dot;
    forall r | 0 <= r < |rows| && rows[r] >= 0
      ensures rows[r] < |l.flatIds| && act[r] == l.Activation(l.Up(rows[r]))
    {
      assert RowAligned(l, rows, expertIds, bm, r);
      assert RowOf(c1, r) == l.Up(rows[r]);
    }
  }

  /** After the second, its share of its token. */
  lemma SecondEntry(l: Layer, rows: seq<int>, expertIds: seq<nat>, bm: Positive, act: Matrix, r: nat, d: nat)
    requires l.Valid() && Aligned(l, rows, expertIds, bm) && r < |rows| && rows[r] >= 0 && d < l.hDim
    requires |act| == |rows| && rows[r] < |l.flatIds| && act[r] == l.Activation(l.Up(rows[r]))
    requires var g := Gemm(rows, expertIds, l.flatWeights, l.w2, l.inter, l.hDim, l.k, false, true); g.Valid(act, bm)
    ensures var g := Gemm(rows, expertIds, l.flatWeights, l.w2, l.inter, l.hDim, l.k, false, true);
            g.Entry(act, bm, r, d) == l.PairShare(rows[r], d)
  {
    hide TokenOf, BlockOf, Dot, Layer.Up;
    assert RowAligned(l, rows, expertIds, bm, r);
  }
}
