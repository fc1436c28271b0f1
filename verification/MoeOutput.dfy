/** What the expert MLP computes, written out entry by entry, and how it scales
    (src/einf/executors/torch/triton_moe.py:290-314). */
module MoeOutput {
  import opened Base
  import opened MoeExperts

  // --------------------------------------------------------------- the formula

  /** Row `n` of an expert's first operand times a token: the first `h` terms. */
  function Projected(l: Layer, t: nat, e: nat, n: nat, h: nat): real
    requires l.Valid() && t < l.tokens && e < l.experts && n < l.n2 && h <= l.hDim
  {
    if h == 0 then 0.0 else Projected(l, t, e, n, h - 1) + l.hidden[t][h - 1] * l.w13[e][n][h - 1]
  }

  /** Column `d` of an expert's result for a token, from the first `i` inner entries: rows of the first
      half are the gate, those of the second half what it gates. */
  function ExpertColumn(l: Layer, t: nat, e: nat, d: nat, i: nat): real
    requires l.Valid() && t < l.tokens && e < l.experts && d < l.hDim && i <= l.inter
  {
    if i == 0 then 0.0
    else
      var gate, up := Projected(l, t, e, i - 1, l.hDim), Projected(l, t, e, l.inter + (i - 1), l.hDim);
      ExpertColumn(l, t, e, d, i - 1) + l.silu(gate) * up * l.w2[e][d][i - 1]
  }

  lemma SlotInRange(l: Layer, t: nat, j: nat)
    requires l.Valid() && t < l.tokens && j < l.k
    ensures Span(t, l.k) + j < |l.flatIds| && l.flatIds[Span(t, l.k) + j] < l.experts
    ensures TokenOf(Span(t, l.k) + j, l.k) == t
  {
    SpanMono(t + 1, l.tokens, l.k);
    InToken(Span(t, l.k) + j, l.k, t);
  }

  /** The routed sum over the token's first `j` slots. */
  function Routed(l: Layer, t: nat, d: nat, j: nat): real
    requires l.Valid() && t < l.tokens && d < l.hDim && j <= l.k
  {
    if j == 0 then 0.0
    else
      var p := Span(t, l.k) + (j - 1);
      SlotInRange(l, t, j - 1);
      Routed(l, t, d, j - 1) + ExpertColumn(l, t, l.flatIds[p], d, l.inter) * l.flatWeights[p]
  }

  lemma {:induction false} ProjectedIsDot(l: Layer, t: nat, e: nat, n: nat, h: nat)
    requires l.Valid() && t < l.tokens && e < l.experts && n < l.n2 && h <= l.hDim
    ensures Projected(l, t, e, n, h) == Dot(l.hidden[t], l.w13[e][n], h)
  {
    hide TokenOf;
    if h > 0 { ProjectedIsDot(l, t, e, n, h - 1); }
  }

  lemma {:induction false} ColumnIsDot(l: Layer, p: nat, d: nat, i: nat)
    requires l.Valid() && p < |l.flatIds| && d < l.hDim && i <= l.inter
    ensures ExpertColumn(l, TokenOf(p, l.k), l.flatIds[p], d, i) == Dot(l.Activation(l.Up(p)), l.w2[l.flatIds[p]][d], i)
  {
    hide TokenOf, Projected;
    if i > 0 {
      ColumnIsDot(l, p, d, i - 1);
      ProjectedIsDot(l, TokenOf(p, l.k), l.flatIds[p], i - 1, l.hDim);
      ProjectedIsDot(l, TokenOf(p, l.k), l.flatIds[p], l.inter + (i - 1), l.hDim);
    }
  }

  lemma InToken(p: nat, k: Positive, t: nat)
    ensures TokenOf(p, k) == t <==> Span(t, k) <= p < Span(t, k) + k
  {
    SpanOfQuotient(p, k);
    if Span(t, k) <= p < Span(t, k) + k { QuotientIs(p, k, t); }
  }

  /** The token's slots among the first `n` pairs. */
  function Slots(l: Layer, t: nat, n: nat): (j: nat)
    ensures j <= l.k
  {
    Min(Max(0, n - Span(t, l.k)), l.k)
  }

  lemma {:induction false} PairsAreSlots(l: Layer, t: nat, d: nat, n: nat)
    requires l.Valid() && t < l.tokens && d < l.hDim && n <= |l.flatIds|
    ensures PairTotal(n, l.k, l.ShareOf(), t, d) == Routed(l, t, d, Slots(l, t, n))
  {
    hide TokenOf, ExpertColumn, Layer.Valid;
    if n > 0 {
      PairsAreSlots(l, t, d, n - 1);
      InToken(n - 1, l.k, t);
      ShareIsColumn(l, n - 1, d);
    }
  }

  lemma ShareIsColumn(l: Layer, p: nat, d: nat)
    requires l.Valid() && p < |l.flatIds| && d < l.hDim
    ensures TokenOf(p, l.k) < l.tokens && l.flatIds[p] < l.experts && |l.flatWeights| == |l.flatIds|
    ensures l.ShareOf()(p, d) == ExpertColumn(l, TokenOf(p, l.k), l.flatIds[p], d, l.inter) * l.flatWeights[p]
  {
    hide TokenOf, ExpertColumn, Dot, Layer.Activation, Layer.Up;
    ColumnIsDot(l, p, d, l.inter);
  }

  /** The layer's output is the routed sum of gated projections. */
  lemma OutputIs(l: Layer, t: nat, d: nat)
    requires l.Valid() && t < l.tokens && d < l.hDim
    ensures l.Output(t, d) == Routed(l, t, d, l.k)
  {
    hide TokenOf, PairTotal, Routed;
    SpanMono(t + 1, l.tokens, l.k);
    PairsAreSlots(l, t, d, |l.flatIds|);
  }

  // ------------------------------------------------------------------- scaling

  lemma ScaledTerm(x: real, y: real, a: real)
    ensures (a * x) * y == a * (x * y) && x * (a * y) == a * (x * y)
  {
  }

  lemma ScaledSum(x: real, y: real, a: real)
    ensures a * x + a * y == a * (x + y)
  {
  }

  /** `l1` is `l` with the second half of the rows of every first operand multiplied by `a`. */
  ghost predicate UpRowsScaled(l: Layer, l1: Layer, a: real)
    requires l.Valid() && l1.Valid()
  {
    && l1 == l.(w13 := l1.w13)
    && forall e, n, h :: 0 <= e < l.experts && 0 <= n < l.n2 && 0 <= h < l.hDim ==>
         l1.w13[e][n][h] == if n < l.inter then l.w13[e][n][h] else a * l.w13[e][n][h]
  }

  lemma {:induction false} ProjectedScales(l: Layer, l1: Layer, a: real, t: nat, e: nat, n: nat, h: nat)
    requires l.Valid() && l1.Valid() && UpRowsScaled(l, l1, a)
    requires t < l.tokens && e < l.experts && n < l.n2 && h <= l.hDim
    ensures Projected(l1, t, e, n, h) == if n < l.inter then Projected(l, t, e, n, h) else a * Projected(l, t, e, n, h)
  {
    hide TokenOf;
    if h > 0 {
      ProjectedScales(l, l1, a, t, e, n, h - 1);
      ScaledTerm(l.hidden[t][h - 1], l.w13[e][n][h - 1], a);
      ScaledSum(Projected(l, t, e, n, h - 1), l.hidden[t][h - 1] * l.w13[e][n][h - 1], a);
    }
  }

  lemma {:induction false} ColumnScalesWithUp(l: Layer, l1: Layer, a: real, t: nat, e: nat, d: nat, i: nat)
    requires l.Valid() && l1.Valid() && UpRowsScaled(l, l1, a)
    requires t < l.tokens && e < l.experts && d < l.hDim && i <= l.inter
    ensures ExpertColumn(l1, t, e, d, i) == a * ExpertColumn(l, t, e, d, i)
  {
    hide TokenOf, Projected;
    if i > 0 {
      ColumnScalesWithUp(l, l1, a, t, e, d, i - 1);
      ProjectedScales(l, l1, a, t, e, i - 1, l.hDim);
      ProjectedScales(l, l1, a, t, e, l.inter + (i - 1), l.hDim);
      var gate, up, w := Projected(l, t, e, i - 1, l.hDim), Projected(l, t, e, l.inter + (i - 1), l.hDim), l.w2[e][d][i - 1];
      ScaledTerm(l.silu(gate), up, a);
      ScaledTerm(l.silu(gate) * up, w, a);
      ScaledSum(ExpertColumn(l, t, e, d, i - 1), l.silu(gate) * up * w, a);
    }
  }

  lemma {:induction false} RoutedScales(l: Layer, l1: Layer, a: real, t: nat, d: nat, j: nat)
    requires l.Valid() && l1.Valid() && l1 == l.(w13 := l1.w13, silu := l1.silu) && t < l.tokens && d < l.hDim && j <= l.k
    requires forall e: nat :: e < l.experts ==> ExpertColumn(l1, t, e, d, l.inter) == a * ExpertColumn(l, t, e, d, l.inter)
    ensures Routed(l1, t, d, j) == a * Routed(l, t, d, j)
  {
    hide TokenOf, ExpertColumn, Layer.Valid;
    if j > 0 {
      RoutedScales(l, l1, a, t, d, j - 1);
      SlotInRange(l, t, j - 1);
      ShareIsColumn(l, Span(t, l.k) + (j - 1), d);
      var p := Span(t, l.k) + (j - 1);
      var column := ExpertColumn(l, t, l.flatIds[p], d, l.inter);
      ScaledTerm(column, l.flatWeights[p], a);
      ScaledSum(Routed(l, t, d, j - 1), column * l.flatWeights[p], a);
    }
  }

  /** What is gated enters linearly: multiplying the second half of the rows multiplies the output. */
  lemma OutputScalesWithUp(l: Layer, l1: Layer, a: real, t: nat, d: nat)
    requires l.Valid() && l1.Valid() && UpRowsScaled(l, l1, a) && t < l.tokens && d < l.hDim
    ensures l1.Output(t, d) == a * l.Output(t, d)
  {
    hide Routed, ExpertColumn, Layer.Output, Layer.Valid;
    OutputIs(l, t, d);
    OutputIs(l1, t, d);
    forall e: nat | e < l.experts ensures ExpertColumn(l1, t, e, d, l.inter) == a * ExpertColumn(l, t, e, d, l.inter) {
      ColumnScalesWithUp(l, l1, a, t, e, d, l.inter);
    }
    RoutedScales(l, l1, a, t, d, l.k);
  }

  lemma {:induction false} SameProjection(l: Layer, l1: Layer, t: nat, e: nat, n: nat, h: nat)
    requires l.Valid() && l1.Valid() && l1 == l.(silu := l1.silu) && t < l.tokens && e < l.experts && n < l.n2 && h <= l.hDim
    ensures Projected(l1, t, e, n, h) == Projected(l, t, e, n, h)
  {
    hide TokenOf;
    if h > 0 { SameProjection(l, l1, t, e, n, h - 1); }
  }

  lemma {:induction false} ColumnScalesWithSilu(l: Layer, l1: Layer, a: real, t: nat, e: nat, d: nat, i: nat)
    requires l.Valid() && l1.Valid() && l1 == l.(silu := l1.silu) && forall x :: l1.silu(x) == a * l.silu(x)
    requires t < l.tokens && e < l.experts && d < l.hDim && i <= l.inter
    ensures ExpertColumn(l1, t, e, d, i) == a * ExpertColumn(l, t, e, d, i)
  {
    hide TokenOf, Projected;
    if i > 0 {
      ColumnScalesWithSilu(l, l1, a, t, e, d, i - 1);
      SameProjection(l, l1, t, e, i - 1, l.hDim);
      SameProjection(l, l1, t, e, l.inter + (i - 1), l.hDim);
      var gate, up, w := Projected(l, t, e, i - 1, l.hDim), Projected(l, t, e, l.inter + (i - 1), l.hDim), l.w2[e][d][i - 1];
      ScaledTerm(l.silu(gate), up, a);
      ScaledTerm(l.silu(gate) * up, w, a);
      ScaledSum(ExpertColumn(l, t, e, d, i - 1), l.silu(gate) * up * w, a);
    }
  }

  /** The gate enters through `silu` alone: multiplying `silu` multiplies the output, and without it
      nothing is left. */
  lemma OutputScalesWithSilu(l: Layer, l1: Layer, a: real, t: nat, d: nat)
    requires l.Valid() && l1 == l.(silu := l1.silu) && (forall x :: l1.silu(x) == a * l.silu(x)) && t < l.tokens && d < l.hDim
    ensures l1.Valid() && l1.Output(t, d) == a * l.Output(t, d)
    ensures a == 0.0 ==> l1.Output(t, d) == 0.0
  {
    hide Routed, ExpertColumn, Layer.Output, TokenOf;
    assert l1.Valid();
    OutputIs(l, t, d);
    OutputIs(l1, t, d);
    forall e: nat | e < l.experts ensures ExpertColumn(l1, t, e, d, l.inter) == a * ExpertColumn(l, t, e, d, l.inter) {
      ColumnScalesWithSilu(l, l1, a, t, e, d, l.inter);
    }
    RoutedScales(l, l1, a, t, d, l.k);
  }
}
