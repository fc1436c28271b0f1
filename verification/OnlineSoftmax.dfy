/** Tiled causal attention with an online softmax
    (src/einf/executors/torch/dsl/flash_attention.py:121-133, 401-458 and
    src/einf/executors/torch/dsl/online_softmax_layout.py:108-127), over exact arithmetic. */
module OnlineSoftmax {
  import opened Base

  // ---------------------------------------------------------------- exponential

  type Exp = real -> real

  /** All that is used of the exponential. */
  ghost predicate IsExp(exp: Exp) {
    && exp(0.0) == 1.0
    && (forall a :: exp(a) > 0.0)
    && (forall a, b :: exp(a) * exp(b) == exp(a + b))
  }

  lemma ExpAdds(exp: Exp, a: real, b: real)
    requires IsExp(exp)
    ensures exp(a + b) == exp(a) * exp(b)
  {
  }

  lemma ExpPositive(exp: Exp, a: real)
    requires IsExp(exp)
    ensures exp(a) > 0.0 && exp(0.0) == 1.0
  {
  }

  // --------------------------------------------------------------------- scores

  /** A score, or the sentinel that a causal mask leaves.  The sentinel is so far below any score
      that its exponential, relative to a score, is zero; relative to itself it is one. */
  datatype Score = Masked | Val(s: real)

  predicate AtMost(a: Score, b: Score) { a.Masked? || (b.Val? && a.s <= b.s) }

  function MaxScore(a: Score, b: Score): (m: Score)
    ensures AtMost(a, m) && AtMost(b, m) && (m == a || m == b)
  {
    if AtMost(a, b) then b else a
  }

  /** `exp(score - m)`. */
  function Weight(exp: Exp, score: Score, m: Score): real {
    match m
    case Masked => 1.0
    case Val(top) => if score.Masked? then 0.0 else exp(score.s - top)
  }

  /** Raising the maximum rescales every weight by the same factor. */
  lemma Rescale(exp: Exp, score: Score, m: Score, m1: Score)
    requires IsExp(exp) && AtMost(score, m) && AtMost(m, m1)
    ensures Scaled(Weight(exp, score, m1), Weight(exp, score, m), Weight(exp, m, m1))
  {
    hide IsExp;
    if m.Val? && score.Val? {
      ExpAdds(exp, score.s - m.s, m.s - m1.s);
      assert score.s - m.s + (m.s - m1.s) == score.s - m1.s;
    }
    ExpPositive(exp, 0.0);
  }

  // ------------------------------------------------------------- running sums

  function MaxOf(scores: seq<Score>, n: nat): (m: Score)
    requires n <= |scores|
    ensures forall k :: 0 <= k < n ==> AtMost(scores[k], m)
  {
    if n == 0 then Masked else MaxScore(MaxOf(scores, n - 1), scores[n - 1])
  }

  /** The weights of the first `n` scores, summed. */
  function Denominator(exp: Exp, scores: seq<Score>, n: nat, m: Score): real
    requires n <= |scores|
  {
    if n == 0 then 0.0 else Denominator(exp, scores, n - 1, m) + Weight(exp, scores[n - 1], m)
  }

  /** The weighted sum of column `d` of the values. */
  function Numerator(exp: Exp, scores: seq<Score>, values: seq<real>, n: nat, m: Score): real
    requires n <= |scores| && n <= |values|
  {
    if n == 0 then 0.0 else Numerator(exp, scores, values, n - 1, m) + Weight(exp, scores[n - 1], m) * values[n - 1]
  }

  lemma SumsNext(exp: Exp, scores: seq<Score>, values: seq<real>, n: nat, m: Score)
    requires n < |scores| && n < |values|
    ensures Denominator(exp, scores, n + 1, m) == Denominator(exp, scores, n, m) + Weight(exp, scores[n], m)
    ensures Numerator(exp, scores, values, n + 1, m)
         == Numerator(exp, scores, values, n, m) + Weight(exp, scores[n], m) * values[n]
  {
    hide Weight;
  }

  lemma SumsStart(exp: Exp, scores: seq<Score>, values: seq<real>, m: Score)
    ensures Denominator(exp, scores, 0, m) == 0.0 && Numerator(exp, scores, values, 0, m) == 0.0
  {
  }

  lemma ScaledZero(alpha: real)
    ensures Scaled(0.0, 0.0, alpha)
  {
  }

  lemma {:induction false} RescaleSums(exp: Exp, scores: seq<Score>, values: seq<real>, n: nat, m: Score, m1: Score)
    requires IsExp(exp) && n <= |scores| && n <= |values|
    requires AtMost(m, m1) && forall k :: 0 <= k < n ==> AtMost(scores[k], m)
    ensures Scaled(Denominator(exp, scores, n, m1), Denominator(exp, scores, n, m), Weight(exp, m, m1))
    ensures Scaled(Numerator(exp, scores, values, n, m1), Numerator(exp, scores, values, n, m), Weight(exp, m, m1))
  {
    hide *;
    SumsStart(exp, scores, values, m);
    SumsStart(exp, scores, values, m1);
    ScaledZero(Weight(exp, m, m1));
    if n > 0 {
      var k := n - 1;
      RescaleSums(exp, scores, values, k, m, m1);
      Rescale(exp, scores[k], m, m1);
      SumsNext(exp, scores, values, k, m);
      SumsNext(exp, scores, values, k, m1);
      ScaledSum(Denominator(exp, scores, n, m1), Denominator(exp, scores, n, m),
                Denominator(exp, scores, k, m1), Denominator(exp, scores, k, m),
                Weight(exp, scores[k], m1), Weight(exp, scores[k], m), Weight(exp, m, m1));
      ScaledTerm(Weight(exp, scores[k], m1), Weight(exp, scores[k], m), Weight(exp, m, m1), values[k]);
      ScaledSum(Numerator(exp, scores, values, n, m1), Numerator(exp, scores, values, n, m),
                Numerator(exp, scores, values, k, m1), Numerator(exp, scores, values, k, m),
                Weight(exp, scores[k], m1) * values[k], Weight(exp, scores[k], m) * values[k], Weight(exp, m, m1));
    }
  }

  ghost predicate Scaled(x1: real, x: real, alpha: real) { x1 == x * alpha }

  lemma ScaledSum(next1: real, next: real, sum1: real, sum: real, term1: real, term: real, alpha: real)
    requires next1 == sum1 + term1 && next == sum + term
    requires Scaled(sum1, sum, alpha) && Scaled(term1, term, alpha)
    ensures Scaled(next1, next, alpha)
  {
  }

  lemma ScaledTerm(w1: real, w: real, alpha: real, v: real)
    requires Scaled(w1, w, alpha)
    ensures Scaled(w1 * v, w * v, alpha)
  {
  }

  // ----------------------------------------------------------------- reference

  /** Softmax attention over the keys that a query at position `pos` may read. */
  function VisibleWeight(exp: Exp, raw: seq<real>, pos: nat, k: nat): real
    requires k < |raw|
  {
    if k <= pos then exp(raw[k]) else 0.0
  }

  function VisibleDenominator(exp: Exp, raw: seq<real>, pos: nat, n: nat): real
    requires n <= |raw|
  {
    if n == 0 then 0.0
    else VisibleDenominator(exp, raw, pos, n - 1) + VisibleWeight(exp, raw, pos, n - 1)
  }

  function VisibleNumerator(exp: Exp, raw: seq<real>, values: seq<real>, pos: nat, n: nat): real
    requires n <= |raw| && n <= |values|
  {
    if n == 0 then 0.0
    else VisibleNumerator(exp, raw, values, pos, n - 1) + VisibleWeight(exp, raw, pos, n - 1) * values[n - 1]
  }

  /** The scores of a row once the causal mask is applied. */
  function MaskedRow(raw: seq<real>, pos: nat): (r: seq<Score>)
    ensures |r| == |raw|
  {
    seq(|raw|, k requires 0 <= k < |raw| => if k > pos then Masked else Val(raw[k]))
  }

  /** Relative to any actual maximum, the weights are the softmax's up to one common factor. */
  lemma {:induction false} WeightsAreSoftmax(exp: Exp, raw: seq<real>, values: seq<real>, pos: nat, n: nat, top: real)
    requires IsExp(exp) && n <= |raw| && n <= |values|
    ensures Scaled(Denominator(exp, MaskedRow(raw, pos), n, Val(top)), VisibleDenominator(exp, raw, pos, n), exp(-top))
    ensures Scaled(Numerator(exp, MaskedRow(raw, pos), values, n, Val(top)), VisibleNumerator(exp, raw, values, pos, n), exp(-top))
  {
    hide IsExp, Weight, Scaled, MaskedRow, VisibleWeight, Denominator, Numerator, VisibleDenominator, VisibleNumerator;
    ScaledZero(exp(-top));
    SumsStart(exp, MaskedRow(raw, pos), values, Val(top));
    VisibleStart(exp, raw, values, pos);
    if n > 0 {
      var k := n - 1;
      WeightsAreSoftmax(exp, raw, values, pos, k, top);
      WeightOfKey(exp, raw, pos, k, top);
      SumsNext(exp, MaskedRow(raw, pos), values, k, Val(top));
      VisibleNext(exp, raw, values, pos, k);
      ScaledTerm(Weight(exp, MaskedRow(raw, pos)[k], Val(top)), VisibleWeight(exp, raw, pos, k), exp(-top), values[k]);
      ScaledSum(Denominator(exp, MaskedRow(raw, pos), n, Val(top)), VisibleDenominator(exp, raw, pos, n),
                Denominator(exp, MaskedRow(raw, pos), k, Val(top)), VisibleDenominator(exp, raw, pos, k),
                Weight(exp, MaskedRow(raw, pos)[k], Val(top)), VisibleWeight(exp, raw, pos, k), exp(-top));
      ScaledSum(Numerator(exp, MaskedRow(raw, pos), values, n, Val(top)), VisibleNumerator(exp, raw, values, pos, n),
                Numerator(exp, MaskedRow(raw, pos), values, k, Val(top)), VisibleNumerator(exp, raw, values, pos, k),
                Weight(exp, MaskedRow(raw, pos)[k], Val(top)) * values[k], VisibleWeight(exp, raw, pos, k) * values[k], exp(-top));
    }
  }

  lemma VisibleNext(exp: Exp, raw: seq<real>, values: seq<real>, pos: nat, k: nat)
    requires k < |raw| && k < |values|
    ensures VisibleDenominator(exp, raw, pos, k + 1) == VisibleDenominator(exp, raw, pos, k) + VisibleWeight(exp, raw, pos, k)
    ensures VisibleNumerator(exp, raw, values, pos, k + 1)
         == VisibleNumerator(exp, raw, values, pos, k) + VisibleWeight(exp, raw, pos, k) * values[k]
  {
    hide VisibleWeight;
  }

  lemma VisibleStart(exp: Exp, raw: seq<real>, values: seq<real>, pos: nat)
    ensures VisibleDenominator(exp, raw, pos, 0) == 0.0 && VisibleNumerator(exp, raw, values, pos, 0) == 0.0
  {
  }

  lemma WeightOfKey(exp: Exp, raw: seq<real>, pos: nat, k: nat, top: real)
    requires IsExp(exp) && k < |raw|
    ensures Scaled(Weight(exp, MaskedRow(raw, pos)[k], Val(top)), VisibleWeight(exp, raw, pos, k), exp(-top))
  {
    hide IsExp;
    ExpAdds(exp, raw[k], -top);
    assert raw[k] + -top == raw[k] - top;
  }

  lemma {:induction false} VisiblePositive(exp: Exp, raw: seq<real>, pos: nat, n: nat)
    requires IsExp(exp) && n <= |raw|
    ensures VisibleDenominator(exp, raw, pos, n) >= 0.0
    ensures n > 0 ==> VisibleDenominator(exp, raw, pos, n) > 0.0
  {
    hide IsExp;
    if n > 0 {
      VisiblePositive(exp, raw, pos, n - 1);
      ExpPositive(exp, raw[n - 1]);
    }
  }

  /** Keys past the query's position add nothing. */
  lemma {:induction false} LaterKeysInvisible(exp: Exp, raw: seq<real>, values: seq<real>, pos: nat, n: nat, all: nat)
    requires pos < n <= all <= |raw| && all <= |values|
    ensures VisibleDenominator(exp, raw, pos, all) == VisibleDenominator(exp, raw, pos, n)
    ensures VisibleNumerator(exp, raw, values, pos, all) == VisibleNumerator(exp, raw, values, pos, n)
    decreases all
  {
    if n < all { LaterKeysInvisible(exp, raw, values, pos, n, all - 1); }
  }

  /** Key 0 is visible to everyone, so from the first tile on the maximum is an actual score and
      the sentinel weighs nothing. */
  lemma {:induction false} MaximumIsActual(raw: seq<real>, pos: nat, n: nat)
    requires 0 < n <= |raw|
    ensures MaxOf(MaskedRow(raw, pos), n).Val?
  {
    if n > 1 { MaximumIsActual(raw, pos, n - 1); } else { assert MaxOf(MaskedRow(raw, pos), 0) == Masked; }
  }

  lemma Quotient(a: real, b: real, c: real)
    requires b != 0.0 && c != 0.0
    ensures b * c != 0.0 && (a * c) / (b * c) == a / b
  {
    assert a / b * (b * c) == a * c;
  }

  // ------------------------------------------------------------- visible tiles

  /** `cal_num_visible_tiles`. */
  function VisibleTiles(qTile: nat, kvLen: nat, startPos: nat, blockM: Positive, blockN: Positive): nat {
    var lastQ := Span(qTile, blockM) + blockM - 1;
    CeilDiv(Min(kvLen, startPos + lastQ + 1), blockN)
  }

  /** The bound is exact: every key past the scanned tiles is in the future of every row of the
      query tile, and the last scanned tile holds a key that the last row may read. */
  lemma VisibleTilesExact(qTile: nat, kvLen: nat, startPos: nat, blockM: Positive, blockN: Positive, row: nat, key: nat)
    requires row < blockM && key < kvLen
    ensures var t := VisibleTiles(qTile, kvLen, startPos, blockM, blockN);
            && (Span(t, blockN) <= key ==> key > startPos + Span(qTile, blockM) + row)
            && t > 0 && Span(t - 1, blockN) < kvLen
            && Span(t - 1, blockN) <= startPos + Span(qTile, blockM) + blockM - 1
  {
    var end := Min(kvLen, startPos + Span(qTile, blockM) + blockM);
    CeilDivBounds(end, blockN);
  }

  /** With whole tiles the scan stays within the keys and covers what each row may read. */
  lemma ScanInRange(qTile: nat, kvTiles: nat, startPos: nat, blockM: Positive, blockN: Positive, row: nat)
    requires row < blockM && startPos + Span(qTile, blockM) + blockM <= Span(kvTiles, blockN)
    ensures var t := VisibleTiles(qTile, Span(kvTiles, blockN), startPos, blockM, blockN);
            && 0 < t <= kvTiles && Span(t, blockN) <= Span(kvTiles, blockN)
            && startPos + Span(qTile, blockM) + row < Span(t, blockN)
  {
    var kvLen := Span(kvTiles, blockN);
    var t := VisibleTiles(qTile, kvLen, startPos, blockM, blockN);
    var end := Min(kvLen, startPos + Span(qTile, blockM) + blockM);
    CeilDivBounds(end, blockN);
    if t > kvTiles { SpanMono(kvTiles, t - 1, blockN); }
    SpanMono(t, kvTiles, blockN);
  }

  // ------------------------------------------------------------------ the loop

  /** The online state of a row: running maximum, denominator and one numerator per column. */
  datatype RowState = RowState(m: Score, l: real, o: seq<real>)

  /** The state stands for the first `n` scores of the row. */
  ghost predicate StandsFor(exp: Exp, st: RowState, scores: seq<Score>, columns: seq<seq<real>>, n: nat) {
    && n <= |scores| && |st.o| == |columns|
    && st.m == MaxOf(scores, n)
    && st.l == Denominator(exp, scores, n, st.m)
    && forall d :: 0 <= d < |columns| ==> n <= |columns[d]| && st.o[d] == Numerator(exp, scores, columns[d], n, st.m)
  }

  /** `_online_softmax_update` on one row of a tile. */
  method OnlineSoftmaxUpdate(exp: Exp, tile: seq<Score>, m: Score, l: real) returns (m1: Score, l1: real, alpha: real)
    ensures m1 == MaxScore(MaxOf(tile, |tile|), m)
    ensures l1 == l * alpha + Denominator(exp, tile, |tile|, m1) && alpha == Weight(exp, m, m1)
  {
    var mt, lt := Masked, 0.0;
    for c := 0 to |tile|
      invariant mt == MaxOf(tile, c)
    {
      mt := MaxScore(mt, tile[c]);
    }
    m1 := MaxScore(mt, m);
    for c := 0 to |tile|
      invariant lt == Denominator(exp, tile, c, m1)
    {
      lt := lt + Weight(exp, tile[c], m1);
    }
    alpha := Weight(exp, m, m1);
    l1 := l * alpha + lt;
  }

  /** `P @ V` for one row and one column of the tile. */
  method DotColumn(exp: Exp, tile: seq<Score>, m: Score, values: seq<real>) returns (sum: real)
    requires |values| == |tile|
    ensures sum == Numerator(exp, tile, values, |tile|, m)
  {
    sum := 0.0;
    for k := 0 to |tile|
      invariant sum == Numerator(exp, tile, values, k, m)
    {
      sum := sum + Weight(exp, tile[k], m) * values[k];
    }
  }

  lemma {:induction false} MaxOfTiles(scores: seq<Score>, n: nat, w: nat)
    requires n + w <= |scores|
    ensures AtMost(MaxOf(scores, n), MaxOf(scores, n + w)) && AtMost(MaxOf(scores[n..n + w], w), MaxOf(scores, n + w))
    ensures MaxOf(scores, n + w) == MaxScore(MaxOf(scores[n..n + w], w), MaxOf(scores, n))
            || MaxOf(scores, n + w) == MaxScore(MaxOf(scores, n), MaxOf(scores[n..n + w], w))
    decreases w
  {
    if w > 0 {
      MaxOfTiles(scores, n, w - 1);
      MaxOfPrefix(scores[n..n + w - 1], scores[n..n + w], w - 1);
    }
  }

  lemma {:induction false} MaxOfPrefix(s: seq<Score>, t: seq<Score>, n: nat)
    requires n <= |s| && n <= |t| && forall k :: 0 <= k < n ==> s[k] == t[k]
    ensures MaxOf(s, n) == MaxOf(t, n)
  {
    if n > 0 { MaxOfPrefix(s, t, n - 1); }
  }

  lemma {:induction false} SumsOfTiles(exp: Exp, scores: seq<Score>, values: seq<real>, n: nat, w: nat, m: Score)
    requires n + w <= |scores| && n + w <= |values|
    ensures Denominator(exp, scores, n + w, m)
         == Denominator(exp, scores, n, m) + Denominator(exp, scores[n..n + w], w, m)
    ensures Numerator(exp, scores, values, n + w, m)
         == Numerator(exp, scores, values, n, m) + Numerator(exp, scores[n..n + w], values[n..n + w], w, m)
    decreases w
  {
    hide Weight;
    if w > 0 {
      SumsOfTiles(exp, scores, values, n, w - 1, m);
      SumsOfPrefix(exp, scores[n..n + w - 1], scores[n..n + w], values[n..n + w - 1], values[n..n + w], w - 1, m);
    }
  }

  lemma {:induction false} SumsOfPrefix(exp: Exp, s: seq<Score>, t: seq<Score>, v: seq<real>, w: seq<real>, n: nat, m: Score)
    requires n <= |s| && n <= |t| && n <= |v| && n <= |w|
    requires forall k :: 0 <= k < n ==> s[k] == t[k] && v[k] == w[k]
    ensures Denominator(exp, s, n, m) == Denominator(exp, t, n, m)
    ensures Numerator(exp, s, v, n, m) == Numerator(exp, t, w, n, m)
  {
    hide Weight;
    if n > 0 { SumsOfPrefix(exp, s, t, v, w, n - 1, m); }
  }

  /** One tile, folded into a row's state. */
  lemma TileFolds(exp: Exp, scores: seq<Score>, values: seq<real>, n: nat, w: nat)
    requires IsExp(exp) && n + w <= |scores| && n + w <= |values|
    ensures var m, m1, tile := MaxOf(scores, n), MaxOf(scores, n + w), scores[n..n + w];
            && m1 == MaxScore(MaxOf(tile, w), m)
            && Denominator(exp, scores, n + w, m1)
                 == Denominator(exp, scores, n, m) * Weight(exp, m, m1) + Denominator(exp, tile, w, m1)
            && Numerator(exp, scores, values, n + w, m1)
                 == Numerator(exp, scores, values, n, m) * Weight(exp, m, m1) + Numerator(exp, tile, values[n..n + w], w, m1)
  {
    hide IsExp, Weight, Denominator, Numerator;
    var m, m1 := MaxOf(scores, n), MaxOf(scores, n + w);
    MaxOfTiles(scores, n, w);
    RescaleSums(exp, scores, values, n, m, m1);
    SumsOfTiles(exp, scores, values, n, w, m1);
  }

  /** A row's step of the KV loop: mask, fold the tile into maximum and denominator, rescale the
      numerators and add the tile's share. */
  method StepRow(exp: Exp, tile: seq<Score>, columns: seq<seq<real>>, st: RowState,
                 ghost scores: seq<Score>, ghost all: seq<seq<real>>, ghost n: nat)
    returns (st1: RowState)
    requires IsExp(exp) && StandsFor(exp, st, scores, all, n)
    requires n + |tile| <= |scores| && tile == scores[n..n + |tile|] && |columns| == |all|
    requires forall d :: 0 <= d < |all| ==> n + |tile| <= |all[d]| && columns[d] == all[d][n..n + |tile|]
    ensures StandsFor(exp, st1, scores, all, n + |tile|)
  {
    hide IsExp, Weight, Denominator, Numerator, MaxOf;
    var m1, l1, alpha := OnlineSoftmaxUpdate(exp, tile, st.m, st.l);
    ghost var none: seq<real> := seq(n + |tile|, _ => 0.0);
    TileFolds(exp, scores, none, n, |tile|);
    var o: seq<real> := [];
    for d := 0 to |columns|
      invariant |o| == d
      invariant forall e :: 0 <= e < d ==> o[e] == Numerator(exp, scores, all[e], n + |tile|, m1)
    {
      var share := DotColumn(exp, tile, m1, columns[d]);
      TileFolds(exp, scores, all[d], n, |tile|);
      o := o + [st.o[d] * alpha + share];
    }
    st1 := RowState(m1, l1, o);
  }

  /** Attention for one query row of a query tile: the KV loop over the visible tiles, then the
      division.  It equals causal softmax attention over all keys. */
  method AttendRow(exp: Exp, raw: seq<real>, columns: seq<seq<real>>, qTile: nat, row: nat, startPos: nat,
                   blockM: Positive, blockN: Positive, qTiles: nat, kvTiles: nat)
    returns (out: seq<real>)
    requires IsExp(exp) && qTile < qTiles && row < blockM
    requires |raw| == Span(kvTiles, blockN) && forall d :: 0 <= d < |columns| ==> |columns[d]| == |raw|
    requires startPos + Span(qTiles, blockM) == |raw|
    ensures var pos := startPos + Span(qTile, blockM) + row;
            && |out| == |columns|
            && VisibleDenominator(exp, raw, pos, |raw|) > 0.0
            && forall d :: 0 <= d < |columns| ==>
                 out[d] == VisibleNumerator(exp, raw, columns[d], pos, |raw|) / VisibleDenominator(exp, raw, pos, |raw|)
  {
    hide IsExp, Weight, Denominator, Numerator, MaxOf, VisibleNumerator, VisibleDenominator, MaskedRow;
    SpanMono(qTile + 1, qTiles, blockM);
    var pos := startPos + Span(qTile, blockM) + row;
    var numTiles := VisibleTiles(qTile, |raw|, startPos, blockM, blockN);
    ScanInRange(qTile, kvTiles, startPos, blockM, blockN, row);
    ghost var scores := MaskedRow(raw, pos);
    var st := RowState(Masked, 0.0, seq(|columns|, _ => 0.0));
    StartStands(exp, st, scores, columns);
    var n := 0;
    for kv := 0 to numTiles
      invariant n == Span(kv, blockN) && StandsFor(exp, st, scores, columns, n)
    {
      SpanMono(kv + 1, numTiles, blockN);
      var tile := seq(blockN, c requires 0 <= c < blockN => if n + c > pos then Masked else Val(raw[n + c]));
      MaskedTile(raw, pos, n, tile);
      var part := seq(|columns|, d requires 0 <= d < |columns| => columns[d][n..n + blockN]);
      st := StepRow(exp, tile, part, st, scores, columns, n);
      n := n + blockN;
    }
    out := [];
    VisiblePositive(exp, raw, pos, |raw|);
    for d := 0 to |columns|
      invariant |out| == d
      invariant forall e :: 0 <= e < d ==>
                  out[e] == VisibleNumerator(exp, raw, columns[e], pos, |raw|) / VisibleDenominator(exp, raw, pos, |raw|)
    {
      FinishColumn(exp, raw, columns[d], pos, n, st.m, st.l, st.o[d]);
      out := out + [st.o[d] / st.l];
    }
  }

  lemma StartStands(exp: Exp, st: RowState, scores: seq<Score>, columns: seq<seq<real>>)
    requires st == RowState(Masked, 0.0, seq(|columns|, _ => 0.0))
    ensures StandsFor(exp, st, scores, columns, 0)
  {
  }

  lemma MaskedTile(raw: seq<real>, pos: nat, n: nat, tile: seq<Score>)
    requires n + |tile| <= |raw|
    requires forall c :: 0 <= c < |tile| ==> tile[c] == if n + c > pos then Masked else Val(raw[n + c])
    ensures tile == MaskedRow(raw, pos)[n..n + |tile|]
  {
  }

  /** The common factor cancels in the division, and the keys not scanned add nothing. */
  lemma FinishColumn(exp: Exp, raw: seq<real>, values: seq<real>, pos: nat, n: nat, m: Score, l: real, o: real)
    requires IsExp(exp) && pos < n <= |raw| == |values| && m == MaxOf(MaskedRow(raw, pos), n)
    requires l == Denominator(exp, MaskedRow(raw, pos), n, m) && o == Numerator(exp, MaskedRow(raw, pos), values, n, m)
    ensures l != 0.0 && VisibleDenominator(exp, raw, pos, |raw|) != 0.0
    ensures o / l == VisibleNumerator(exp, raw, values, pos, |raw|) / VisibleDenominator(exp, raw, pos, |raw|)
  {
    hide IsExp, Denominator, Numerator, VisibleNumerator, VisibleDenominator, MaskedRow, MaxOf;
    MaximumIsActual(raw, pos, n);
    WeightsAreSoftmax(exp, raw, values, pos, n, m.s);
    LaterKeysInvisible(exp, raw, values, pos, n, |raw|);
    VisiblePositive(exp, raw, pos, n);
    ExpPositive(exp, -m.s);
    Quotient(VisibleNumerator(exp, raw, values, pos, n), VisibleDenominator(exp, raw, pos, n), exp(-m.s));
  }
}
