/** Accepting and rejecting drafts (src/einf/executors/torch/speculative.py).

    Greedy verification keeps exactly what greedy decoding would have produced; sampling keeps
    the target's distribution exactly.  The rows of a batch are independent, so one row is
    modelled. */
module DraftVerification {
  import opened Base
  import opened GreedyDecoding

  // ------------------------------------------------------------------- greedy

  /** How many drafts the sequential scan accepts. */
  function Accepted(draft: seq<Token>, picks: seq<Token>): (n: nat)
    requires |picks| > |draft|
    ensures n <= |draft|
    ensures forall i :: 0 <= i < n ==> draft[i] == picks[i]
    ensures n < |draft| ==> draft[n] != picks[n]
    decreases |draft|
  {
    if draft == [] || draft[0] != picks[0] then 0 else 1 + Accepted(draft[1..], picks[1..])
  }

  /** A row of accepted tokens, padded with -1. */
  function Padded(tokens: seq<Token>, width: nat): seq<Token> {
    tokens + seq(Max(0, width - |tokens|), _ => -1)
  }

  function Matches(draft: seq<Token>, picks: seq<Token>): seq<nat>
    requires |picks| > |draft|
  {
    seq(|draft|, i requires 0 <= i < |draft| => if draft[i] == picks[i] then 1 else 0)
  }

  function CumProd(s: seq<nat>, before: nat): seq<nat> {
    if s == [] then [] else [before * s[0]] + CumProd(s[1..], before * s[0])
  }

  function Sum(s: seq<nat>): nat {
    if s == [] then 0 else s[0] + Sum(s[1..])
  }

  lemma {:induction false} CumProdOfZero(s: seq<nat>)
    ensures Sum(CumProd(s, 0)) == 0
  {
    if s != [] { CumProdOfZero(s[1..]); }
  }

  /** The cumulative product of the match flags sums to the length of the scan. */
  lemma {:induction false} CumProdIsScan(draft: seq<Token>, picks: seq<Token>)
    requires |picks| > |draft|
    ensures Sum(CumProd(Matches(draft, picks), 1)) == Accepted(draft, picks)
    decreases |draft|
  {
    if draft != [] {
      var m := Matches(draft, picks);
      assert m[1..] == Matches(draft[1..], picks[1..]);
      if draft[0] == picks[0] {
        CumProdIsScan(draft[1..], picks[1..]);
      } else {
        CumProdOfZero(m[1..]);
      }
    }
  }

  /** The vectorised form: picks, masked by position. */
  function AcceptRejectGreedy(draft: seq<Token>, picks: seq<Token>): (r: (seq<Token>, nat))
    requires |picks| == |draft| + 1
    ensures |r.0| == |picks|
  {
    var acceptLen := Sum(CumProd(Matches(draft, picks), 1)) + 1;
    (seq(|picks|, i requires 0 <= i < |picks| => if i < acceptLen then picks[i] else -1), acceptLen)
  }

  /** The reference: a scan that copies drafts and then appends the correction or the bonus. */
  method AcceptRejectGreedyReference(draft: seq<Token>, picks: seq<Token>) returns (out: seq<Token>, accepted: nat)
    requires |picks| == |draft| + 1
    ensures accepted == Accepted(draft, picks) + 1
    ensures out == Padded(draft[..accepted - 1] + [picks[accepted - 1]], |picks|)
  {
    out := seq(|picks|, _ => -1);
    var l := 0;
    while l < |draft| && draft[l] == picks[l]
      invariant 0 <= l <= |draft| && |out| == |picks|
      invariant forall i :: 0 <= i < |out| ==> out[i] == if i < l then draft[i] else -1
      invariant forall i :: 0 <= i < l ==> draft[i] == picks[i]
    {
      out := out[l := draft[l]];
      l := l + 1;
    }
    out := out[l := picks[l]];
    AcceptedIs(draft, picks, l);
    return out, l + 1;
  }

  lemma {:induction false} AcceptedIs(draft: seq<Token>, picks: seq<Token>, l: nat)
    requires |picks| > |draft| && l <= |draft|
    requires forall i :: 0 <= i < l ==> draft[i] == picks[i]
    requires l < |draft| ==> draft[l] != picks[l]
    ensures Accepted(draft, picks) == l
    decreases |draft|
  {
    if l > 0 { AcceptedIs(draft[1..], picks[1..], l - 1); }
  }

  /** Both forms return the same row: the accepted drafts and one more pick. */
  lemma GreedyFormsAgree(draft: seq<Token>, picks: seq<Token>)
    requires |picks| == |draft| + 1
    ensures var n := Accepted(draft, picks);
            && AcceptRejectGreedy(draft, picks) == (Padded(picks[..n + 1], |picks|), n + 1)
            && picks[..n + 1] == draft[..n] + [picks[n]]
  {
    hide CumProd, Sum, Matches, Accepted;
    CumProdIsScan(draft, picks);
    var n := Accepted(draft, picks);
    MaskedIsPadded(picks, n + 1);
    assert draft[..n] == picks[..n];
  }

  lemma MaskedIsPadded(picks: seq<Token>, n: nat)
    requires n <= |picks|
    ensures seq(|picks|, i requires 0 <= i < |picks| => if i < n then picks[i] else -1) == Padded(picks[..n], |picks|)
  {
  }

  /** Every row scores its slot as the target would, given the drafts before it. */
  ghost predicate Scores(model: Model, ctx: seq<Token>, draft: seq<Token>, picks: seq<Token>)
    requires ctx != []
  {
    && |picks| == |draft| + 1
    && forall i :: 0 <= i <= |draft| ==> picks[i] == NextToken(model, ctx + draft[..i])
  }

  /** Greedy verification is lossless: whatever was drafted, what is kept is the next tokens of
      plain greedy decoding. */
  lemma {:induction false} GreedyKeepsStream(model: Model, ctx: seq<Token>, draft: seq<Token>, picks: seq<Token>)
    requires ctx != [] && Scores(model, ctx, draft, picks)
    ensures var n := Accepted(draft, picks); picks[..n + 1] == Stream(model, ctx, n + 1)
    decreases |draft|
  {
    hide Stream, NextToken;
    assert ctx + draft[..0] == ctx;
    var t := picks[0];
    if draft != [] && draft[0] == t {
      forall i | 0 <= i <= |draft[1..]| ensures picks[1..][i] == NextToken(model, ctx + [t] + draft[1..][..i]) {
        assert ctx + [t] + draft[1..][..i] == ctx + draft[..i + 1];
      }
      GreedyKeepsStream(model, ctx + [t], draft[1..], picks[1..]);
      var n := Accepted(draft, picks);
      StreamStep(model, ctx, n);
      assert picks[..n + 1] == [t] + picks[1..][..n];
    } else {
      StreamStep(model, ctx, 0);
      StreamStep(model, ctx + [t], 0);
    }
  }

  // ----------------------------------------------------------------- sampling

  function Mass(s: seq<real>): real {
    if s == [] then 0.0 else Mass(s[..|s| - 1]) + s[|s| - 1]
  }

  ghost predicate IsDistribution(s: seq<real>) {
    && (forall i :: 0 <= i < |s| ==> s[i] >= 0.0)
    && Mass(s) == 1.0
  }

  function MinR(a: real, b: real): real { if a <= b then a else b }

  function MaxR(a: real, b: real): real { if a <= b then b else a }

  /** The chance of accepting draft `x`: that a uniform draw is below the clamped ratio. */
  function AcceptChance(d: seq<real>, p: seq<real>, x: nat): real
    requires x < |d| == |p|
  {
    if d[x] > 0.0 then MinR(p[x] / d[x], 1.0) else 0.0
  }

  function Residual(d: seq<real>, p: seq<real>): (r: seq<real>)
    requires |d| == |p|
    ensures |r| == |p|
  {
    seq(|p|, t requires 0 <= t < |p| => MaxR(p[t] - d[t], 0.0))
  }

  /** What is sampled from after a rejection: the residual, or the target where it vanishes. */
  function Correction(d: seq<real>, p: seq<real>): (r: seq<real>)
    requires |d| == |p|
    ensures |r| == |p|
  {
    if Mass(Residual(d, p)) > 0.0 then Residual(d, p) else p
  }

  /** `torch.multinomial`: weights need not sum to one. */
  function Multinomial(w: seq<real>, t: nat): real
    requires t < |w|
  {
    if Mass(w) == 0.0 then 0.0 else w[t] / Mass(w)
  }

  /** The chance that a slot commits `t`, summed over the first `n` tokens that may have been
      drafted for it. */
  function SlotChance(d: seq<real>, p: seq<real>, t: nat, n: nat): real
    requires n <= |d| == |p| && t < |p|
  {
    if n == 0 then 0.0
    else
      var x, a := n - 1, AcceptChance(d, p, n - 1);
      SlotChance(d, p, t, n - 1)
        + d[x] * (a * (if x == t then 1.0 else 0.0) + (1.0 - a) * Multinomial(Correction(d, p), t))
  }

  function Overlap(d: seq<real>, p: seq<real>, n: nat): real
    requires n <= |d| == |p|
  {
    if n == 0 then 0.0 else Overlap(d, p, n - 1) + MinR(d[n - 1], p[n - 1])
  }

  lemma AcceptedShare(d: seq<real>, p: seq<real>, x: nat)
    requires x < |d| == |p| && d[x] >= 0.0 && p[x] >= 0.0
    ensures d[x] * AcceptChance(d, p, x) == MinR(d[x], p[x])
    ensures 0.0 <= AcceptChance(d, p, x) <= 1.0
  {
    if d[x] > 0.0 {
      var q := p[x] / d[x];
      assert q * d[x] == p[x];
      if q <= 1.0 { assert q * d[x] <= d[x]; } else { assert q * d[x] >= d[x]; }
    }
  }

  /** Accepted drafts contribute the overlap, rejected ones the rest of the draft's mass. */
  lemma {:induction false} SlotChanceSplits(d: seq<real>, p: seq<real>, t: nat, n: nat)
    requires n <= |d| == |p| && t < |p|
    requires forall i :: 0 <= i < |d| ==> d[i] >= 0.0 && p[i] >= 0.0
    ensures SlotChance(d, p, t, n) ==
              (if t < n then MinR(d[t], p[t]) else 0.0)
                + (Mass(d[..n]) - Overlap(d, p, n)) * Multinomial(Correction(d, p), t)
  {
    hide AcceptChance, Multinomial, Correction, SlotChance, Overlap, MinR;
    SlotChanceNext(d, p, t, n);
    OverlapNext(d, p, n);
    if n > 0 {
      var x, m := n - 1, Multinomial(Correction(d, p), t);
      SlotChanceSplits(d, p, t, x);
      AcceptedShare(d, p, x);
      assert d[..n][..x] == d[..x];
      var share := MinR(d[x], p[x]);
      var term := d[x] * (AcceptChance(d, p, x) * (if x == t then 1.0 else 0.0) + (1.0 - AcceptChance(d, p, x)) * m);
      assert term == (if x == t then share else 0.0) + (d[x] - share) * m by {
        SlotTerm(d[x], AcceptChance(d, p, x), x == t, m, share);
      }
      Combine(SlotChance(d, p, t, x), term, if t < x then MinR(d[t], p[t]) else 0.0, if x == t then share else 0.0,
              Mass(d[..x]) - Overlap(d, p, x), d[x] - share, m);
    }
  }

  lemma SlotChanceNext(d: seq<real>, p: seq<real>, t: nat, n: nat)
    requires n <= |d| == |p| && t < |p|
    ensures n == 0 ==> SlotChance(d, p, t, n) == 0.0
    ensures n > 0 ==>
              SlotChance(d, p, t, n) == SlotChance(d, p, t, n - 1)
                + d[n - 1] * (AcceptChance(d, p, n - 1) * (if n - 1 == t then 1.0 else 0.0)
                              + (1.0 - AcceptChance(d, p, n - 1)) * Multinomial(Correction(d, p), t))
  {
    hide AcceptChance, Multinomial, Correction;
  }

  lemma OverlapNext(d: seq<real>, p: seq<real>, n: nat)
    requires n <= |d| == |p|
    ensures n == 0 ==> Overlap(d, p, n) == 0.0
    ensures n > 0 ==> Overlap(d, p, n) == Overlap(d, p, n - 1) + MinR(d[n - 1], p[n - 1])
  {
  }

  lemma Combine(prev: real, term: real, low: real, add: real, u: real, v: real, m: real)
    requires prev == low + u * m && term == add + v * m
    ensures prev + term == low + add + (u + v) * m
  {
  }

  lemma SlotTerm(dx: real, a: real, hit: bool, m: real, share: real)
    requires dx * a == share
    ensures dx * (a * (if hit then 1.0 else 0.0) + (1.0 - a) * m) == (if hit then share else 0.0) + (dx - share) * m
  {
    assert dx * ((1.0 - a) * m) == (dx - dx * a) * m;
    assert a * 1.0 == a && a * 0.0 == 0.0;
  }

  lemma Collect(u: real, v: real, m: real)
    ensures u * m + v * m == (u + v) * m
  {
  }

  lemma {:induction false} ResidualMass(d: seq<real>, p: seq<real>, n: nat)
    requires n <= |d| == |p|
    ensures Mass(Residual(d, p)[..n]) + Overlap(d, p, n) == Mass(p[..n])
  {
    if n > 0 {
      ResidualMass(d, p, n - 1);
      assert Residual(d, p)[..n][..n - 1] == Residual(d, p)[..n - 1];
      assert p[..n][..n - 1] == p[..n - 1];
    }
  }

  lemma {:induction false} MassBounds(s: seq<real>, t: nat)
    requires t < |s| && forall i :: 0 <= i < |s| ==> s[i] >= 0.0
    ensures Mass(s) >= s[t]
  {
    var front := s[..|s| - 1];
    if t < |front| {
      MassBounds(front, t);
    } else {
      MassNonNegative(front);
    }
  }

  lemma {:induction false} MassNonNegative(s: seq<real>)
    requires forall i :: 0 <= i < |s| ==> s[i] >= 0.0
    ensures Mass(s) >= 0.0
  {
    if s != [] { MassNonNegative(s[..|s| - 1]); }
  }

  /** Rejection sampling is exact, slot by slot: for any draft distribution, a slot commits
      each token with the target's probability. */
  lemma SlotIsExact(d: seq<real>, p: seq<real>, t: nat)
    requires IsDistribution(d) && IsDistribution(p) && |d| == |p| && t < |p|
    ensures SlotChance(d, p, t, |p|) == p[t]
  {
    hide SlotChance, AcceptChance, Overlap, Residual, Correction, Multinomial;
    var n := |p|;
    var res := Residual(d, p);
    assert d[..n] == d && p[..n] == p && res[..n] == res;
    SlotChanceSplits(d, p, t, n);
    ResidualMass(d, p, n);
    CorrectionShare(d, p, t);
    assert Mass(d) - Overlap(d, p, n) == Mass(res);
  }

  /** The residual's mass, drawn from the correction, gives each token its residual. */
  lemma CorrectionShare(d: seq<real>, p: seq<real>, t: nat)
    requires |d| == |p| && t < |p|
    ensures Mass(Residual(d, p)) * Multinomial(Correction(d, p), t) == MaxR(p[t] - d[t], 0.0)
  {
    var res := Residual(d, p);
    MassBounds(res, t);
    MassNonNegative(res);
    var m := Multinomial(Correction(d, p), t);
    if Mass(res) > 0.0 {
      assert m == res[t] / Mass(res);
      Divided(Mass(res), res[t]);
    } else {
      assert Mass(res) == 0.0 && res[t] == 0.0;
    }
  }

  lemma Divided(a: real, b: real)
    requires a != 0.0
    ensures a * (b / a) == b
  {
  }

  /** The chance that slot `t` is committed as an accepted draft, and as a correction. */
  function AcceptedAs(d: seq<real>, p: seq<real>, t: nat): real
    requires t < |d| == |p|
  {
    d[t] * AcceptChance(d, p, t)
  }

  function Rejected(d: seq<real>, p: seq<real>, n: nat): real
    requires n <= |d| == |p|
  {
    if n == 0 then 0.0 else Rejected(d, p, n - 1) + d[n - 1] * (1.0 - AcceptChance(d, p, n - 1))
  }

  lemma {:induction false} RejectedRest(d: seq<real>, p: seq<real>, n: nat)
    requires n <= |d| == |p| && forall i :: 0 <= i < |d| ==> d[i] >= 0.0 && p[i] >= 0.0
    ensures Rejected(d, p, n) == Mass(d[..n]) - Overlap(d, p, n)
  {
    hide AcceptChance;
    if n > 0 {
      RejectedRest(d, p, n - 1);
      AcceptedShare(d, p, n - 1);
      assert d[..n][..n - 1] == d[..n - 1];
      var a := AcceptChance(d, p, n - 1);
      assert d[n - 1] * (1.0 - a) == d[n - 1] - d[n - 1] * a;
    }
  }

  lemma CommittedExactly(d: seq<real>, p: seq<real>, t: nat)
    requires IsDistribution(d) && IsDistribution(p) && |d| == |p| && t < |p|
    ensures AcceptedAs(d, p, t) + Rejected(d, p, |p|) * Multinomial(Correction(d, p), t) == p[t]
  {
    hide SlotChance, AcceptChance, Overlap, Multinomial, Correction;
    SlotIsExact(d, p, t);
    SlotChanceSplits(d, p, t, |p|);
    RejectedRest(d, p, |p|);
    AcceptedShare(d, p, t);
  }

  // -------------------------------------------------------- whole sequences

  /** A language model over a finite vocabulary: a distribution for every context. */
  type Sampler = seq<Token> -> seq<real>

  ghost predicate Proper(model: Sampler, vocab: nat) {
    forall ctx :: |model(ctx)| == vocab && IsDistribution(model(ctx))
  }

  /** Sampling `s` token by token. */
  function PlainChance(target: Sampler, vocab: nat, ctx: seq<Token>, s: seq<nat>): real
    requires forall c :: |target(c)| == vocab
    requires forall i :: 0 <= i < |s| ==> s[i] < vocab
    decreases |s|
  {
    if s == [] then 1.0 else target(ctx)[s[0]] * PlainChance(target, vocab, ctx + [s[0]], s[1..])
  }

  /** Sampling `s` with `k` drafts of the current step still to be verified, each drafted from the
      ones before it: an accepted draft leads to the next slot; a rejection or the bonus ends the
      step, and the next one verifies `drafts` new ones. */
  function SpeculativeChance(target: Sampler, draft: Sampler, vocab: nat, ctx: seq<Token>, s: seq<nat>, k: nat, drafts: nat): real
    requires forall c :: |target(c)| == vocab && |draft(c)| == vocab
    requires forall i :: 0 <= i < |s| ==> s[i] < vocab
    decreases |s|
  {
    if s == [] then 1.0
    else
      var p, d, t := target(ctx), draft(ctx), s[0];
      var nextStep := SpeculativeChance(target, draft, vocab, ctx + [t], s[1..], drafts, drafts);
      if k == 0 then p[t] * nextStep
      else
        AcceptedAs(d, p, t) * SpeculativeChance(target, draft, vocab, ctx + [t], s[1..], k - 1, drafts)
          + Rejected(d, p, vocab) * Multinomial(Correction(d, p), t) * nextStep
  }

  /** Speculative sampling, step after step, produces every sequence with exactly the target's
      probability, for any draft model and any number of drafts. */
  lemma {:induction false} SamplingIsExact(target: Sampler, draft: Sampler, vocab: nat, ctx: seq<Token>, s: seq<nat>, k: nat, drafts: nat)
    requires Proper(target, vocab) && Proper(draft, vocab)
    requires forall i :: 0 <= i < |s| ==> s[i] < vocab
    ensures SpeculativeChance(target, draft, vocab, ctx, s, k, drafts) == PlainChance(target, vocab, ctx, s)
    decreases |s|
  {
    hide AcceptedAs, Rejected, Multinomial, Correction, IsDistribution;
    if s != [] {
      var p, d, t := target(ctx), draft(ctx), s[0];
      SamplingIsExact(target, draft, vocab, ctx + [t], s[1..], drafts, drafts);
      if k > 0 {
        SamplingIsExact(target, draft, vocab, ctx + [t], s[1..], k - 1, drafts);
        CommittedExactly(d, p, t);
        var rest := PlainChance(target, vocab, ctx + [t], s[1..]);
        Collect(AcceptedAs(d, p, t), Rejected(d, p, vocab) * Multinomial(Correction(d, p), t), rest);
      }
    }
  }

  // -------------------------------------------------------- the two programs

  /** The vectorised test of a draft against a uniform draw, and that of the reference. */
  predicate AcceptsVectorised(d: real, p: real, u: real)
    requires d > 0.0
  {
    u < MinR(p / d, 1.0)
  }

  predicate AcceptsReference(d: real, p: real, u: real) { u * d <= p }

  /** They agree except where the draw hits the ratio exactly; there the reference accepts, even
      a token of probability zero on a draw of zero. */
  lemma TestsAgree(d: real, p: real, u: real)
    requires d > 0.0 && p >= 0.0 && 0.0 <= u < 1.0
    ensures (AcceptsVectorised(d, p, u) <==> AcceptsReference(d, p, u)) <==> u * d != p
  {
    var q := p / d;
    assert q * d == p;
    if u < q { assert u * d < q * d; } else if q < u { assert q * d < u * d; }
  }

  /** `c` is the measure of the uniform draws that are accepted: all below it, none above. */
  ghost predicate MeasureIs(accepts: real -> bool, c: real) {
    0.0 <= c <= 1.0 && forall u :: 0.0 <= u < 1.0 ==> (u < c ==> accepts(u)) && (accepts(u) ==> u <= c)
  }

  lemma MeasureUnique(accepts: real -> bool, a: real, b: real)
    requires MeasureIs(accepts, a) && MeasureIs(accepts, b)
    ensures a == b
  {
    var u := (a + b) / 2.0;
    assert accepts(u) || !accepts(u);
  }

  predicate Accepts(reference: bool, d: real, p: real, u: real) {
    if reference then AcceptsReference(d, p, u) else d > 0.0 && AcceptsVectorised(d, p, u)
  }

  /** Either program's test accepts a draft with the clamped ratio as its chance. */
  lemma ChanceIsMeasure(reference: bool, d: seq<real>, p: seq<real>, x: nat)
    requires x < |d| == |p| && d[x] > 0.0 && p[x] >= 0.0
    ensures MeasureIs(u => Accepts(reference, d[x], p[x], u), AcceptChance(d, p, x))
  {
    var q := p[x] / d[x];
    assert q * d[x] == p[x];
    assert q >= 0.0;
    forall u | 0.0 <= u < 1.0
      ensures (u < MinR(q, 1.0) ==> Accepts(reference, d[x], p[x], u)) && (Accepts(reference, d[x], p[x], u) ==> u <= MinR(q, 1.0))
    {
      if u < q { assert u * d[x] < q * d[x]; } else if q < u { assert q * d[x] < u * d[x]; }
    }
  }

  /** The mass of drafts that are rejected when draft `i` is accepted with chance `chances[i]`. */
  function RejectedMass(d: seq<real>, chances: seq<real>, n: nat): real
    requires n <= |d| == |chances|
  {
    if n == 0 then 0.0 else RejectedMass(d, chances, n - 1) + d[n - 1] * (1.0 - chances[n - 1])
  }

  lemma {:induction false} RejectedMassIs(d: seq<real>, p: seq<real>, chances: seq<real>, n: nat)
    requires n <= |d| == |p| == |chances|
    requires forall x :: 0 <= x < |d| ==> d[x] * chances[x] == d[x] * AcceptChance(d, p, x)
    ensures RejectedMass(d, chances, n) == Rejected(d, p, n)
  {
    hide AcceptChance;
    if n > 0 {
      RejectedMassIs(d, p, chances, n - 1);
      var a, b := chances[n - 1], AcceptChance(d, p, n - 1);
      assert d[n - 1] * (1.0 - a) == d[n - 1] - d[n - 1] * a;
      assert d[n - 1] * (1.0 - b) == d[n - 1] - d[n - 1] * b;
    }
  }

  lemma NothingTimes(d: real, a: real, b: real)
    requires d == 0.0
    ensures d * a == d * b
  {
  }

  /** So both programs are exact: when `chances` measure what the program's own test accepts, the
      accepted drafts and the corrections together commit each token with the target's probability. */
  lemma ProgramsAreExact(reference: bool, d: seq<real>, p: seq<real>, chances: seq<real>, t: nat)
    requires IsDistribution(d) && IsDistribution(p) && |d| == |p| == |chances| && t < |p|
    requires forall x :: 0 <= x < |d| && d[x] > 0.0 ==> MeasureIs(u => Accepts(reference, d[x], p[x], u), chances[x])
    ensures d[t] * chances[t] + RejectedMass(d, chances, |p|) * Multinomial(Correction(d, p), t) == p[t]
  {
    hide AcceptChance, MeasureIs, Accepts, Multinomial, Correction, Mass, RejectedMass, Rejected;
    forall x | 0 <= x < |d| ensures d[x] * chances[x] == d[x] * AcceptChance(d, p, x) {
      if d[x] > 0.0 {
        ChanceIsMeasure(reference, d, p, x);
        MeasureUnique(u => Accepts(reference, d[x], p[x], u), chances[x], AcceptChance(d, p, x));
      } else {
        NothingTimes(d[x], chances[x], AcceptChance(d, p, x));
      }
    }
    RejectedMassIs(d, p, chances, |p|);
    CommittedExactly(d, p, t);
  }

  /** The slot the vectorised form stops at. */
  function StopVectorised(accept: seq<bool>): nat {
    Sum(CumProd(seq(|accept|, i requires 0 <= i < |accept| => if accept[i] then 1 else 0), 1))
  }

  /** It is the first rejected slot, as in the sequential scan. */
  lemma {:induction false} StopsAtFirstReject(accept: seq<bool>)
    ensures var n := StopVectorised(accept);
            && n <= |accept| && (forall i :: 0 <= i < n ==> accept[i]) && (n < |accept| ==> !accept[n])
  {
    if accept != [] {
      var flags := seq(|accept|, i requires 0 <= i < |accept| => if accept[i] then 1 else 0);
      assert flags[1..] == seq(|accept[1..]|, i requires 0 <= i < |accept[1..]| => if accept[1..][i] then 1 else 0);
      if accept[0] { StopsAtFirstReject(accept[1..]); } else { CumProdOfZero(flags[1..]); }
    }
  }
}
