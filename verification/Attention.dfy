/** What a causal model keeps in a cache slot, and what it would keep for a context alone. */
module Attention {
  import opened Base

  /** The keys and values in a slot, as a free term: the token computed there and everything its
      attention read before it.  Terms that are equal are equal under every model. */
  datatype Kv = Cell(token: Token, before: seq<Kv>) | Uninitialised(bits: nat)

  type Memory = nat -> Kv

  /** What a forward pass over `ctx` alone leaves at position `p`. */
  function Ideal(ctx: seq<Token>, p: nat): Kv
    requires p < |ctx|
    decreases p
  {
    Cell(ctx[p], IdealUpTo(ctx, p))
  }

  function IdealUpTo(ctx: seq<Token>, n: nat): seq<Kv>
    requires n <= |ctx|
    decreases n, 0
  {
    if n == 0 then [] else IdealUpTo(ctx, n - 1) + [Ideal(ctx, n - 1)]
  }

  lemma {:induction false} IdealOfPrefix(s: seq<Token>, t: seq<Token>, n: nat, p: nat)
    requires n <= |s| && n <= |t| && s[..n] == t[..n]
    ensures p < n ==> Ideal(s, p) == Ideal(t, p)
    ensures p <= n ==> IdealUpTo(s, p) == IdealUpTo(t, p)
    decreases p
  {
    if p > 0 {
      IdealOfPrefix(s, t, n, p - 1);
    }
    if p < n { assert s[p] == s[..n][p] == t[..n][p] == t[p]; }
  }

  lemma {:induction false} IdealUpToElements(ctx: seq<Token>, n: nat)
    requires n <= |ctx|
    ensures |IdealUpTo(ctx, n)| == n
    ensures forall p :: 0 <= p < n ==> IdealUpTo(ctx, n)[p] == Ideal(ctx, p)
  {
    if n > 0 { IdealUpToElements(ctx, n - 1); }
  }

  /** A longer context begins with what a shorter one leaves. */
  lemma IdealExtends(ctx: seq<Token>, more: seq<Token>, n: nat)
    requires n <= |ctx|
    ensures IdealUpTo(ctx + more, n) == IdealUpTo(ctx, n)
    ensures n < |ctx| ==> Ideal(ctx + more, n) == Ideal(ctx, n)
  {
    assert (ctx + more)[..|ctx|] == ctx == ctx[..|ctx|];
    IdealOfPrefix(ctx + more, ctx, |ctx|, n);
  }
}
