/** Walking the verified tree (src/einf/executors/torch/spec_tree.py:179-212, 248-288) and
    moving the accepted path's cells (291-315). */
module TreeWalks {
  import opened Attention
  import opened Base
  import opened DraftVerification
  import opened GreedyDecoding
  import opened TreeSpecs

  // ----------------------------------------------------------------- children

  lemma {:induction false} ChildrenFromAre(t: Tree, u: int, i: nat)
    requires i <= |t.parents|
    ensures forall c :: c in t.ChildrenFrom(u, i) <==> i <= c < |t.parents| && t.parents[c] == u
    decreases |t.parents| - i
  {
    if i < |t.parents| { ChildrenFromAre(t, u, i + 1); }
  }

  /** The first of `kids` that holds `token`: `next((c for c in kids ...), None)`. */
  function FirstWith(t: Tree, kids: seq<nat>, token: Token): Option<nat> {
    if kids == [] then None
    else if kids[0] < |t.tokens| && t.tokens[kids[0]] == token then Some(kids[0])
    else FirstWith(t, kids[1..], token)
  }

  lemma {:induction false} FirstWithMeans(t: Tree, kids: seq<nat>, token: Token)
    ensures var c := FirstWith(t, kids, token);
            && (c.Some? ==> c.value in kids && c.value < |t.tokens| && t.tokens[c.value] == token)
            && (c.None? ==> forall k :: k in kids && k < |t.tokens| ==> t.tokens[k] != token)
  {
    if kids != [] { FirstWithMeans(t, kids[1..], token); }
  }

  lemma MatchIs(t: Tree, u: int, token: Token)
    requires TreeOk(t)
    ensures var c := FirstWith(t, t.Children(u), token);
            c.Some? ==> u < c.value < |t.tokens| && t.parents[c.value] == u && t.tokens[c.value] == token
  {
    ChildrenFromAre(t, u, 0);
    FirstWithMeans(t, t.Children(u), token);
  }

  // ---------------------------------------------------------------------- walk

  /** Follow, from node `u`, whatever row `1 + u` picks, as long as some child holds it. */
  function Walk(t: Tree, picks: seq<Token>, u: int): (seq<nat>, seq<Token>)
    requires TreeOk(t) && |picks| == t.TotalQ() && -1 <= u < |t.tokens|
    decreases |t.tokens| - u
  {
    var predicted := picks[u + 1];
    var match_ := FirstWith(t, t.Children(u), predicted);
    MatchIs(t, u, predicted);
    if match_.None? then ([], [predicted])
    else
      var (path, committed) := Walk(t, picks, match_.value);
      ([match_.value] + path, [predicted] + committed)
  }

  /** A chain of nodes, each the parent of the next. */
  ghost predicate IsPath(t: Tree, u: int, path: seq<nat>)
    requires |t.parents| == |t.tokens|
  {
    forall i :: 0 <= i < |path| ==> PathAt(t, u, path, i)
  }

  ghost predicate PathAt(t: Tree, u: int, path: seq<nat>, i: nat)
    requires |t.parents| == |t.tokens| && i < |path|
  {
    path[i] < |t.tokens| && t.parents[path[i]] == (if i == 0 then u else path[i - 1])
  }

  /** The path's nodes hold these tokens. */
  ghost predicate Spells(t: Tree, path: seq<nat>, tokens: seq<Token>) {
    |path| <= |tokens| && forall i :: 0 <= i < |path| ==> path[i] < |t.tokens| && t.tokens[path[i]] == tokens[i]
  }

  lemma SpellsLonger(t: Tree, path: seq<nat>, tokens: seq<Token>, c: nat)
    requires Spells(t, path, tokens) && c < |t.tokens|
    ensures Spells(t, [c] + path, [t.tokens[c]] + tokens)
  {
    var longer, more := [c] + path, [t.tokens[c]] + tokens;
    forall i | 0 <= i < |longer| ensures longer[i] < |t.tokens| && t.tokens[longer[i]] == more[i] {
      if i > 0 { assert longer[i] == path[i - 1] && more[i] == tokens[i - 1]; }
    }
  }

  lemma PathLonger(t: Tree, u: int, c: nat, path: seq<nat>)
    requires |t.parents| == |t.tokens| && c < |t.tokens| && t.parents[c] == u && IsPath(t, c, path)
    ensures IsPath(t, u, [c] + path)
  {
    var longer := [c] + path;
    forall i | 0 <= i < |longer| ensures PathAt(t, u, longer, i) {
      if i > 0 { assert PathAt(t, c, path, i - 1); }
    }
  }

  lemma PathShorter(t: Tree, u: int, path: seq<nat>)
    requires |t.parents| == |t.tokens| && path != [] && IsPath(t, u, path)
    ensures IsPath(t, u, path[..|path| - 1])
    ensures var n := |path| - 1; path[n] < |t.tokens| && t.parents[path[n]] == (if n == 0 then u else path[n - 1])
  {
    var front := path[..|path| - 1];
    assert PathAt(t, u, path, |path| - 1);
    forall i | 0 <= i < |front| ensures PathAt(t, u, front, i) {
      assert PathAt(t, u, path, i);
    }
  }

  /** No child of the last node, or of `u` if there is none, holds the token that the walk ends with. */
  ghost predicate Exhausted(t: Tree, u: int, path: seq<nat>, committed: seq<Token>)
    requires |t.parents| == |t.tokens|
  {
    && |committed| == |path| + 1
    && forall c :: 0 <= c < |t.tokens| && t.parents[c] == LastNode(u, path) ==> t.tokens[c] != committed[|path|]
  }

  function LastNode(u: int, path: seq<nat>): int { if path == [] then u else path[|path| - 1] }

  /** The tokens are what the nodes passed pick. */
  ghost predicate FromPicks(t: Tree, picks: seq<Token>, u: int, path: seq<nat>, committed: seq<Token>)
    requires |picks| == t.TotalQ() && -1 <= u < |t.tokens|
  {
    && |committed| == |path| + 1 && committed[0] == picks[1 + u]
    && forall i :: 0 <= i < |path| ==> path[i] < |t.tokens| && committed[i + 1] == picks[1 + path[i]]
  }

  /** The walk follows the tree as far as it goes: its path spells what it commits, each token is what
      the node before it picks, and after the last one there is no child to go on to. */
  lemma {:induction false} WalkGoesOn(t: Tree, picks: seq<Token>, u: int)
    requires TreeOk(t) && |picks| == t.TotalQ() && -1 <= u < |t.tokens|
    ensures var (path, committed) := Walk(t, picks, u);
            IsPath(t, u, path) && Spells(t, path, committed) && Exhausted(t, u, path, committed) && FromPicks(t, picks, u, path, committed)
    decreases |t.tokens| - u
  {
    hide IsPath, Spells, Exhausted, FromPicks;
    var predicted := picks[u + 1];
    var match_ := FirstWith(t, t.Children(u), predicted);
    MatchIs(t, u, predicted);
    if match_.Some? {
      var c := match_.value;
      WalkGoesOn(t, picks, c);
      var (path, committed) := Walk(t, picks, c);
      PathLonger(t, u, c, path);
      SpellsLonger(t, path, committed, c);
      WalkLonger(t, picks, u, c, path, committed);
    } else {
      WalkEnds(t, picks, u);
    }
  }

  lemma WalkLonger(t: Tree, picks: seq<Token>, u: int, c: nat, path: seq<nat>, committed: seq<Token>)
    requires |t.parents| == |t.tokens| && |picks| == t.TotalQ() && -1 <= u < |t.tokens| && c < |t.tokens|
    requires Exhausted(t, c, path, committed) && FromPicks(t, picks, c, path, committed)
    ensures Exhausted(t, u, [c] + path, [picks[u + 1]] + committed) && FromPicks(t, picks, u, [c] + path, [picks[u + 1]] + committed)
  {
    var longer, more := [c] + path, [picks[u + 1]] + committed;
    assert LastNode(u, longer) == LastNode(c, path) && more[|longer|] == committed[|path|];
    forall i | 0 <= i < |longer| ensures longer[i] < |t.tokens| && more[i + 1] == picks[1 + longer[i]] {
      if i > 0 { assert longer[i] == path[i - 1] && more[i + 1] == committed[i]; }
    }
  }

  lemma WalkEnds(t: Tree, picks: seq<Token>, u: int)
    requires TreeOk(t) && |picks| == t.TotalQ() && -1 <= u < |t.tokens| && FirstWith(t, t.Children(u), picks[u + 1]).None?
    ensures IsPath(t, u, []) && Spells(t, [], [picks[u + 1]])
    ensures Exhausted(t, u, [], [picks[u + 1]]) && FromPicks(t, picks, u, [], [picks[u + 1]])
  {
    ChildrenFromAre(t, u, 0);
    FirstWithMeans(t, t.Children(u), picks[u + 1]);
  }

  /** With different tokens below each node, that fixes the path: any other that spells a beginning of
      the committed tokens is a beginning of it. */
  lemma {:induction false} PathIsLongest(t: Tree, path: seq<nat>, committed: seq<Token>, other: seq<nat>)
    requires TreeOk(t) && IsPath(t, -1, path) && Spells(t, path, committed) && Exhausted(t, -1, path, committed)
    requires forall j, k :: 0 <= j < k < |t.tokens| && t.parents[j] == t.parents[k] ==> t.tokens[j] != t.tokens[k]
    requires IsPath(t, -1, other) && Spells(t, other, committed)
    ensures other <= path
    decreases |other|
  {
    if other != [] {
      var n := |other| - 1;
      var front := other[..n];
      PathShorter(t, -1, other);
      PathIsLongest(t, path, committed, front);
      assert PathAt(t, -1, other, n);
      if n < |path| { assert PathAt(t, -1, path, n); }
      assert n > 0 ==> other[n - 1] == front[n - 1] == path[n - 1];
    }
  }

  /** The committed tokens but the last stand on a path from the root that holds every other such path,
      and no child of its end holds the last. */
  ghost predicate WalkedOut(t: Tree, committed: seq<Token>)
    requires |t.parents| == |t.tokens|
  {
    exists path :: IsPath(t, -1, path) && Spells(t, path, committed) && Exhausted(t, -1, path, committed)
                   && forall other :: IsPath(t, -1, other) && Spells(t, other, committed) ==> other <= path
  }

  lemma WalksOut(t: Tree, path: seq<nat>, committed: seq<Token>)
    requires TreeOk(t) && IsPath(t, -1, path) && Spells(t, path, committed) && Exhausted(t, -1, path, committed)
    requires forall j, k :: 0 <= j < k < |t.tokens| && t.parents[j] == t.parents[k] ==> t.tokens[j] != t.tokens[k]
    ensures WalkedOut(t, committed)
  {
    hide IsPath, Spells, Exhausted;
    forall other | IsPath(t, -1, other) && Spells(t, other, committed) ensures other <= path {
      PathIsLongest(t, path, committed, other);
    }
  }

  /** The greedy walk: at a leaf the leaf's own pick is the bonus. */
  method FindGreedyPath(t: Tree, picks: seq<Token>) returns (path: seq<nat>, committed: seq<Token>)
    requires TreeOk(t) && |picks| == t.TotalQ()
    ensures (path, committed) == Walk(t, picks, -1)
    ensures IsPath(t, -1, path) && Spells(t, path, committed)
    ensures Exhausted(t, -1, path, committed) && FromPicks(t, picks, -1, path, committed)
  {
    hide IsPath, Spells, Exhausted, FromPicks;
    WalkGoesOn(t, picks, -1);
    path, committed := [], [];
    var u, siblings := -1, t.Children(-1);
    assert path + Walk(t, picks, -1).0 == Walk(t, picks, -1).0 && committed + Walk(t, picks, -1).1 == Walk(t, picks, -1).1;
    while true
      invariant -1 <= u < |t.tokens| && siblings == t.Children(u)
      invariant var (p, c) := Walk(t, picks, u); (path + p, committed + c) == Walk(t, picks, -1)
      decreases |t.tokens| - u
    {
      ghost var before := (path, committed);
      var predicted := picks[u + 1];
      var match_ := FirstWith(t, siblings, predicted);
      MatchIs(t, u, predicted);
      if match_.None? {
        assert path + [] == path;
        committed := committed + [predicted];
        return;
      }
      var node := match_.value;
      path := path + [node];
      committed := committed + [t.tokens[node]];
      ghost var rest := Walk(t, picks, node);
      assert before.0 + ([node] + rest.0) == path + rest.0;
      assert before.1 + ([predicted] + rest.1) == committed + rest.1;
      var kids := t.Children(node);
      if kids == [] {
        committed := committed + [picks[1 + node]];
        assert path + [] == path;
        return;
      }
      u, siblings := node, kids;
    }
  }

  /** The sampling walk: every row draws from the target itself, so a row's draw stands for its
      pick. */
  method TreeVerifySampling(t: Tree, draws: seq<Token>) returns (path: seq<nat>, committed: seq<Token>)
    requires TreeOk(t) && |draws| == t.TotalQ()
    ensures (path, committed) == Walk(t, draws, -1)
    ensures IsPath(t, -1, path) && Spells(t, path, committed)
    ensures Exhausted(t, -1, path, committed) && FromPicks(t, draws, -1, path, committed)
  {
    hide IsPath, Spells, Exhausted, FromPicks;
    WalkGoesOn(t, draws, -1);
    path, committed := [], [];
    var u := -1;
    assert path + Walk(t, draws, -1).0 == Walk(t, draws, -1).0 && committed + Walk(t, draws, -1).1 == Walk(t, draws, -1).1;
    while true
      invariant -1 <= u < |t.tokens|
      invariant var (p, c) := Walk(t, draws, u); (path + p, committed + c) == Walk(t, draws, -1)
      decreases |t.tokens| - u
    {
      ghost var before := (path, committed);
      var s := draws[u + 1];
      var match_ := FirstWith(t, t.Children(u), s);
      MatchIs(t, u, s);
      if match_.None? {
        assert path + [] == path;
        committed := committed + [s];
        return;
      }
      path := path + [match_.value];
      committed := committed + [s];
      ghost var rest := Walk(t, draws, match_.value);
      assert before.0 + ([match_.value] + rest.0) == path + rest.0;
      assert before.1 + ([s] + rest.1) == committed + rest.1;
      u := match_.value;
    }
  }

  // ----------------------------------------------------------------- lossless

  /** The tokens from the top down to node `j`. */
  function PathTokens(t: Tree, j: int): seq<Token>
    decreases j
  {
    if 0 <= j < |t.tokens| && j < |t.parents| && t.parents[j] < j then PathTokens(t, t.parents[j]) + [t.tokens[j]] else []
  }

  /** The rows of a verified tree: what the model picks after each node's own path. */
  ghost predicate RowsScore(model: Model, ctx: seq<Token>, t: Tree, picks: seq<Token>)
    requires ctx != []
  {
    && |picks| == t.TotalQ()
    && forall u :: -1 <= u < |t.tokens| ==> picks[u + 1] == NextToken(model, ctx + PathTokens(t, u))
  }

  lemma {:induction false} WalkFollowsStream(model: Model, ctx: seq<Token>, t: Tree, picks: seq<Token>, u: int)
    requires ctx != [] && TreeOk(t) && RowsScore(model, ctx, t, picks) && -1 <= u < |t.tokens|
    ensures var (path, committed) := Walk(t, picks, u);
            && |committed| == |path| + 1
            && committed == Stream(model, ctx + PathTokens(t, u), |committed|)
            && IsPath(t, u, path)
            && Spells(t, path, committed)
    decreases |t.tokens| - u
  {
    hide Stream, NextToken;
    var at, predicted := ctx + PathTokens(t, u), picks[u + 1];
    var match_ := FirstWith(t, t.Children(u), predicted);
    MatchIs(t, u, predicted);
    StreamStep(model, at, 0);
    StreamStep(model, at + [predicted], 0);
    if match_.Some? {
      var c := match_.value;
      WalkFollowsStream(model, ctx, t, picks, c);
      assert ctx + PathTokens(t, c) == at + [predicted];
      var (path, committed) := Walk(t, picks, c);
      StreamStep(model, at, |committed|);
      PathLonger(t, u, c, path);
      SpellsLonger(t, path, committed, c);
    }
  }

  /** Tree decoding is lossless: for every tree, the committed tokens are the next tokens of
      plain greedy decoding, and the path is where they stand in the tree. */
  lemma TreeKeepsStream(model: Model, ctx: seq<Token>, t: Tree, picks: seq<Token>)
    requires ctx != [] && TreeOk(t) && RowsScore(model, ctx, t, picks)
    ensures var (path, committed) := Walk(t, picks, -1);
            && |committed| == |path| + 1 && committed == Stream(model, ctx, |committed|)
            && IsPath(t, -1, path)
            && Spells(t, path, committed)
  {
    WalkFollowsStream(model, ctx, t, picks, -1);
    assert ctx + PathTokens(t, -1) == ctx;
  }

  /** Node indices strictly increase along a path, and the node at depth `d` is the `d`th or
      later: it never moves forward. */
  lemma {:induction false} PathIncreases(t: Tree, u: int, path: seq<nat>)
    requires TreeOk(t) && IsPath(t, u, path) && u >= -1
    ensures forall i, j :: 0 <= i < j < |path| ==> path[i] < path[j]
    ensures forall i :: 0 <= i < |path| ==> path[i] >= u + 1 + i
  {
    if path != [] {
      var front, n := path[..|path| - 1], |path| - 1;
      PathShorter(t, u, path);
      PathIncreases(t, u, front);
      forall i | 0 <= i < n ensures path[i] < path[n] && path[i] >= u + 1 + i {
        assert front[i] == path[i] && front[n - 1] == path[n - 1];
        if i < n - 1 { assert front[i] < front[n - 1]; }
      }
      forall i, j | 0 <= i < j < |path| ensures path[i] < path[j] {
        if j < n { assert front[i] < front[j]; }
      }
      if n > 0 { assert front[n - 1] == path[n - 1] && path[n - 1] >= u + n; }
    }
  }

  lemma {:induction false} PathTokensAlong(t: Tree, path: seq<nat>, i: nat)
    requires TreeOk(t) && IsPath(t, -1, path) && i < |path|
    ensures path[i] < |t.tokens|
    ensures |PathTokens(t, path[i])| == i + 1
    ensures Spells(t, path[..i + 1], PathTokens(t, path[i]))
  {
    assert PathAt(t, -1, path, i);
    if i > 0 {
      PathTokensAlong(t, path, i - 1);
      assert forall k :: 0 <= k < i ==> path[..i][k] == path[..i + 1][k];
    } else {
      assert PathTokens(t, -1) == [];
    }
  }

  // -------------------------------------------------------------------- gather

  /** The simultaneous copy: everything is read before anything is written. */
  function Gathered(cache: seq<Kv>, src: seq<nat>, dst: seq<nat>): (r: seq<Kv>)
    requires |src| == |dst| && forall i :: 0 <= i < |src| ==> src[i] < |cache|
    ensures |r| == |cache|
  {
    seq(|cache|, p requires 0 <= p < |cache| => if p in dst then cache[src[IndexIn(dst, p)]] else cache[p])
  }

  function IndexIn(s: seq<nat>, x: nat): (k: nat)
    requires x in s
    ensures k < |s| && s[k] == x
  {
    if s[0] == x then 0 else 1 + IndexIn(s[1..], x)
  }

  /** `flat[dst] = flat[src]`. */
  method GatherCommit(cache: array<Kv>, src: seq<nat>, dst: seq<nat>)
    requires |src| == |dst| && Distinct(dst)
    requires forall i :: 0 <= i < |src| ==> src[i] < cache.Length && dst[i] < cache.Length
    modifies cache
    ensures cache[..] == Gathered(old(cache[..]), src, dst)
  {
    ghost var before := cache[..];
    forall i | 0 <= i < |src| {
      cache[dst[i]] := cache[src[i]];
    }
    forall p | 0 <= p < cache.Length ensures cache[p] == Gathered(before, src, dst)[p] {
      if p in dst {
        var k := IndexIn(dst, p);
        assert cache[dst[k]] == before[src[k]];
      } else {
        assert forall i :: 0 <= i < |dst| ==> dst[i] != p;
      }
    }
  }

  /** Slots that ascend on both sides, each copied downwards. */
  ghost predicate CollisionFree(src: seq<nat>, dst: seq<nat>) {
    && |src| == |dst|
    && (forall i, j :: 0 <= i < j < |src| ==> src[i] < src[j] && dst[i] < dst[j])
    && (forall i :: 0 <= i < |src| ==> dst[i] < src[i])
  }

  /** One slot after the other, in place and in ascending order, comes to the same as the
      simultaneous copy: no source has been overwritten when it is read. */
  method CopyAscending(cache: array<Kv>, src: seq<nat>, dst: seq<nat>)
    requires CollisionFree(src, dst) && forall i :: 0 <= i < |src| ==> src[i] < cache.Length
    modifies cache
    ensures cache[..] == Gathered(old(cache[..]), src, dst)
  {
    ghost var before := cache[..];
    for i := 0 to |src|
      invariant forall j :: 0 <= j < i ==> cache[dst[j]] == before[src[j]]
      invariant forall p :: 0 <= p < cache.Length && p !in dst[..i] ==> cache[p] == before[p]
    {
      assert src[i] !in dst[..i];
      assert dst[..i + 1] == dst[..i] + [dst[i]];
      cache[dst[i]] := cache[src[i]];
    }
    assert dst[..|src|] == dst;
    forall p | 0 <= p < cache.Length ensures cache[p] == Gathered(before, src, dst)[p] {
      if p in dst { assert cache[dst[IndexIn(dst, p)]] == before[src[IndexIn(dst, p)]]; }
    }
  }

  // ------------------------------------------------------------------ sampling

  /** The tree that a step drafts, from how far the generation is and its context. */
  type Drafting = (nat, seq<Token>) -> Tree

  /** The chance that the sampling walk, in step `round` and at node `u` of its tree, goes on to produce
      `s`: every row it reaches draws from the target; a draw that names a child descends, and any other
      ends the step, so that the next one walks from the root of a new tree. */
  function TreeChance(target: Sampler, vocab: nat, trees: Drafting, round: nat, ctx: seq<Token>, u: int, s: seq<nat>): real
    requires forall n, c :: TreeOk(trees(n, c))
    requires forall c :: |target(c)| == vocab
    requires -1 <= u < |trees(round, ctx).tokens| && forall i :: 0 <= i < |s| ==> s[i] < vocab
    decreases |s|
  {
    if s == [] then 1.0
    else
      var t := trees(round, ctx);
      var at := ctx + PathTokens(t, u);
      var match_ := FirstWith(t, t.Children(u), s[0]);
      MatchIs(t, u, s[0]);
      target(at)[s[0]] *
        if match_.Some? then TreeChance(target, vocab, trees, round, ctx, match_.value, s[1..])
        else TreeChance(target, vocab, trees, round + 1, at + [s[0]], -1, s[1..])
  }

  /** Tree sampling, step after step, follows the target's distribution, whatever trees are drafted. */
  lemma {:induction false} TreeSamplingIsExact(target: Sampler, vocab: nat, trees: Drafting, round: nat, ctx: seq<Token>, u: int, s: seq<nat>)
    requires Proper(target, vocab) && forall n, c :: TreeOk(trees(n, c))
    requires -1 <= u < |trees(round, ctx).tokens| && forall i :: 0 <= i < |s| ==> s[i] < vocab
    ensures TreeChance(target, vocab, trees, round, ctx, u, s) == PlainChance(target, vocab, ctx + PathTokens(trees(round, ctx), u), s)
    decreases |s|
  {
    hide IsDistribution;
    if s != [] {
      var t := trees(round, ctx);
      var at := ctx + PathTokens(t, u);
      var match_ := FirstWith(t, t.Children(u), s[0]);
      MatchIs(t, u, s[0]);
      if match_.Some? {
        TreeSamplingIsExact(target, vocab, trees, round, ctx, match_.value, s[1..]);
        assert ctx + PathTokens(t, match_.value) == at + [s[0]];
      } else {
        TreeSamplingIsExact(target, vocab, trees, round + 1, at + [s[0]], -1, s[1..]);
        assert at + [s[0]] + PathTokens(trees(round + 1, at + [s[0]]), -1) == at + [s[0]];
      }
    }
  }
}
