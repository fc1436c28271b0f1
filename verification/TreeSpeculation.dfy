/** Tree speculation (src/einf/executors/torch/spec_tree.py:318-648): the target verifies a whole
    tree in one masked pass over a scratch region, and the accepted path's cells are gathered
    to where they belong. */
module TreeSpeculation {
  import opened Attention
  import opened Base
  import opened ChainSpeculation
  import opened GreedyDecoding
  import opened TreeExpansion
  import opened TreeSpecs
  import opened TreeWalks

  // ------------------------------------------------------------- masked pass

  /** What a row of the mask lets a token attend to among the first `n` slots. */
  function Seen(cache: seq<Kv>, row: seq<bool>, n: nat): seq<Kv>
    requires n <= |cache| && n <= |row|
  {
    if n == 0 then [] else Seen(cache, row, n - 1) + (if row[n - 1] then [cache[n - 1]] else [])
  }

  lemma {:induction false} SeenAll(cache: seq<Kv>, row: seq<bool>, n: nat)
    requires n <= |cache| && n <= |row| && forall c :: 0 <= c < n ==> row[c]
    ensures Seen(cache, row, n) == cache[..n]
  {
    if n > 0 {
      SeenAll(cache, row, n - 1);
      assert cache[..n] == cache[..n - 1] + [cache[n - 1]];
    }
  }

  lemma {:induction false} SeenSkip(cache: seq<Kv>, row: seq<bool>, m: nat, n: nat)
    requires m <= n <= |cache| && n <= |row| && forall c :: m <= c < n ==> !row[c]
    ensures Seen(cache, row, n) == Seen(cache, row, m)
    decreases n
  {
    if m < n { SeenSkip(cache, row, m, n - 1); }
  }

  lemma {:induction false} SeenSame(cache: seq<Kv>, row: seq<bool>, row1: seq<bool>, n: nat)
    requires n <= |cache| && n <= |row| && n <= |row1| && forall c :: 0 <= c < n ==> row[c] == row1[c]
    ensures Seen(cache, row, n) == Seen(cache, row1, n)
  {
    if n > 0 { SeenSame(cache, row, row1, n - 1); }
  }

  lemma {:induction false} PathLength(t: Tree, j: nat)
    requires TreeOk(t) && j < |t.tokens|
    ensures |PathTokens(t, j)| == t.depths[j]
    decreases j
  {
    assert NodeOk(t, j);
    if t.parents[j] >= 0 { PathLength(t, t.parents[j]); } else { assert PathTokens(t, -1) == []; }
  }

  /** The cell that node `j` should leave: that of its path after the context, at its RoPE
      position. */
  function NodeCell(ctx: seq<Token>, t: Tree, j: nat): Kv
    requires TreeOk(t) && j < |t.tokens| && |ctx| == t.numHistory + 1
  {
    PathLength(t, j);
    Ideal(ctx + PathTokens(t, j), t.RopePos(j))
  }

  /** History and the pending token are cached, and the first `n` nodes. */
  ghost predicate TreeCached(cache: seq<Kv>, ctx: seq<Token>, t: Tree, n: nat)
    requires TreeOk(t)
  {
    && |ctx| == t.numHistory + 1 && t.numHistory + 1 + |t.tokens| <= |cache| && n <= |t.tokens|
    && cache[..t.numHistory + 1] == IdealUpTo(ctx, t.numHistory + 1)
    && forall k :: 0 <= k < n ==> cache[t.LogicalPos(k)] == NodeCell(ctx, t, k)
  }

  lemma RowAt(t: Tree, j: nat, width: nat, c: nat)
    requires c < t.numHistory + 1 + width
    ensures MaskRow(t, 1 + j, width)[c] == (c <= t.numHistory || Sees(t, j, c - t.numHistory - 1))
  {
  }

  /** A child sees its parent and what its parent sees. */
  lemma ChildRow(t: Tree, j: nat, width: nat)
    requires TreeOk(t) && j < |t.tokens| <= width
    ensures var h, p, row := t.numHistory, t.parents[j], MaskRow(t, 1 + j, width);
            && (forall c :: 0 <= c <= h ==> row[c])
            && (p == -1 ==> forall c :: h < c < h + 1 + j ==> !row[c])
            && (p >= 0 ==>
                  && row[h + 1 + p]
                  && (forall c :: h + 1 + p < c < h + 1 + j ==> !row[c])
                  && (forall c :: 0 <= c < h + 1 + p ==> row[c] == MaskRow(t, 1 + p, width)[c]))
  {
    hide MaskRow;
    var h, p, row := t.numHistory, t.parents[j], MaskRow(t, 1 + j, width);
    assert NodeOk(t, j);
    forall c | 0 <= c < h + 1 + j
      ensures row[c] == (c <= h || c - h - 1 in t.Ancestors(j))
    {
      RowAt(t, j, width, c);
    }
    if p >= 0 {
      AncestorsAre(t, p);
      assert t.Ancestors(j) == t.Ancestors(p) + [p as nat];
      forall c | 0 <= c < h + 1 + p ensures row[c] == MaskRow(t, 1 + p, width)[c] {
        RowAt(t, p, width, c);
      }
    }
  }

  /** No row looks ahead. */
  lemma RowsLookBack(t: Tree, j: nat, width: nat, c: nat)
    requires TreeOk(t) && j < |t.tokens| <= width && t.LogicalPos(j) < c < t.numHistory + 1 + width
    ensures !MaskRow(t, 1 + j, width)[c]
  {
    AncestorsAre(t, j);
    RowAt(t, j, width, c);
  }

  /** What a node's row shows is exactly the cells of its own path. */
  lemma {:induction false} SeenIsPath(cache: seq<Kv>, ctx: seq<Token>, t: Tree, j: nat, n: nat)
    requires TreeOk(t) && TreeCached(cache, ctx, t, n) && j <= n && j < |t.tokens|
    ensures |ctx + PathTokens(t, j)| == t.RopePos(j) + 1
    ensures Seen(cache, MaskRow(t, 1 + j, |t.tokens|), t.LogicalPos(j)) == IdealUpTo(ctx + PathTokens(t, j), t.RopePos(j))
    decreases j
  {
    hide IdealUpTo, Ideal, Seen, MaskRow;
    var h, p, row := t.numHistory, t.parents[j], MaskRow(t, 1 + j, |t.tokens|);
    PathLength(t, j);
    ChildRow(t, j, |t.tokens|);
    assert NodeOk(t, j);
    if p == -1 {
      SeenSkip(cache, row, h + 1, h + 1 + j);
      SeenAll(cache, row, h + 1);
      IdealExtends(ctx, PathTokens(t, j), h + 1);
    } else {
      var row1 := MaskRow(t, 1 + p, |t.tokens|);
      SeenSkip(cache, row, h + 2 + p, h + 1 + j);
      SeenNext(cache, row, h + 1 + p);
      SeenSame(cache, row, row1, h + 1 + p);
      SeenIsPath(cache, ctx, t, p, n);
      assert cache[t.LogicalPos(p)] == NodeCell(ctx, t, p);
      IdealNext(ctx + PathTokens(t, p), t.RopePos(p));
      assert ctx + PathTokens(t, j) == ctx + PathTokens(t, p) + [t.tokens[j]];
      IdealExtends(ctx + PathTokens(t, p), [t.tokens[j]], t.RopePos(j));
    }
  }

  lemma SeenNext(cache: seq<Kv>, row: seq<bool>, n: nat)
    requires n < |cache| && n < |row| && row[n]
    ensures Seen(cache, row, n + 1) == Seen(cache, row, n) + [cache[n]]
  {
  }

  lemma IdealNext(ctx: seq<Token>, n: nat)
    requires n < |ctx|
    ensures IdealUpTo(ctx, n + 1) == IdealUpTo(ctx, n) + [Ideal(ctx, n)]
  {
  }

  lemma NodeCellIs(cache: seq<Kv>, ctx: seq<Token>, t: Tree, j: nat, n: nat)
    requires TreeOk(t) && TreeCached(cache, ctx, t, n) && j <= n && j < |t.tokens|
    ensures Cell(t.tokens[j], Seen(cache, MaskRow(t, 1 + j, |t.tokens|), t.LogicalPos(j))) == NodeCell(ctx, t, j)
  {
    hide IdealUpTo, Seen, MaskRow;
    SeenIsPath(cache, ctx, t, j, n);
    var all := ctx + PathTokens(t, j);
    assert all[|all| - 1] == t.tokens[j];
  }

  lemma TreeCachedNext(cache: seq<Kv>, ctx: seq<Token>, t: Tree, j: nat)
    requires TreeOk(t) && TreeCached(cache, ctx, t, j) && j < |t.tokens|
    ensures TreeCached(cache[t.LogicalPos(j) := NodeCell(ctx, t, j)], ctx, t, j + 1)
  {
    hide IdealUpTo, NodeCell;
    var after := cache[t.LogicalPos(j) := NodeCell(ctx, t, j)];
    assert after[..t.numHistory + 1] == cache[..t.numHistory + 1];
  }

  /** What a token attends to besides itself, looking over its whole row. */
  function Others(cache: seq<Kv>, row: seq<bool>, own: nat): seq<Kv>
    requires own < |row| <= |cache|
  {
    Seen(cache, row[own := false], |row|)
  }

  /** The cells that one masked pass leaves, whatever the order they are computed in: each from what
      its row shows of the others. */
  ghost predicate MaskedPass(cache: seq<Kv>, t: Tree, pending: Token, mask: seq<seq<bool>>)
    requires t.TotalKv() <= |cache| && |mask| == t.TotalQ() && forall r :: 0 <= r < |mask| ==> |mask[r]| == t.TotalKv()
  {
    && cache[t.numHistory] == Cell(pending, Others(cache, mask[0], t.numHistory))
    && forall j :: 0 <= j < |t.tokens| ==>
         cache[t.LogicalPos(j)] == Cell(t.tokens[j], Others(cache, mask[1 + j], t.LogicalPos(j)))
  }

  /** No row looks ahead, so nothing that a pass computes later can show. */
  lemma OthersAreBefore(cache: seq<Kv>, t: Tree, j: nat)
    requires TreeOk(t) && j < |t.tokens| && t.TotalKv() <= |cache|
    ensures var row := MaskRow(t, 1 + j, |t.tokens|);
            Others(cache, row, t.LogicalPos(j)) == Seen(cache, row, t.LogicalPos(j))
  {
    var own, row := t.LogicalPos(j), MaskRow(t, 1 + j, |t.tokens|);
    hide MaskRow, Seen;
    forall c | own < c < |row| ensures !row[c] { RowsLookBack(t, j, |t.tokens|, c); }
    SeenSkip(cache, row[own := false], own, |row|);
    SeenSame(cache, row[own := false], row, own);
  }

  lemma PendingBeforeAll(cache: seq<Kv>, t: Tree)
    requires t.TotalKv() <= |cache|
    ensures var row := MaskRow(t, 0, |t.tokens|); Others(cache, row, t.numHistory) == Seen(cache, row, t.numHistory)
  {
    var own, row := t.numHistory, MaskRow(t, 0, |t.tokens|);
    SeenSkip(cache, row[own := false], own, |row|);
    SeenSame(cache, row[own := false], row, own);
  }

  ghost predicate MaskOf(mask: seq<seq<bool>>, t: Tree) {
    |mask| == t.TotalQ() && forall r :: 0 <= r < |mask| ==> mask[r] == MaskRow(t, r, |t.tokens|)
  }

  /** Any cache that a masked pass may leave holds, at every node, the cell of that node's own path. */
  lemma PassCachesTree(cache: seq<Kv>, ctx: seq<Token>, t: Tree, pending: Token, mask: seq<seq<bool>>)
    requires TreeOk(t) && |ctx| == t.numHistory + 1 && pending == ctx[t.numHistory] && t.TotalKv() <= |cache|
    requires cache[..t.numHistory] == IdealUpTo(ctx, t.numHistory)
    requires MaskOf(mask, t) && MaskedPass(cache, t, pending, mask)
    ensures TreeCached(cache, ctx, t, |t.tokens|)
  {
    hide IdealUpTo, Ideal, Seen, NodeCell, MaskRow, Others;
    RootCell(cache, ctx, t, mask[0]);
    PendingBeforeAll(cache, t);
    assert cache[t.numHistory := cache[t.numHistory]] == cache;
    for j := 0 to |t.tokens|
      invariant TreeCached(cache, ctx, t, j)
    {
      NodeCellIs(cache, ctx, t, j, j);
      OthersAreBefore(cache, t, j);
      TreeCachedNext(cache, ctx, t, j);
      assert cache[t.LogicalPos(j) := cache[t.LogicalPos(j)]] == cache;
    }
  }

  /** One masked pass over the pending token and all nodes, each over its whole row; `picks` are the
      rows' choices. */
  method VerifyTree(model: Model, cache: array<Kv>, t: Tree, pending: Token, mask: seq<seq<bool>>, ghost ctx: seq<Token>)
    returns (picks: seq<Token>)
    requires TreeOk(t) && |ctx| == t.numHistory + 1 && pending == ctx[t.numHistory] && t.TotalKv() <= cache.Length
    requires cache[..t.numHistory] == IdealUpTo(ctx, t.numHistory)
    requires MaskOf(mask, t)
    modifies cache
    ensures MaskedPass(cache[..], t, pending, mask) && TreeCached(cache[..], ctx, t, |t.tokens|)
    ensures |picks| == t.TotalQ() && RowsScore(model, ctx, t, picks)
  {
    hide IdealUpTo, Ideal, Seen, NodeCell, MaskRow, Others;
    var h := t.numHistory;
    ghost var before := cache[..];
    RootCell(before, ctx, t, mask[0]);
    PendingBeforeAll(before, t);
    var cell := Cell(pending, Others(cache[..], mask[0], h));
    cache[h] := cell;
    assert cache[..] == before[h := cell];
    picks := [model(cell)];
    assert PathTokens(t, -1) == [] && ctx + [] == ctx;
    for j := 0 to |t.tokens|
      invariant TreeCached(cache[..], ctx, t, j)
      invariant |picks| == j + 1
      invariant forall u :: -1 <= u < j ==> picks[u + 1] == NextToken(model, ctx + PathTokens(t, u))
    {
      before := cache[..];
      NodeCellIs(before, ctx, t, j, j);
      OthersAreBefore(before, t, j);
      TreeCachedNext(before, ctx, t, j);
      cell := Cell(t.tokens[j], Others(cache[..], mask[1 + j], t.LogicalPos(j)));
      cache[t.LogicalPos(j)] := cell;
      assert cache[..] == before[t.LogicalPos(j) := cell];
      NodePick(model, ctx, t, j);
      picks := picks + [model(cell)];
    }
    CachedIsPass(cache[..], ctx, t, pending, mask);
  }

  lemma CachedIsPass(cache: seq<Kv>, ctx: seq<Token>, t: Tree, pending: Token, mask: seq<seq<bool>>)
    requires TreeOk(t) && TreeCached(cache, ctx, t, |t.tokens|) && pending == ctx[t.numHistory] && MaskOf(mask, t)
    ensures MaskedPass(cache, t, pending, mask)
  {
    hide IdealUpTo, Ideal, Seen, NodeCell, MaskRow, Others;
    var h := t.numHistory;
    IdealNext(ctx, h);
    assert cache[..h + 1][..h] == cache[..h] && cache[..h + 1][h] == cache[h];
    IdealUpToElements(ctx, h);
    RootCell(cache, ctx, t, mask[0]);
    PendingBeforeAll(cache, t);
    forall j | 0 <= j < |t.tokens|
      ensures cache[t.LogicalPos(j)] == Cell(t.tokens[j], Others(cache, mask[1 + j], t.LogicalPos(j)))
    {
      NodeCellIs(cache, ctx, t, j, |t.tokens|);
      OthersAreBefore(cache, t, j);
    }
  }

  lemma RootCell(cache: seq<Kv>, ctx: seq<Token>, t: Tree, row: seq<bool>)
    requires TreeOk(t) && |ctx| == t.numHistory + 1 && t.TotalKv() <= |cache| && row == MaskRow(t, 0, |t.tokens|)
    requires cache[..t.numHistory] == IdealUpTo(ctx, t.numHistory)
    ensures var cell := Cell(ctx[t.numHistory], Seen(cache, row, t.numHistory));
            cell == Ideal(ctx, t.numHistory) && TreeCached(cache[t.numHistory := cell], ctx, t, 0)
  {
    var h := t.numHistory;
    SeenAll(cache, row, h);
    var cell := Cell(ctx[h], Seen(cache, row, h));
    assert cache[h := cell][..h + 1] == cache[..h] + [cell];
  }

  lemma NodePick(model: Model, ctx: seq<Token>, t: Tree, j: nat)
    requires TreeOk(t) && j < |t.tokens| && |ctx| == t.numHistory + 1
    ensures model(NodeCell(ctx, t, j)) == NextToken(model, ctx + PathTokens(t, j))
  {
    PathLength(t, j);
  }

  // ----------------------------------------------------------------- commit

  /** Where the first `n` nodes of the path are copied from and to, but for those in place. */
  function Sources(h: nat, path: seq<nat>, n: nat): seq<nat>
    requires n <= |path|
  {
    if n == 0 then [] else Sources(h, path, n - 1) + (if path[n - 1] != n - 1 then [h + 1 + path[n - 1]] else [])
  }

  function Targets(h: nat, path: seq<nat>, n: nat): seq<nat>
    requires n <= |path|
  {
    if n == 0 then [] else Targets(h, path, n - 1) + (if path[n - 1] != n - 1 then [h + n] else [])
  }

  /** The moves of a path, in ascending depth order. */
  method PathMoves(h: nat, path: seq<nat>) returns (src: seq<nat>, dst: seq<nat>)
    ensures src == Sources(h, path, |path|) && dst == Targets(h, path, |path|)
  {
    src, dst := [], [];
    for i := 0 to |path|
      invariant src == Sources(h, path, i) && dst == Targets(h, path, i)
    {
      var s, d := h + 1 + path[i], h + 1 + i;
      if s != d {
        src, dst := src + [s], dst + [d];
      }
    }
  }

  /** Slots only move down, in ascending order, and none at or below the pending token's is
      touched: so the copies cannot run into each other. */
  lemma {:induction false} MovesCollisionFree(h: nat, path: seq<nat>, n: nat)
    requires n <= |path|
    requires forall i, j :: 0 <= i < j < n ==> path[i] < path[j]
    requires forall i :: 0 <= i < n ==> i <= path[i]
    ensures CollisionFree(Sources(h, path, n), Targets(h, path, n))
    ensures forall d :: d in Targets(h, path, n) ==> h < d <= h + n
    ensures forall s :: s in Sources(h, path, n) ==> h < s && n > 0 && s <= h + 1 + path[n - 1]
  {
    if n > 0 {
      MovesCollisionFree(h, path, n - 1);
      var src, dst := Sources(h, path, n - 1), Targets(h, path, n - 1);
      if n > 1 { assert path[n - 2] < path[n - 1]; }
      if path[n - 1] != n - 1 {
        CollisionFreeNext(src, dst, h + 1 + path[n - 1], h + n);
      }
    }
  }

  lemma CollisionFreeNext(src: seq<nat>, dst: seq<nat>, s: nat, d: nat)
    requires CollisionFree(src, dst) && d < s
    requires forall x :: x in src ==> x < s
    requires forall x :: x in dst ==> x < d
    ensures CollisionFree(src + [s], dst + [d])
  {
    assert forall i :: 0 <= i < |src| ==> src[i] in src && dst[i] in dst;
  }

  lemma {:induction false} IndexInAppend(s: seq<nat>, x: nat, y: nat)
    requires x in s
    ensures IndexIn(s + [y], x) == IndexIn(s, x)
  {
    if s[0] != x {
      assert (s + [y])[1..] == s[1..] + [y];
      IndexInAppend(s[1..], x, y);
    }
  }

  /** One more copy. */
  lemma GatheredNext(cache: seq<Kv>, src: seq<nat>, dst: seq<nat>, s: nat, d: nat)
    requires |src| == |dst| && (forall i :: 0 <= i < |src| ==> src[i] < |cache|) && s < |cache| && d < |cache|
    requires d !in dst
    ensures Gathered(cache, src + [s], dst + [d]) == Gathered(cache, src, dst)[d := cache[s]]
  {
    var after, before := Gathered(cache, src + [s], dst + [d]), Gathered(cache, src, dst);
    forall p | 0 <= p < |cache| ensures after[p] == before[d := cache[s]][p] {
      if p in dst {
        IndexInAppend(dst, p, d);
      } else if p == d {
        assert (dst + [d])[|dst|] == d;
      }
    }
  }

  lemma {:induction false} MovesInRange(h: nat, path: seq<nat>, n: nat, size: nat)
    requires n <= |path| && forall i :: 0 <= i < n ==> h + 1 + path[i] < size
    ensures |Sources(h, path, n)| == |Targets(h, path, n)|
    ensures forall k :: 0 <= k < |Sources(h, path, n)| ==> Sources(h, path, n)[k] < size
    ensures forall d :: d in Targets(h, path, n) ==> d <= h + n
  {
    if n > 0 { MovesInRange(h, path, n - 1, size); }
  }

  lemma {:induction false} GatheredPath(cache: seq<Kv>, h: nat, path: seq<nat>, n: nat)
    requires n <= |path| && (forall i :: 0 <= i < n ==> i <= path[i] && h + 1 + path[i] < |cache|)
    requires |Sources(h, path, n)| == |Targets(h, path, n)|
    requires forall k :: 0 <= k < |Sources(h, path, n)| ==> Sources(h, path, n)[k] < |cache|
    ensures var after := Gathered(cache, Sources(h, path, n), Targets(h, path, n));
            && (forall i :: 0 <= i < n ==> after[h + 1 + i] == cache[h + 1 + path[i]])
            && (forall p :: 0 <= p < |cache| && (p <= h || h + n < p) ==> after[p] == cache[p])
  {
    hide Gathered;
    if n == 0 {
      GatheredNothing(cache);
    } else {
      MovesInRange(h, path, n - 1, |cache|);
      GatheredPath(cache, h, path, n - 1);
      var src, dst := Sources(h, path, n - 1), Targets(h, path, n - 1);
      assert path[n - 1] >= n - 1;
      if path[n - 1] != n - 1 {
        GatheredNext(cache, src, dst, h + 1 + path[n - 1], h + n);
      } else {
        assert Sources(h, path, n) == src && Targets(h, path, n) == dst;
      }
    }
  }

  lemma GatheredNothing(cache: seq<Kv>)
    ensures Gathered(cache, [], []) == cache
  {
  }

  lemma PathBounds(t: Tree, path: seq<nat>)
    requires TreeOk(t) && IsPath(t, -1, path)
    ensures forall i :: 0 <= i < |path| ==> i <= path[i] < |t.tokens|
    ensures forall i, j :: 0 <= i < j < |path| ==> path[i] < path[j]
    ensures |path| <= |t.tokens|
  {
    PathIncreases(t, -1, path);
    forall i | 0 <= i < |path| ensures path[i] < |t.tokens| { assert PathAt(t, -1, path, i); }
    if path != [] { assert |path| - 1 <= path[|path| - 1]; }
  }

  lemma PathCell(ctx: seq<Token>, t: Tree, path: seq<nat>, committed: seq<Token>, i: nat)
    requires TreeOk(t) && |ctx| == t.numHistory + 1 && IsPath(t, -1, path) && Spells(t, path, committed) && i < |path|
    ensures path[i] < |t.tokens|
    ensures NodeCell(ctx, t, path[i]) == Ideal(ctx + committed, t.numHistory + 1 + i)
  {
    hide IdealUpTo, Ideal;
    PathTokensAlong(t, path, i);
    PathLength(t, path[i]);
    var own := PathTokens(t, path[i]);
    forall k | 0 <= k < |own| ensures own[k] == committed[k] { assert path[..i + 1][k] == path[k]; }
    assert own == committed[..i + 1];
    IdealOfPrefix(ctx + own, ctx + committed, |ctx| + i + 1, t.numHistory + 1 + i);
  }

  /** Gathering puts the path's cells where the committed context wants them. */
  lemma GatheredFollows(cache: seq<Kv>, ctx: seq<Token>, t: Tree, path: seq<nat>, committed: seq<Token>)
    requires TreeOk(t) && TreeCached(cache, ctx, t, |t.tokens|)
    requires IsPath(t, -1, path) && Spells(t, path, committed)
    ensures |path| <= |t.tokens| && |Sources(t.numHistory, path, |path|)| == |Targets(t.numHistory, path, |path|)|
    ensures var src, dst := Sources(t.numHistory, path, |path|), Targets(t.numHistory, path, |path|);
            && (forall k :: 0 <= k < |src| ==> src[k] < |cache|)
            && var n := t.numHistory + 1 + |path|;
               Gathered(cache, src, dst)[..n] == IdealUpTo(ctx + committed, n)
  {
    hide IdealUpTo, Ideal, NodeCell, Gathered, Sources, Targets;
    PathBounds(t, path);
    var h, all := t.numHistory, ctx + committed;
    MovesInRange(h, path, |path|, |cache|);
    GatheredPath(cache, h, path, |path|);
    var n := h + 1 + |path|;
    var after := Gathered(cache, Sources(h, path, |path|), Targets(h, path, |path|));
    IdealUpToElements(all, n);
    IdealUpToElements(ctx, h + 1);
    forall p | 0 <= p < n ensures after[p] == Ideal(all, p) {
      if p <= h {
        assert cache[p] == cache[..h + 1][p];
        IdealExtends(ctx, committed, p);
      } else {
        var i := p - h - 1;
        assert after[h + 1 + i] == cache[h + 1 + path[i]] == NodeCell(ctx, t, path[i]);
        PathCell(ctx, t, path, committed, i);
      }
    }
  }

  // ------------------------------------------------------------------- engine

  class TreeSpeculativeEngine {
    const target: Track
    const draft: Track
    const drafter: Drafter
    var steps: nat

    constructor (target: Model, draft: Model, drafter: Drafter, blockLen: Positive, numBlocks: Positive)
      ensures fresh(this.target) && fresh(this.draft) && fresh(this.target.cache) && fresh(this.draft.cache)
      ensures this.target.model == target && this.drafter == drafter
      ensures Ready([])
    {
      this.target := new Track(target, numBlocks, blockLen);
      this.draft := new Track(draft, numBlocks - 1, blockLen);
      this.drafter := drafter;
      steps := 0;
      SpanMono(numBlocks - 1, numBlocks, blockLen);
    }

    ghost predicate Shape()
      reads this, target, draft
    {
      && target.Valid() && draft.Valid() && target != draft && target.cache != draft.cache
      && draft.cache.Length <= target.cache.Length
    }

    /** The target's cache holds `before`, and the draft is as far. */
    ghost predicate Ready(before: seq<Token>)
      reads this, target, draft, target.cache
    {
      Shape() && target.Holds(before) && draft.contextLen == target.contextLen
    }

    /** The target's cache holds the context but for the pending token; the draft is as far. */
    ghost predicate Follows(ctx: seq<Token>)
      reads this, target, draft, target.cache
    {
      Shape() && target.Follows(ctx) && draft.contextLen == target.contextLen && draft.pendingToken == target.pendingToken
    }

    lemma UsedIsReady(ctx: seq<Token>)
      requires Follows(ctx)
      ensures Ready(ctx[..|ctx| - 1])
    {
      hide IdealUpTo, Ideal;
      IdealOfPrefix(ctx, ctx[..|ctx| - 1], |ctx| - 1, |ctx| - 1);
    }

    method Prefill(prompt: seq<Token>, ghost before: seq<Token>) returns (first: Option<Token>)
      requires Ready(before)
      modifies target, draft, target.cache, draft.cache
      ensures first.Some? <==> prompt != [] && |before + prompt| <= draft.cache.Length
      ensures first.Some? ==>
                first.value == NextToken(target.model, before + prompt) && Follows(TakenForPrompt(before, prompt) + [first.value])
    {
      hide IdealUpTo, Ideal, Write;
      if prompt == [] {
        return None;
      }
      var ok, pick := target.Prime(prompt, before);
      if !ok {
        return None;
      }
      target.contextLen, target.pendingToken := |prompt|, pick;
      var discarded;
      ok, discarded := draft.Forward(prompt);
      if !ok {
        return None;
      }
      draft.contextLen, draft.pendingToken := |prompt|, pick;
      Retract(target.cache[..], before + prompt, TakenForPrompt(before, prompt) + [pick], |prompt|);
      return Some(pick);
    }

    /** Room for the scratch region in both caches. */
    predicate HasRoom()
      reads draft, target
    {
      && draft.contextLen + 1 + drafter.budget < draft.cache.Length
      && draft.contextLen + 1 + drafter.budget < target.cache.Length
    }

    lemma HasRoomIs(ctx: seq<Token>)
      requires Follows(ctx)
      ensures HasRoom() <==> |ctx| + drafter.budget < draft.cache.Length && |ctx| + drafter.budget < target.cache.Length
    {
    }

    /** Trees that can be masked, and room for the prefill and the last step of a generation of this
        length. */
    predicate RoomFor(prefilled: nat, total: nat) {
      && drafter.TreeSize() <= 62
      && prefilled <= draft.cache.Length
      && total + drafter.budget <= draft.cache.Length && total + drafter.budget <= target.cache.Length
    }

    /** Expand, verify, commit.  Whatever tree the draft grew, the committed tokens are the next
        ones of plain greedy decoding, and the target's cache follows them. */
    method Step(ghost ctx: seq<Token>) returns (committed: Option<seq<Token>>)
      requires Follows(ctx)
      modifies this, target, draft, target.cache
      ensures committed.Some? <==> old(HasRoom()) && drafter.TreeSize() <= 62
      ensures committed.Some? ==>
                && 0 < |committed.value| && committed.value == Stream(target.model, ctx, |committed.value|)
                && Follows(ctx + committed.value)
      ensures committed.Some? ==>
                WalkedOut(drafter.Grow(old(steps), EmptyTree(old(target.contextLen)), [None], drafter.maxDepth), committed.value)
    {
      hide IdealUpTo, Ideal, Stream, NextToken, TreeCached, RowsScore, Gathered, Sources, Targets, Drafter.Grow, Drafter.GrownSize;
      hide IsPath, Spells, Exhausted, FromPicks, WalkedOut;
      if !HasRoom() {
        return None;
      }
      var live := target.contextLen;
      var spec, ok := drafter.Expand(steps, live);
      drafter.TreeSizeWithin();
      if !ok {
        return None;
      }
      var mask := spec.BuildTreeMask();
      if mask.None? {
        return None;
      }
      var t := spec.View();
      var picks := VerifyTree(target.model, target.cache, t, target.pendingToken, mask.value, ctx);
      TreeKeepsStream(target.model, ctx, t, picks);
      var path, tokens := FindGreedyPath(t, picks);
      WalksOut(t, path, tokens);
      Commit(t, path, tokens, ctx);
      steps := steps + 1;
      return Some(tokens);
    }

    /** Gather the path's cells and advance both tracks. */
    method Commit(t: Tree, path: seq<nat>, tokens: seq<Token>, ghost ctx: seq<Token>)
      requires Shape() && TreeOk(t) && ctx != [] && t.numHistory == target.contextLen == |ctx| - 1
      requires TreeCached(target.cache[..], ctx, t, |t.tokens|)
      requires IsPath(t, -1, path) && Spells(t, path, tokens) && |tokens| == |path| + 1
      modifies target, draft, target.cache
      ensures Follows(ctx + tokens)
    {
      hide IdealUpTo, Ideal, Gathered, Sources, Targets;
      var live := target.contextLen;
      ghost var before := target.cache[..];
      GatheredFollows(before, ctx, t, path, tokens);
      PathBounds(t, path);
      MovesCollisionFree(live, path, |path|);
      var src, dst := PathMoves(live, path);
      GatherSafe(src, dst, target.cache.Length);
      GatherCommit(target.cache, src, dst);
      target.contextLen := live + 1 + |path|;
      draft.contextLen := live + 1 + |path|;
      target.pendingToken := tokens[|tokens| - 1];
      draft.pendingToken := tokens[|tokens| - 1];
    }

    method Generate(prompt: seq<Token>, maxNewLen: nat, eos: Option<Token>, ghost before: seq<Token>)
      returns (r: Option<seq<Token>>, ghost after: seq<Token>)
      requires Ready(before)
      modifies this, target, draft, target.cache, draft.cache
      ensures r.Some? ==>
                && prompt != [] && maxNewLen > 0 && Ready(after)
                && r.value == CutAtEos(ResumedStream(target.model, before, prompt, maxNewLen), eos)
      ensures r.Some? && before == [] ==> r.value == CutAtEos(Stream(target.model, prompt, maxNewLen), eos)
      ensures prompt != [] && maxNewLen > 0 && RoomFor(|before + prompt|, |prompt| + maxNewLen) ==> r.Some?
    {
      hide IdealUpTo, Ideal, Stream, ResumedStream, CutAtEos, NextToken, TakenForPrompt, TreeSpeculativeEngine.Follows, TreeSpeculativeEngine.Ready;
      hide WalkedOut, Drafter.Grow, Drafter.GrownSize;
      after := [];
      if maxNewLen < 1 {
        return None, [];
      }
      var first := Prefill(prompt, before);
      if first.None? {
        return None, [];
      }
      var generated := [first.value];
      ResumedOne(target.model, before, prompt);
      ghost var seen := TakenForPrompt(before, prompt);
      while |generated| < maxNewLen
        invariant generated != [] && Follows(seen + generated)
        invariant generated == ResumedStream(target.model, before, prompt, |generated|)
        invariant forall i :: 1 <= i < |generated| ==> Some(generated[i]) != eos
        decreases maxNewLen - |generated|
      {
        HasRoomIs(seen + generated);
        var committed := Step(seen + generated);
        if committed.None? {
          return None, [];
        }
        ghost var was := generated;
        ResumedSplit(target.model, before, prompt, |was|, |committed.value|);
        var stop;
        generated, stop := AppendUntilEos(generated, committed.value, eos);
        ResumedPrefix(target.model, before, prompt, |generated|, |was + committed.value|);
        assert generated == (was + committed.value)[..|generated|];
        assert seen + was + committed.value == seen + (was + committed.value);
        if stop {
          CutOfLonger(target.model, before, prompt, generated, maxNewLen, eos);
          NewIsGreedy(target.model, before, prompt, maxNewLen);
          UsedIsReady(seen + (was + committed.value));
          return Some(generated[..Min(|generated|, maxNewLen)]), (seen + (was + committed.value))[..|seen + was + committed.value| - 1];
        }
      }
      CutOfLonger(target.model, before, prompt, generated, maxNewLen, eos);
      NewIsGreedy(target.model, before, prompt, maxNewLen);
      UsedIsReady(seen + generated);
      return Some(generated[..maxNewLen]), (seen + generated)[..|seen + generated| - 1];
    }
  }

  lemma GatherSafe(src: seq<nat>, dst: seq<nat>, size: nat)
    requires CollisionFree(src, dst) && forall k :: 0 <= k < |src| ==> src[k] < size
    ensures Distinct(dst) && forall i :: 0 <= i < |dst| ==> dst[i] < size
  {
  }
}
