/** The draft tree of one speculative step and who sees whom in it
    (src/einf/executors/torch/spec_tree.py:40-245). */
module TreeSpecs {
  import opened Base

  // ---------------------------------------------------------------------- bits

  /** Bit `k` of a non-negative integer. */
  predicate Bit(m: nat, k: nat) {
    if k == 0 then m % 2 == 1 else Bit(m / 2, k - 1)
  }

  /** `m | (1 << k)`. */
  function WithBit(m: nat, k: nat): nat {
    if k == 0 then (if m % 2 == 1 then m else m + 1) else 2 * WithBit(m / 2, k - 1) + m % 2
  }

  function Pow2(k: nat): nat {
    if k == 0 then 1 else 2 * Pow2(k - 1)
  }

  lemma {:induction false} BitOfWithBit(m: nat, k: nat, i: nat)
    ensures Bit(WithBit(m, k), i) <==> i == k || Bit(m, i)
  {
    if k > 0 && i > 0 {
      assert WithBit(m, k) / 2 == WithBit(m / 2, k - 1);
      BitOfWithBit(m / 2, k - 1, i - 1);
    }
  }

  /** Setting a bit above a number adds its weight. */
  lemma {:induction false} WithBitAbove(m: nat, k: nat)
    requires m < Pow2(k)
    ensures WithBit(m, k) == m + Pow2(k)
  {
    if k > 0 { WithBitAbove(m / 2, k - 1); }
  }

  lemma {:induction false} Pow2Mono(a: nat, b: nat)
    requires a <= b
    ensures Pow2(a) <= Pow2(b)
  {
    if a < b { Pow2Mono(a, b - 1); }
  }

  // ---------------------------------------------------------------------- tree

  /** Nodes in the order they were appended; -1 for a child of the pending token. */
  datatype Tree = Tree(numHistory: nat, parents: seq<int>, tokens: seq<Token>, depths: seq<nat>,
                       confs: seq<real>, masks: seq<nat>)
  {
    function Append(parent: Option<nat>, token: Token, conf: real): (r: (Tree, nat))
      requires parent.Some? ==> parent.value < |depths| && parent.value < |masks|
    {
      var j := |tokens|;
      (Tree(numHistory,
            parents + [if parent.None? then -1 else parent.value],
            tokens + [token],
            depths + [if parent.None? then 1 else depths[parent.value] + 1],
            confs + [conf],
            masks + [WithBit(if parent.None? then 1 else masks[parent.value], j + 1)]),
       j)
    }

    /** The nodes above `j`, from the top down. */
    function Ancestors(j: nat): seq<nat>
      decreases j
    {
      if j < |parents| && 0 <= parents[j] < j then Ancestors(parents[j]) + [parents[j]] else []
    }

    function ChildrenFrom(u: int, i: nat): seq<nat>
      decreases |parents| - i
    {
      if i >= |parents| then []
      else if parents[i] == u then [i] + ChildrenFrom(u, i + 1)
      else ChildrenFrom(u, i + 1)
    }

    /** `children`, with -1 for the pending token. */
    function Children(u: int): seq<nat> { ChildrenFrom(u, 0) }

    /** Addressing position of a node: scratch slots in append order. */
    function LogicalPos(j: nat): nat { numHistory + 1 + j }

    /** RoPE position of a node: by depth, so siblings share it. */
    function RopePos(j: nat): nat
      requires j < |depths|
    {
      numHistory + depths[j]
    }

    function TotalQ(): nat { 1 + |tokens| }

    function TotalKv(): nat { numHistory + TotalQ() }
  }

  function EmptyTree(numHistory: nat): Tree { Tree(numHistory, [], [], [], [], []) }

  /** What every tree built by `append` satisfies. */
  ghost predicate TreeOk(t: Tree) {
    && |t.parents| == |t.tokens| == |t.depths| == |t.confs| == |t.masks|
    && (forall j :: 0 <= j < |t.parents| ==> -1 <= t.parents[j] < j)
    && (forall j :: 0 <= j < |t.parents| ==> NodeOk(t, j))
  }

  ghost predicate NodeOk(t: Tree, j: nat)
    requires |t.parents| == |t.depths| == |t.masks| && j < |t.parents| && -1 <= t.parents[j] < j
  {
    && t.depths[j] == (if t.parents[j] == -1 then 1 else t.depths[t.parents[j]] + 1)
    && t.masks[j] == WithBit(if t.parents[j] == -1 then 1 else t.masks[t.parents[j]], j + 1)
  }

  lemma EmptyTreeOk(numHistory: nat)
    ensures TreeOk(EmptyTree(numHistory))
  {
  }

  lemma AppendOk(t: Tree, parent: Option<nat>, token: Token, conf: real)
    requires TreeOk(t) && (parent.Some? ==> parent.value < |t.tokens|)
    ensures TreeOk(t.Append(parent, token, conf).0)
  {
    var t1 := t.Append(parent, token, conf).0;
    forall j | 0 <= j < |t1.parents| ensures NodeOk(t1, j) {
      if j < |t.parents| { assert NodeOk(t, j); }
    }
  }

  lemma {:induction false} AncestorsAre(t: Tree, j: nat)
    requires TreeOk(t) && j < |t.tokens|
    ensures |t.Ancestors(j)| + 1 == t.depths[j]
    ensures forall a :: a in t.Ancestors(j) ==> a < j
    ensures forall i, k :: 0 <= i < k < |t.Ancestors(j)| ==> t.Ancestors(j)[i] < t.Ancestors(j)[k]
    decreases j
  {
    assert NodeOk(t, j);
    if t.parents[j] >= 0 {
      var p := t.parents[j];
      AncestorsAre(t, p);
      var s := t.Ancestors(p);
      forall i | 0 <= i < |s| ensures s[i] < p { assert s[i] in s; }
    }
  }

  /** The visibility word of a node: the pending token, its ancestors and itself. */
  lemma {:induction false} MaskBits(t: Tree, j: nat, i: nat)
    requires TreeOk(t) && j < |t.tokens|
    ensures Bit(t.masks[j], i) <==> i == 0 || (i > 0 && (i - 1 == j || i - 1 in t.Ancestors(j)))
    decreases j
  {
    assert NodeOk(t, j);
    var p := t.parents[j];
    if p == -1 {
      BitOfWithBit(1, j + 1, i);
      OneBit(i);
    } else {
      BitOfWithBit(t.masks[p], j + 1, i);
      MaskBits(t, p, i);
    }
  }

  lemma {:induction false} OneBit(i: nat)
    ensures Bit(1, i) <==> i == 0
  {
    if i > 1 { ZeroBits(i - 1); }
  }

  lemma {:induction false} ZeroBits(i: nat)
    ensures !Bit(0, i)
  {
    if i > 0 { ZeroBits(i - 1); }
  }

  lemma {:induction false} MaskRange(t: Tree, j: nat)
    requires TreeOk(t) && j < |t.tokens|
    ensures Pow2(j + 1) <= t.masks[j] < Pow2(j + 2)
    decreases j
  {
    assert NodeOk(t, j);
    var p := t.parents[j];
    if p == -1 {
      Pow2Mono(1, j + 1);
      WithBitAbove(1, j + 1);
    } else {
      MaskRange(t, p);
      Pow2Mono(p + 2, j + 1);
      WithBitAbove(t.masks[p], j + 1);
    }
  }

  // -------------------------------------------------------------------- masks

  /** Who node `j` sees among the nodes: its ancestors and itself. */
  predicate Sees(t: Tree, j: nat, k: nat) { k == j || k in t.Ancestors(j) }

  /** The rows of the verify mask: history and the pending token for everyone; then, for a node,
      what it sees among the first `width` nodes. */
  function MaskRow(t: Tree, row: nat, width: nat): (r: seq<bool>)
    ensures |r| == t.numHistory + 1 + width
  {
    seq(t.numHistory + 1 + width, c requires 0 <= c < t.numHistory + 1 + width =>
      c <= t.numHistory || (row > 0 && Sees(t, row - 1, c - t.numHistory - 1)))
  }

  /** Does a visibility word fit a signed 64-bit integer? */
  predicate FitsInt64(m: nat) { m < Pow2(63) }

  /** Exactly the trees of at most 62 nodes convert: node `j` sets bit `j + 1`, and the 63rd
      node, which a budget of 63 admits, sets the sign bit. */
  lemma FitsUpTo62(t: Tree)
    requires TreeOk(t)
    ensures (forall j :: 0 <= j < |t.masks| ==> FitsInt64(t.masks[j])) <==> |t.tokens| <= 62
  {
    if |t.tokens| <= 62 {
      forall j | 0 <= j < |t.masks| ensures FitsInt64(t.masks[j]) {
        MaskRange(t, j);
        Pow2Mono(j + 2, 63);
      }
    } else {
      MaskRange(t, 62);
    }
  }

  class TreeSpec {
    const numHistory: nat
    var parents: seq<int>
    var tokens: seq<Token>
    var depths: seq<nat>
    var nodeLogConfs: seq<real>
    var nodeMasks: seq<nat>

    function View(): Tree
      reads this
    {
      Tree(numHistory, parents, tokens, depths, nodeLogConfs, nodeMasks)
    }

    constructor (numHistory: nat)
      ensures View() == EmptyTree(numHistory)
    {
      this.numHistory := numHistory;
      parents, tokens, depths, nodeLogConfs, nodeMasks := [], [], [], [], [];
    }

    method Append(parent: Option<nat>, token: Token, logConf: real) returns (j: nat)
      requires TreeOk(View()) && (parent.Some? ==> parent.value < |tokens|)
      modifies this
      ensures TreeOk(View()) && (View(), j) == old(View()).Append(parent, token, logConf)
    {
      AppendOk(View(), parent, token, logConf);
      var depth := if parent.None? then 1 else depths[parent.value] + 1;
      j := |tokens|;
      var mask := WithBit(if parent.None? then 1 else nodeMasks[parent.value], j + 1);
      parents := parents + [if parent.None? then -1 else parent.value];
      tokens := tokens + [token];
      depths := depths + [depth];
      nodeLogConfs := nodeLogConfs + [logConf];
      nodeMasks := nodeMasks + [mask];
    }

    method Ancestors(j: nat) returns (chain: seq<nat>)
      requires TreeOk(View()) && j < |tokens|
      ensures chain == View().Ancestors(j)
    {
      var up: seq<nat> := [];
      var p := parents[j];
      while p != -1
        invariant -1 <= p < |tokens|
        invariant (if p == -1 then [] else View().Ancestors(p) + [p]) + Reversed(up) == View().Ancestors(j)
        decreases p
      {
        ghost var above := if parents[p] == -1 then [] else View().Ancestors(parents[p]) + [parents[p] as nat];
        assert View().Ancestors(p) == above;
        ReversedAppend(up, p);
        assert above + [p as nat] + Reversed(up) == above + ([p as nat] + Reversed(up));
        up := up + [p];
        p := parents[p];
      }
      assert [] + Reversed(up) == Reversed(up);
      return Reversed(up);
    }

    /** The oracle: every row by walking the ancestor chain. */
    method BuildTreeMaskReference() returns (mask: seq<seq<bool>>)
      requires TreeOk(View())
      ensures |mask| == View().TotalQ()
      ensures forall r :: 0 <= r < |mask| ==> mask[r] == MaskRow(View(), r, |tokens|)
    {
      var kv := View().TotalKv();
      var row := seq(kv, c requires 0 <= c < kv => c < numHistory)[numHistory := true];
      mask := [row];
      for j := 0 to |tokens|
        invariant |mask| == 1 + j
        invariant forall r :: 0 <= r < |mask| ==> mask[r] == MaskRow(View(), r, |tokens|)
      {
        var chain := Ancestors(j);
        AncestorsAre(View(), j);
        row := seq(kv, c requires 0 <= c < kv => c < numHistory)[numHistory := true];
        for i := 0 to |chain|
          invariant |row| == kv
          invariant forall c :: 0 <= c < kv ==> row[c] == (c <= numHistory || c - numHistory - 1 in chain[..i])
        {
          assert chain[i] in chain;
          assert chain[..i + 1] == chain[..i] + [chain[i]];
          row := row[numHistory + 1 + chain[i] := true];
        }
        assert chain[..|chain|] == chain;
        row := row[numHistory + 1 + j := true];
        ghost var want := MaskRow(View(), 1 + j, |tokens|);
        assert |row| == |want|;
        forall c | 0 <= c < kv ensures row[c] == want[c] {
          if c > numHistory { assert want[c] == Sees(View(), j, c - numHistory - 1); }
        }
        assert row == want;
        mask := mask + [row];
      }
    }

    /** The node columns of one row: a visibility word, unpacked. */
    method Unpack(word: nat) returns (row: seq<bool>)
      ensures |row| == |tokens| && forall k :: 0 <= k < |row| ==> row[k] == Bit(word, k + 1)
    {
      var n := |tokens|;
      row := seq(n, k requires 0 <= k < n => Bit(word, k + 1));
    }

    /** The vectorised builder: the visibility words as signed 64-bit integers, unpacked.  A word
        that does not fit cannot be converted. */
    method BuildTreeMask() returns (mask: Option<seq<seq<bool>>>)
      requires TreeOk(View())
      ensures mask.Some? <==> |tokens| <= 62
      ensures mask.Some? ==>
                && |mask.value| == View().TotalQ()
                && forall r :: 0 <= r < |mask.value| ==> mask.value[r] == MaskRow(View(), r, |tokens|)
    {
      FitsUpTo62(View());
      if exists j :: 0 <= j < |nodeMasks| && !FitsInt64(nodeMasks[j]) {
        return None;
      }
      var kv := View().TotalKv();
      var first := seq(kv, c requires 0 <= c < kv => c <= numHistory);
      var rows := [first];
      for j := 0 to |tokens|
        invariant |rows| == 1 + j
        invariant forall r :: 0 <= r < |rows| ==> rows[r] == MaskRow(View(), r, |tokens|)
      {
        var nodes := Unpack(nodeMasks[j]);
        forall k | 0 <= k < |tokens| ensures Bit(nodeMasks[j], k + 1) <==> Sees(View(), j, k) {
          MaskBits(View(), j, k + 1);
        }
        rows := rows + [seq(numHistory + 1, _ => true) + nodes];
      }
      return Some(rows);
    }

    /** The mask of one expansion pass: a row for each node of the level. */
    method BuildLevelMask(level: seq<nat>) returns (mask: Option<seq<seq<bool>>>)
      requires TreeOk(View()) && forall i :: 0 <= i < |level| ==> level[i] < |tokens|
      ensures |tokens| <= 62 ==> mask.Some?
      ensures mask.Some? ==>
                && |mask.value| == |level|
                && forall i :: 0 <= i < |level| ==> mask.value[i] == MaskRow(View(), 1 + level[i], |tokens|)
    {
      FitsUpTo62(View());
      if exists i :: 0 <= i < |level| && !FitsInt64(nodeMasks[level[i]]) {
        return None;
      }
      var rows := [];
      for i := 0 to |level|
        invariant |rows| == i
        invariant forall r :: 0 <= r < i ==> rows[r] == MaskRow(View(), 1 + level[r], |tokens|)
      {
        var nodes := Unpack(nodeMasks[level[i]]);
        forall k | 0 <= k < |tokens| ensures Bit(nodeMasks[level[i]], k + 1) <==> Sees(View(), level[i], k) {
          MaskBits(View(), level[i], k + 1);
        }
        rows := rows + [seq(numHistory + 1, _ => true) + nodes];
      }
      return Some(rows);
    }
  }

  function Reversed(s: seq<nat>): seq<nat> {
    if s == [] then [] else Reversed(s[1..]) + [s[0]]
  }

  lemma {:induction false} ReversedAppend(s: seq<nat>, x: nat)
    ensures Reversed(s + [x]) == [x] + Reversed(s)
  {
    if s != [] {
      assert (s + [x])[1..] == s[1..] + [x];
      ReversedAppend(s[1..], x);
    }
  }

  /** `t1` is `t` with more nodes. */
  ghost predicate Grown(t: Tree, t1: Tree) {
    && t1.numHistory == t.numHistory && t.parents <= t1.parents && t.tokens <= t1.tokens
    && t.depths <= t1.depths && t.masks <= t1.masks
  }

  lemma {:induction false} AncestorsStay(t: Tree, t1: Tree, j: nat)
    requires Grown(t, t1) && j < |t.parents|
    ensures t1.Ancestors(j) == t.Ancestors(j)
    decreases j
  {
    if 0 <= t.parents[j] < j { AncestorsStay(t, t1, t.parents[j]); }
  }

  /** A level's mask row is the oracle's row for the node in the finished tree, restricted to
      the nodes that existed then. */
  lemma LevelRowIsOracleRow(t: Tree, t1: Tree, j: nat)
    requires TreeOk(t) && TreeOk(t1) && Grown(t, t1) && j < |t.tokens|
    ensures MaskRow(t, 1 + j, |t.tokens|) == MaskRow(t1, 1 + j, |t1.tokens|)[..t.numHistory + 1 + |t.tokens|]
  {
    AncestorsStay(t, t1, j);
    var row, row1, n := MaskRow(t, 1 + j, |t.tokens|), MaskRow(t1, 1 + j, |t1.tokens|), t.numHistory + 1 + |t.tokens|;
    assert |row1[..n]| == |row|;
    forall c | 0 <= c < n ensures row[c] == row1[..n][c] {
      assert Sees(t1, j, Max(0, c - t.numHistory - 1)) == Sees(t, j, Max(0, c - t.numHistory - 1));
    }
  }
}
