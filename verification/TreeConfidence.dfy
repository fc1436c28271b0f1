/** The confidences of a drafted tree (src/einf/executors/torch/spec_tree.py:521-551): a node has the
    sum of the draft's log probabilities along its path, and a ranked level takes the best sums. */
module TreeConfidence {
  import opened Base
  import opened TreeSpecs
  import opened TreeExpansion

  /** The tree as it was with its first `m` nodes. */
  function Beginning(t: Tree, m: nat): Tree
    requires |t.parents| == |t.tokens| == |t.depths| == |t.confs| == |t.masks| && m <= |t.tokens|
  {
    Tree(t.numHistory, t.parents[..m], t.tokens[..m], t.depths[..m], t.confs[..m], t.masks[..m])
  }

  /** How many of the first `n` nodes are less than `d` deep. */
  function Above(t: Tree, d: nat, n: nat): (m: nat)
    requires n <= |t.depths|
    ensures m <= n
  {
    if n == 0 then 0 else Above(t, d, n - 1) + (if t.depths[n - 1] < d then 1 else 0)
  }

  /** The tree that node `j` was proposed for: the levels above its own. */
  function LevelsAbove(t: Tree, j: nat): Tree
    requires |t.parents| == |t.tokens| == |t.depths| == |t.confs| == |t.masks| && j < |t.tokens|
  {
    Beginning(t, Above(t, t.depths[j], |t.depths|))
  }

  function ParentOf(t: Tree, j: nat): Option<nat>
    requires j < |t.parents|
  {
    if t.parents[j] < 0 then None else Some(t.parents[j])
  }

  /** What the draft gives the tokens along the path to a node, added up. */
  function PathScore(d: Drafter, round: nat, t: Tree, j: int): real
    requires TreeOk(t) && j < |t.tokens|
    decreases j
  {
    if j < 0 then 0.0
    else PathScore(d, round, t, t.parents[j]) + Score(d, round, LevelsAbove(t, j), ParentOf(t, j), t.tokens[j])
  }

  function Score(d: Drafter, round: nat, t: Tree, u: Option<nat>, token: Token): real {
    if token < 0 then 0.0 else d.logProb(round, t, u, token)
  }

  ghost predicate Scored(d: Drafter, round: nat, t: Tree)
    requires TreeOk(t)
  {
    forall j :: 0 <= j < |t.tokens| ==> 0 <= t.tokens[j] < d.vocab && t.confs[j] == PathScore(d, round, t, j)
  }

  // ---------------------------------------------------------------- candidates

  lemma ProposedScores(row: seq<real>, k: nat, parent: Option<nat>, conf: real)
    ensures forall c :: c in Proposed(row, k, parent, conf) ==>
              c.parent == parent && 0 <= c.token < |row| && c.conf == conf + row[c.token]
  {
    hide TopK;
    TopKIsBest(row, k, parent);
    var top, s := TopK(row, k, parent), Proposed(row, k, parent, conf);
    forall c | c in s ensures c.parent == parent && 0 <= c.token < |row| && c.conf == conf + row[c.token] {
      var i :| 0 <= i < |s| && s[i] == c;
      assert top[i] in top;
    }
  }

  lemma {:induction false} AllScores(d: Drafter, round: nat, t: Tree, parents: seq<Option<nat>>)
    ensures forall c :: c in d.ProposedAll(round, t, parents) ==> CandidateScores(d, round, t, c)
  {
    hide Proposed;
    if parents != [] {
      var u := parents[|parents| - 1];
      AllScores(d, round, t, parents[..|parents| - 1]);
      ProposedScores(d.Row(round, t, u), d.branchFactor, u, d.ConfOf(t, u));
    }
  }

  ghost predicate CandidateScores(d: Drafter, round: nat, t: Tree, c: Candidate) {
    0 <= c.token < d.vocab && c.conf == d.ConfOf(t, c.parent) + Score(d, round, t, c.parent, c.token)
  }

  /** A candidate's confidence is that of its parent and what the draft gives its token there. */
  lemma LevelScores(d: Drafter, round: nat, t: Tree, parents: seq<Option<nat>>)
    ensures forall c :: c in d.LevelCandidates(round, t, parents) ==> CandidateScores(d, round, t, c)
  {
    hide Drafter.ProposedAll, SortByConf, CandidateScores;
    AllScores(d, round, t, parents);
    SortByConfSorts(d.ProposedAll(round, t, parents));
  }

  /** Of a ranked level nothing that is left out has a larger sum than what is taken, and nothing is
      left out while there is room. */
  lemma RankedLevelIsBest(d: Drafter, round: nat, t: Tree, parents: seq<Option<nat>>, room: nat)
    requires Distinct(parents) && d.rankByConfidence
    ensures var cs := d.LevelCandidates(round, t, parents);
            var taken := Taken(cs, {}, room);
            && |taken| == Min(|cs|, room) && |cs| == Span(|parents|, d.Width())
            && (forall c :: c in cs ==> c.parent in parents && CandidateScores(d, round, t, c))
            && (forall c, e :: c in cs && c !in taken && e in taken ==>
                  d.ConfOf(t, c.parent) + Score(d, round, t, c.parent, c.token)
                    <= d.ConfOf(t, e.parent) + Score(d, round, t, e.parent, e.token))
  {
    hide SortByConf, Taken, Score, Drafter.ProposedAll;
    var all, cs := d.ProposedAll(round, t, parents), d.LevelCandidates(round, t, parents);
    d.LevelCandidatesAre(round, t, parents);
    LevelScores(d, round, t, parents);
    TakenIsPrefix(cs, {}, room);
    SortByConfSorts(all);
    forall c, e | c in cs && c !in cs[..Min(|cs|, room)] && e in cs[..Min(|cs|, room)] ensures c.conf <= e.conf {
      LeftOutLater(cs, Min(|cs|, room), c, e);
    }
  }

  // --------------------------------------------------------------------- levels

  function DepthOf(t: Tree, u: Option<nat>): nat {
    if u.Some? && u.value < |t.depths| then t.depths[u.value] else 0
  }

  /** `t1` is `t` and then the candidates, in their order. */
  ghost predicate Extended(t: Tree, cs: seq<Candidate>, t1: Tree) {
    && |t1.parents| == |t1.tokens| == |t1.depths| == |t1.confs| == |t1.masks| == |t.tokens| + |cs|
    && Beginning(t1, |t.tokens|) == t
    && forall i :: 0 <= i < |cs| ==> IsNode(t, cs, t1, i)
  }

  ghost predicate IsNode(t: Tree, cs: seq<Candidate>, t1: Tree, i: nat)
    requires |t1.parents| == |t1.tokens| == |t1.depths| == |t1.confs| == |t1.masks| == |t.tokens| + |cs| && i < |cs|
  {
    var j := |t.tokens| + i;
    && t1.parents[j] == ParentIndex(cs[i].parent) && t1.tokens[j] == cs[i].token
    && t1.confs[j] == cs[i].conf && t1.depths[j] == DepthOf(t, cs[i].parent) + 1
  }

  lemma {:induction false} AppendedRest(t: Tree, cs: seq<Candidate>)
    requires TreeOk(t) && forall c :: c in cs ==> c.parent.Some? ==> c.parent.value < |t.tokens|
    ensures Extended(t, cs, AppendAll(t, cs))
  {
    hide NodeOk;
    var t1 := AppendAll(t, cs);
    if cs != [] {
      var front := cs[..|cs| - 1];
      AppendedRest(t, front);
      var t0 := AppendAll(t, front);
      assert t0.depths[..|t.tokens|] == t.depths;
      assert cs[|cs| - 1] in cs;
      forall i | 0 <= i < |cs| ensures IsNode(t, cs, t1, i) {
        if i < |front| { assert IsNode(t, front, t0, i); }
      }
    }
  }

  lemma {:induction false} AboveSame(t: Tree, t1: Tree, d: nat, n: nat)
    requires n <= |t.depths| && n <= |t1.depths| && t.depths[..n] == t1.depths[..n]
    ensures Above(t1, d, n) == Above(t, d, n)
  {
    if n > 0 {
      assert t.depths[..n][n - 1] == t1.depths[..n][n - 1];
      assert t.depths[..n - 1] == t.depths[..n][..n - 1] && t1.depths[..n - 1] == t1.depths[..n][..n - 1];
      AboveSame(t, t1, d, n - 1);
    }
  }

  lemma {:induction false} AboveAll(t: Tree, d: nat, n: nat)
    requires n <= |t.depths| && forall i :: 0 <= i < n ==> t.depths[i] < d
    ensures Above(t, d, n) == n
  {
    if n > 0 { AboveAll(t, d, n - 1); }
  }

  lemma {:induction false} AboveNone(t: Tree, d: nat, m: nat, n: nat)
    requires m <= n <= |t.depths| && forall i :: m <= i < n ==> t.depths[i] >= d
    ensures Above(t, d, n) == Above(t, d, m)
    decreases n
  {
    if m < n { AboveNone(t, d, m, n - 1); }
  }

  /** A level further down changes nothing for the nodes there were. */
  lemma {:induction false} ScoreKept(d: Drafter, round: nat, t: Tree, t1: Tree, level: nat, j: int)
    requires TreeOk(t) && TreeOk(t1) && j < |t.tokens| <= |t1.tokens| && Beginning(t1, |t.tokens|) == t
    requires forall i :: 0 <= i < |t.tokens| ==> t.depths[i] <= level
    requires forall i :: |t.tokens| <= i < |t1.tokens| ==> t1.depths[i] == level + 1
    ensures PathScore(d, round, t1, j) == PathScore(d, round, t, j)
    decreases j
  {
    hide NodeOk, Score;
    if j >= 0 {
      var n := |t.tokens|;
      assert t.depths[j] == t1.depths[..n][j] && t.parents[j] == t1.parents[..n][j] && t.tokens[j] == t1.tokens[..n][j];
      ScoreKept(d, round, t, t1, level, t.parents[j]);
      AboveNone(t1, t.depths[j], n, |t1.depths|);
      AboveSame(t, t1, t.depths[j], n);
      BeginningOf(t1, n, Above(t, t.depths[j], n));
    }
  }

  lemma BeginningOf(t: Tree, n: nat, m: nat)
    requires |t.parents| == |t.tokens| == |t.depths| == |t.confs| == |t.masks| && m <= n <= |t.tokens|
    ensures Beginning(Beginning(t, n), m) == Beginning(t, m)
  {
    var b := Beginning(t, n);
    assert b.parents[..m] == t.parents[..m] && b.tokens[..m] == t.tokens[..m] && b.depths[..m] == t.depths[..m];
    assert b.confs[..m] == t.confs[..m] && b.masks[..m] == t.masks[..m];
  }

  /** The nodes of a level are one deeper than what was there. */
  lemma LevelDepths(t: Tree, taken: seq<Candidate>, t1: Tree, level: nat)
    requires TreeOk(t) && Extended(t, taken, t1)
    requires forall i :: 0 <= i < |t.tokens| ==> t.depths[i] <= level
    requires forall c :: c in taken ==> DepthOf(t, c.parent) == level
    ensures forall i :: 0 <= i < |t.tokens| ==> t1.depths[i] <= level
    ensures forall i :: |t.tokens| <= i < |t1.tokens| ==> t1.depths[i] == level + 1
  {
    hide NodeOk;
    var n := |t.tokens|;
    forall i | 0 <= i < n ensures t1.depths[i] <= level { assert t.depths[i] == t1.depths[..n][i]; }
    forall i | n <= i < |t1.tokens| ensures t1.depths[i] == level + 1 {
      assert IsNode(t, taken, t1, i - n) && taken[i - n] in taken;
    }
  }

  /** One level of scored candidates. */
  lemma LevelScored(d: Drafter, round: nat, t: Tree, taken: seq<Candidate>, t1: Tree, level: nat)
    requires TreeOk(t) && TreeOk(t1) && Scored(d, round, t) && Extended(t, taken, t1)
    requires forall i :: 0 <= i < |t.tokens| ==> t.depths[i] <= level
    requires forall c :: c in taken ==>
               && (c.parent.Some? ==> c.parent.value < |t.tokens|)
               && DepthOf(t, c.parent) == level && CandidateScores(d, round, t, c)
    ensures Scored(d, round, t1)
  {
    hide NodeOk, PathScore, CandidateScores;
    LevelDepths(t, taken, t1, level);
    var n := |t.tokens|;
    forall j | 0 <= j < |t1.tokens| ensures 0 <= t1.tokens[j] < d.vocab && t1.confs[j] == PathScore(d, round, t1, j) {
      if j < n {
        ScoreKept(d, round, t, t1, level, j);
        assert t.confs[j] == t1.confs[..n][j] && t.tokens[j] == t1.tokens[..n][j];
      } else {
        assert taken[j - n] in taken;
        NewScore(d, round, t, taken, t1, level, j - n);
      }
    }
  }

  lemma NewScore(d: Drafter, round: nat, t: Tree, taken: seq<Candidate>, t1: Tree, level: nat, i: nat)
    requires TreeOk(t) && TreeOk(t1) && Scored(d, round, t) && Extended(t, taken, t1) && i < |taken|
    requires forall k :: 0 <= k < |t.tokens| ==> t.depths[k] <= level && t1.depths[k] <= level
    requires forall k :: |t.tokens| <= k < |t1.tokens| ==> t1.depths[k] == level + 1
    requires (taken[i].parent.Some? ==> taken[i].parent.value < |t.tokens|) && CandidateScores(d, round, t, taken[i])
    ensures var j := |t.tokens| + i; 0 <= t1.tokens[j] < d.vocab && t1.confs[j] == PathScore(d, round, t1, j)
  {
    hide NodeOk, Score;
    var c, n, j := taken[i], |t.tokens|, |t.tokens| + i;
    assert IsNode(t, taken, t1, i);
    AboveNone(t1, level + 1, n, |t1.depths|);
    AboveAll(t1, level + 1, n);
    assert LevelsAbove(t1, j) == t && ParentOf(t1, j) == c.parent;
    ScoreKept(d, round, t, t1, level, ParentIndex(c.parent));
    if c.parent.Some? { assert t.confs[c.parent.value] == PathScore(d, round, t, c.parent.value); }
  }

  lemma {:induction false} GrowScored(d: Drafter, round: nat, t: Tree, parents: seq<Option<nat>>, depth: nat, level: nat)
    requires TreeOk(t) && (forall u :: u in parents ==> u.Some? ==> u.value < |t.tokens|) && Distinct(parents)
    requires Scored(d, round, t) && (forall i :: 0 <= i < |t.tokens| ==> t.depths[i] <= level)
    requires forall u :: u in parents ==> DepthOf(t, u) == level
    ensures Scored(d, round, d.Grow(round, t, parents, depth))
    decreases depth
  {
    hide Drafter.LevelCandidates, Taken, AppendAll, Room, Scored, CandidateScores, NodeOk, IsNode, Beginning;
    if depth > 0 && parents != [] {
      d.LevelCandidatesAre(round, t, parents);
      LevelScores(d, round, t, parents);
      var cs, room := d.LevelCandidates(round, t, parents), Room(d.budget, |t.tokens|);
      var taken := Taken(cs, {}, room);
      TakenAre(cs, {}, room);
      var t1 := AppendAll(t, taken);
      AppendedRest(t, taken);
      LevelDepths(t, taken, t1, level);
      LevelScored(d, round, t, taken, t1, level);
      GrowScored(d, round, AppendAll(t, taken), NewNodes(|t.tokens|, |taken|), depth - 1, level + 1);
    }
  }

  /** In every tree that is drafted, a node's confidence is the sum of the draft's log probabilities
      along its path, each taken with the levels above. */
  lemma ConfidenceIsPathSum(d: Drafter, round: nat, live: nat)
    ensures var t := d.Grow(round, EmptyTree(live), [None], d.maxDepth);
            TreeOk(t) && forall j :: 0 <= j < |t.tokens| ==> 0 <= t.tokens[j] < d.vocab && t.confs[j] == PathScore(d, round, t, j)
  {
    hide Drafter.Grow;
    GrowScored(d, round, EmptyTree(live), [None], d.maxDepth, 0);
  }
}
