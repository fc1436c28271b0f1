/** How the draft grows a tree (src/einf/executors/torch/spec_tree.py:448-563): level by level, from
    the best tokens of every node of the last level, within a budget of nodes. */
module TreeExpansion {
  import opened Base
  import opened TreeSpecs

  // --------------------------------------------------------------- candidates

  /** A candidate node: its confidence, its token and its parent. */
  datatype Candidate = Candidate(conf: real, token: Token, parent: Option<nat>)

  /** What tells the nodes of a level apart. */
  function Key(c: Candidate): (Option<nat>, Token) { (c.parent, c.token) }

  /** Stable insertion by falling confidence: `sort(key=lambda c: -c[0])`. */
  function InsertByConf(c: Candidate, s: seq<Candidate>): seq<Candidate> {
    if s == [] || c.conf >= s[0].conf then [c] + s else [s[0]] + InsertByConf(c, s[1..])
  }

  function SortByConf(s: seq<Candidate>): seq<Candidate> {
    if s == [] then [] else InsertByConf(s[0], SortByConf(s[1..]))
  }

  ghost predicate Falling(s: seq<Candidate>) {
    forall i, j :: 0 <= i < j < |s| ==> s[i].conf >= s[j].conf
  }

  /** No two have the same parent and token. */
  ghost predicate NoRepeats(s: seq<Candidate>) {
    forall i, j :: 0 <= i < j < |s| ==> Key(s[i]) != Key(s[j])
  }

  lemma {:induction false} InsertKeeps(c: Candidate, s: seq<Candidate>)
    ensures multiset(InsertByConf(c, s)) == multiset{c} + multiset(s)
    ensures |InsertByConf(c, s)| == |s| + 1 && forall x :: x in InsertByConf(c, s) <==> x == c || x in s
  {
    if s != [] && c.conf < s[0].conf {
      InsertKeeps(c, s[1..]);
      assert s == [s[0]] + s[1..];
    }
  }

  lemma {:induction false} InsertFalling(c: Candidate, s: seq<Candidate>)
    requires Falling(s)
    ensures Falling(InsertByConf(c, s))
  {
    if s != [] && c.conf < s[0].conf {
      InsertFalling(c, s[1..]);
      InsertKeeps(c, s[1..]);
      var rest := InsertByConf(c, s[1..]);
      assert forall j :: 0 <= j < |rest| ==> rest[j] in rest;
    }
  }

  /** Sorting puts the candidates in falling order and keeps them. */
  lemma {:induction false} SortByConfSorts(s: seq<Candidate>)
    ensures Falling(SortByConf(s)) && multiset(SortByConf(s)) == multiset(s) && |SortByConf(s)| == |s|
    ensures forall x :: x in SortByConf(s) <==> x in s
  {
    if s != [] {
      SortByConfSorts(s[1..]);
      InsertKeeps(s[0], SortByConf(s[1..]));
      InsertFalling(s[0], SortByConf(s[1..]));
      assert s == [s[0]] + s[1..];
    }
  }

  lemma {:induction false} InsertNoRepeats(c: Candidate, s: seq<Candidate>)
    requires NoRepeats(s) && forall x :: x in s ==> Key(x) != Key(c)
    ensures NoRepeats(InsertByConf(c, s)) && forall x :: x in InsertByConf(c, s) <==> x == c || x in s
  {
    if s != [] && c.conf < s[0].conf {
      InsertNoRepeats(c, s[1..]);
      var rest := InsertByConf(c, s[1..]);
      assert s == [s[0]] + s[1..];
      assert forall x :: x in s[1..] ==> Key(x) != Key(s[0]);
      assert forall j :: 0 <= j < |rest| ==> rest[j] in rest;
    }
  }

  lemma {:induction false} SortNoRepeats(s: seq<Candidate>)
    requires NoRepeats(s)
    ensures NoRepeats(SortByConf(s))
  {
    if s != [] {
      SortNoRepeats(s[1..]);
      SortByConfSorts(s[1..]);
      assert forall x :: x in s[1..] ==> Key(x) != Key(s[0]);
      InsertNoRepeats(s[0], SortByConf(s[1..]));
    }
  }

  /** All tokens after a node, each with its log probability. */
  function AllTokens(row: seq<real>, parent: Option<nat>): (s: seq<Candidate>)
    ensures |s| == |row|
  {
    seq(|row|, x requires 0 <= x < |row| => Candidate(row[x], x, parent))
  }

  /** `topk`: the best `k` tokens, best first. */
  function TopK(row: seq<real>, k: nat, parent: Option<nat>): seq<Candidate> {
    var s := SortByConf(AllTokens(row, parent));
    if k <= |s| then s[..k] else s
  }

  /** They are different tokens of the row, in falling order, and none left out is better. */
  lemma TopKIsBest(row: seq<real>, k: nat, parent: Option<nat>)
    ensures var top := TopK(row, k, parent);
            && |top| == Min(k, |row|) && Falling(top) && NoRepeats(top)
            && (forall c :: c in top ==> c in AllTokens(row, parent))
            && (forall c, d :: c in AllTokens(row, parent) && c !in top && d in top ==> d.conf >= c.conf)
  {
    hide SortByConf, AllTokens;
    var all := AllTokens(row, parent);
    var s := SortByConf(all);
    SortByConfSorts(all);
    AllTokensDiffer(row, parent);
    SortNoRepeats(all);
    forall c, d | c in all && c !in TopK(row, k, parent) && d in TopK(row, k, parent) ensures d.conf >= c.conf {
      LeftOutLater(s, Min(k, |s|), c, d);
    }
  }

  lemma AllTokensDiffer(row: seq<real>, parent: Option<nat>)
    ensures NoRepeats(AllTokens(row, parent)) && forall c :: c in AllTokens(row, parent) ==> c.parent == parent
  {
  }

  lemma LeftOutLater(s: seq<Candidate>, k: nat, c: Candidate, d: Candidate)
    requires Falling(s) && k <= |s| && c in s && c !in s[..k] && d in s[..k]
    ensures d.conf >= c.conf
  {
    assert forall n :: 0 <= n < k ==> s[n] in s[..k];
    var i, j :| 0 <= i < |s| && s[i] == c && 0 <= j < k && s[..k][j] == d;
  }

  /** The children proposed for a node, their confidences added to its own. */
  function Proposed(row: seq<real>, k: nat, parent: Option<nat>, conf: real): (s: seq<Candidate>) {
    var top := TopK(row, k, parent);
    seq(|top|, i requires 0 <= i < |top| => top[i].(conf := conf + top[i].conf))
  }

  lemma ProposedAre(row: seq<real>, k: nat, parent: Option<nat>, conf: real)
    ensures var s := Proposed(row, k, parent, conf);
            |s| == Min(k, |row|) && NoRepeats(s) && forall c :: c in s ==> c.parent == parent
  {
    hide TopK;
    TopKIsBest(row, k, parent);
    AllTokensDiffer(row, parent);
    var top, s := TopK(row, k, parent), Proposed(row, k, parent, conf);
    forall i, j | 0 <= i < j < |s| ensures Key(s[i]) != Key(s[j]) { assert Key(top[i]) != Key(top[j]); }
    forall c | c in s ensures c.parent == parent {
      var i :| 0 <= i < |s| && s[i] == c;
      assert top[i] in top;
    }
  }

  // -------------------------------------------------------------------- levels

  /** What becomes of the candidates when `room` nodes fit: each in its turn, unless its parent has a
      child with that token already. */
  function Taken(cs: seq<Candidate>, used: set<(Option<nat>, Token)>, room: nat): (s: seq<Candidate>)
    ensures |s| <= room && |s| <= |cs|
  {
    if cs == [] || room == 0 then []
    else if Key(cs[0]) in used then Taken(cs[1..], used, room)
    else [cs[0]] + Taken(cs[1..], used + {Key(cs[0])}, room - 1)
  }

  lemma {:induction false} TakenAre(cs: seq<Candidate>, used: set<(Option<nat>, Token)>, room: nat)
    ensures forall c :: c in Taken(cs, used, room) ==> c in cs && Key(c) !in used
    ensures NoRepeats(Taken(cs, used, room))
  {
    if cs != [] && room > 0 {
      if Key(cs[0]) in used {
        TakenAre(cs[1..], used, room);
      } else {
        var rest := Taken(cs[1..], used + {Key(cs[0])}, room - 1);
        TakenAre(cs[1..], used + {Key(cs[0])}, room - 1);
        assert forall j :: 0 <= j < |rest| ==> rest[j] in rest;
      }
    }
  }

  /** Without repeats, the first ones that fit are taken. */
  lemma {:induction false} TakenIsPrefix(cs: seq<Candidate>, used: set<(Option<nat>, Token)>, room: nat)
    requires NoRepeats(cs) && forall c :: c in cs ==> Key(c) !in used
    ensures Taken(cs, used, room) == cs[..Min(|cs|, room)]
  {
    if cs != [] && room > 0 {
      assert cs[0] in cs;
      forall c | c in cs[1..] ensures Key(c) !in used + {Key(cs[0])} {
        var j :| 0 <= j < |cs[1..]| && cs[1..][j] == c;
        assert c == cs[j + 1] && c in cs;
      }
      TakenIsPrefix(cs[1..], used + {Key(cs[0])}, room - 1);
    }
  }

  /** While a level is filled: `taken` of the first `i` candidates. */
  ghost predicate LevelSoFar(cs: seq<Candidate>, i: nat, taken: seq<Candidate>, used: set<(Option<nat>, Token)>, room: nat) {
    && i <= |cs| && |taken| <= room
    && Taken(cs, {}, room) == taken + Taken(cs[i..], used, room - |taken|)
  }

  lemma LevelStarts(cs: seq<Candidate>, room: nat, seen: map<Option<nat>, set<Token>>)
    requires seen == map[]
    ensures LevelSoFar(cs, 0, [], {}, room) && SeenAre(seen, {})
  {
    assert cs[0..] == cs;
  }

  lemma LevelStep(cs: seq<Candidate>, i: nat, taken: seq<Candidate>, used: set<(Option<nat>, Token)>, room: nat)
    requires LevelSoFar(cs, i, taken, used, room) && i < |cs| && |taken| < room
    ensures if Key(cs[i]) in used then LevelSoFar(cs, i + 1, taken, used, room)
            else LevelSoFar(cs, i + 1, taken + [cs[i]], used + {Key(cs[i])}, room)
  {
    assert cs[i..][0] == cs[i] && cs[i..][1..] == cs[i + 1..];
    var rest := Taken(cs[i + 1..], used + {Key(cs[i])}, room - |taken| - 1);
    assert taken + ([cs[i]] + rest) == taken + [cs[i]] + rest;
  }

  lemma LevelEnds(cs: seq<Candidate>, i: nat, taken: seq<Candidate>, used: set<(Option<nat>, Token)>, room: nat)
    requires LevelSoFar(cs, i, taken, used, room) && (i == |cs| || |taken| == room)
    ensures taken == Taken(cs, {}, room)
  {
    assert taken + [] == taken;
  }

  lemma LevelRoom(cs: seq<Candidate>, i: nat, taken: seq<Candidate>, used: set<(Option<nat>, Token)>, room: nat,
                  budget: nat, size: nat)
    requires LevelSoFar(cs, i, taken, used, room) && room == Room(budget, size)
    ensures |taken| <= room && (size + |taken| + |taken| < budget <==> |taken| < room)
  {
    RoomIs(budget, size, |taken|);
  }

  /** The tokens seen for a parent are those of the keys used. */
  ghost predicate SeenAre(seen: map<Option<nat>, set<Token>>, used: set<(Option<nat>, Token)>) {
    forall u: Option<nat>, x: Token :: (u in seen && x in seen[u]) <==> (u, x) in used
  }

  lemma SeenStep(seen: map<Option<nat>, set<Token>>, used: set<(Option<nat>, Token)>, c: Candidate)
    requires SeenAre(seen, used)
    ensures var tokens := if c.parent in seen then seen[c.parent] else {};
            (c.token in tokens <==> Key(c) in used) && SeenAre(seen[c.parent := tokens + {c.token}], used + {Key(c)})
  {
  }

  /** The nodes that fit on top of `size`: a level counts twice while it is being filled, once in the
      tree and once as the level. */
  function Room(budget: nat, size: nat): nat { if size >= budget then 0 else CeilDiv(budget - size, 2) }

  lemma RoomIs(budget: nat, size: nat, n: nat)
    requires n <= Room(budget, size)
    ensures size + n + n < budget <==> n < Room(budget, size)
    ensures size <= budget ==> size + n <= budget
  {
  }

  function AppendAll(t: Tree, cs: seq<Candidate>): Tree
    requires TreeOk(t) && forall c :: c in cs ==> c.parent.Some? ==> c.parent.value < |t.tokens|
    ensures TreeOk(AppendAll(t, cs)) && |AppendAll(t, cs).tokens| == |t.tokens| + |cs|
    ensures AppendAll(t, cs).numHistory == t.numHistory
  {
    if cs == [] then t
    else
      var t1, c := AppendAll(t, cs[..|cs| - 1]), cs[|cs| - 1];
      AppendOk(t1, c.parent, c.token, c.conf);
      t1.Append(c.parent, c.token, c.conf).0
  }

  function ParentIndex(parent: Option<nat>): int { if parent.None? then -1 else parent.value }

  lemma {:induction false} AppendedNodes(t: Tree, cs: seq<Candidate>)
    requires TreeOk(t) && forall c :: c in cs ==> c.parent.Some? ==> c.parent.value < |t.tokens|
    ensures t.parents <= AppendAll(t, cs).parents && t.tokens <= AppendAll(t, cs).tokens
    ensures forall i :: 0 <= i < |cs| ==>
              AppendAll(t, cs).parents[|t.tokens| + i] == ParentIndex(cs[i].parent) && AppendAll(t, cs).tokens[|t.tokens| + i] == cs[i].token
  {
    if cs != [] { AppendedNodes(t, cs[..|cs| - 1]); }
  }

  lemma AppendedNext(t: Tree, cs: seq<Candidate>, c: Candidate)
    requires TreeOk(t) && forall c1 :: c1 in cs + [c] ==> c1.parent.Some? ==> c1.parent.value < |t.tokens|
    ensures (forall c1 :: c1 in cs ==> c1 in cs + [c]) && c in cs + [c]
    ensures AppendAll(t, cs + [c]) == AppendAll(t, cs).Append(c.parent, c.token, c.conf).0
  {
    assert (cs + [c])[..|cs|] == cs;
    assert c in cs + [c];
    AppendOk(AppendAll(t, cs), c.parent, c.token, c.conf);
  }

  /** No two children of a node hold the same token. */
  ghost predicate DistinctSiblings(t: Tree)
    requires |t.parents| == |t.tokens|
  {
    forall j, k :: 0 <= j < k < |t.tokens| && t.parents[j] == t.parents[k] ==> t.tokens[j] != t.tokens[k]
  }

  lemma AppendedSiblings(t: Tree, cs: seq<Candidate>)
    requires TreeOk(t) && DistinctSiblings(t) && NoRepeats(cs)
    requires forall c :: c in cs ==> (c.parent.Some? ==> c.parent.value < |t.tokens|) && ParentIndex(c.parent) !in t.parents
    ensures DistinctSiblings(AppendAll(t, cs))
  {
    hide AppendAll, NodeOk;
    AppendedNodes(t, cs);
    var t1, n := AppendAll(t, cs), |t.tokens|;
    assert forall j :: 0 <= j < n ==> t1.parents[j] == t.parents[j] && t.parents[j] in t.parents;
    forall j, k | 0 <= j < k < |t1.tokens| && t1.parents[j] == t1.parents[k] ensures t1.tokens[j] != t1.tokens[k] {
      if k < n {
        assert t.parents[j] == t1.parents[j] && t.parents[k] == t1.parents[k];
        assert t.tokens[j] == t1.tokens[j] && t.tokens[k] == t1.tokens[k];
      } else {
        var c := cs[k - n];
        assert c in cs && t1.parents[n + (k - n)] == ParentIndex(c.parent) && t1.tokens[n + (k - n)] == c.token;
        if j >= n {
          assert t1.parents[n + (j - n)] == ParentIndex(cs[j - n].parent) && t1.tokens[n + (j - n)] == cs[j - n].token;
          assert Key(cs[j - n]) != Key(c);
        }
      }
    }
  }

  lemma NewHasNoChild(t: Tree, cs: seq<Candidate>, u: Option<nat>)
    requires TreeOk(t) && forall c :: c in cs ==> c.parent.Some? ==> c.parent.value < |t.tokens|
    requires u.Some? && |t.tokens| <= u.value
    ensures ParentIndex(u) !in AppendAll(t, cs).parents
  {
    hide AppendAll;
    AppendedNodes(t, cs);
    var t1, n := AppendAll(t, cs), |t.tokens|;
    forall j | 0 <= j < |t1.parents| ensures t1.parents[j] < n {
      if j < n {
        assert t1.parents[j] == t.parents[j];
      } else {
        assert cs[j - n] in cs && t1.parents[n + (j - n)] == ParentIndex(cs[j - n].parent);
      }
    }
  }

  // ------------------------------------------------------------------ the draft

  class Drafter {
    const budget: Positive
    const branchFactor: Positive
    const maxDepth: Positive
    const rankByConfidence: bool
    const vocab: Positive

    /** The draft model's log probability of a token after a node (none: after the pending token); it
        may depend on the step and the tree so far. */
    const logProb: (nat, Tree, Option<nat>, nat) -> real

    constructor (budget: Positive, branchFactor: Positive, maxDepth: Positive, rankByConfidence: bool,
                 vocab: Positive, logProb: (nat, Tree, Option<nat>, nat) -> real)
      ensures this.budget == budget && this.branchFactor == branchFactor && this.maxDepth == maxDepth
      ensures this.rankByConfidence == rankByConfidence && this.vocab == vocab && this.logProb == logProb
    {
      this.budget, this.branchFactor, this.maxDepth := budget, branchFactor, maxDepth;
      this.rankByConfidence, this.vocab, this.logProb := rankByConfidence, vocab, logProb;
    }

    function Row(round: nat, t: Tree, u: Option<nat>): (r: seq<real>)
      ensures |r| == vocab
    {
      seq(vocab, x requires 0 <= x => logProb(round, t, u, x))
    }

    function ConfOf(t: Tree, u: Option<nat>): real {
      if u.Some? && u.value < |t.confs| then t.confs[u.value] else 0.0
    }

    /** Children for all nodes of a level. */
    function ProposedAll(round: nat, t: Tree, parents: seq<Option<nat>>): seq<Candidate> {
      if parents == [] then []
      else
        var u := parents[|parents| - 1];
        ProposedAll(round, t, parents[..|parents| - 1]) + Proposed(Row(round, t, u), branchFactor, u, ConfOf(t, u))
    }

    /** The candidates of a level, in the order they are tried. */
    function LevelCandidates(round: nat, t: Tree, parents: seq<Option<nat>>): seq<Candidate> {
      var all := ProposedAll(round, t, parents);
      if rankByConfidence then SortByConf(all) else all
    }

    function Width(): nat { Min(branchFactor, vocab) }

    lemma {:induction false} ProposedAllAre(round: nat, t: Tree, parents: seq<Option<nat>>)
      requires Distinct(parents)
      ensures var s := ProposedAll(round, t, parents);
              |s| == Span(|parents|, Width()) && NoRepeats(s) && forall c :: c in s ==> c.parent in parents
    {
      hide Proposed;
      if parents != [] {
        var front, u := parents[..|parents| - 1], parents[|parents| - 1];
        ProposedAllAre(round, t, front);
        ProposedAre(Row(round, t, u), branchFactor, u, ConfOf(t, u));
        var s, more := ProposedAll(round, t, front), Proposed(Row(round, t, u), branchFactor, u, ConfOf(t, u));
        forall i, j | 0 <= i < |s| && 0 <= j < |more| ensures Key(s[i]) != Key(more[j]) {
          assert s[i] in s && more[j] in more;
        }
      }
    }

    lemma LevelCandidatesAre(round: nat, t: Tree, parents: seq<Option<nat>>)
      requires Distinct(parents)
      ensures var s := LevelCandidates(round, t, parents);
              |s| == Span(|parents|, Width()) && NoRepeats(s) && forall c :: c in s ==> c.parent in parents
    {
      hide ProposedAll, SortByConf;
      ProposedAllAre(round, t, parents);
      SortByConfSorts(ProposedAll(round, t, parents));
      SortNoRepeats(ProposedAll(round, t, parents));
    }

    /** `_expand_draft`'s list of candidates, node by node. */
    method Candidates(round: nat, spec: TreeSpec, parents: seq<Option<nat>>) returns (candidates: seq<Candidate>)
      requires TreeOk(spec.View())
      requires forall i :: 0 <= i < |parents| ==> parents[i].Some? ==> parents[i].value < |spec.tokens|
      ensures candidates == LevelCandidates(round, spec.View(), parents)
    {
      hide TopK, SortByConf;
      candidates := [];
      for i := 0 to |parents|
        invariant candidates == ProposedAll(round, spec.View(), parents[..i])
      {
        var u := parents[i];
        assert parents[..i + 1][..i] == parents[..i];
        var top := TopK(Row(round, spec.View(), u), branchFactor, u);
        var parentConf := if u.None? then 0.0 else spec.nodeLogConfs[u.value];
        var before := candidates;
        for k := 0 to |top|
          invariant candidates == before + Proposed(Row(round, spec.View(), u), branchFactor, u, parentConf)[..k]
        {
          candidates := candidates + [top[k].(conf := parentConf + top[k].conf)];
        }
      }
      assert parents[..|parents|] == parents;
      if rankByConfidence {
        candidates := SortByConf(candidates);
      }
    }

    /** Append a level: the candidates in their order, but for repeats, as long as there is room. */
    method AddLevel(spec: TreeSpec, candidates: seq<Candidate>) returns (level: seq<nat>)
      requires TreeOk(spec.View()) && |spec.tokens| <= budget
      requires forall c :: c in candidates ==> c.parent.Some? ==> c.parent.value < |spec.tokens|
      modifies spec
      ensures var taken := Taken(candidates, {}, Room(budget, old(|spec.tokens|)));
              && (forall c :: c in taken ==> c in candidates)
              && spec.View() == AppendAll(old(spec.View()), taken)
              && level == seq(|taken|, i => old(|spec.tokens|) + i)
    {
      hide AppendAll, Taken, Room, TreeOk, LevelSoFar, SeenAre;
      level := [];
      var seen: map<Option<nat>, set<Token>> := map[];
      ghost var t, taken: seq<Candidate>, used: set<(Option<nat>, Token)> := spec.View(), [], {};
      ghost var room := Room(budget, |t.tokens|);
      AppendNothing(t);
      LevelStarts(candidates, room, seen);
      var i := 0;
      while i < |candidates| && |spec.tokens| + |level| < budget
        invariant 0 <= i <= |candidates| && TreeOk(spec.View())
        invariant LevelSoFar(candidates, i, taken, used, room) && SeenAre(seen, used)
        invariant level == seq(|taken|, k => |t.tokens| + k)
        invariant forall c :: c in taken ==> c in candidates
        invariant spec.View() == AppendAll(t, taken) && |spec.tokens| == |t.tokens| + |taken|
      {
        var c := candidates[i];
        LevelRoom(candidates, i, taken, used, room, budget, |t.tokens|);
        LevelStep(candidates, i, taken, used, room);
        SeenStep(seen, used, c);
        var tokens := if c.parent in seen then seen[c.parent] else {};
        if c.token !in tokens {
          AppendedNext(t, taken, c);
          var j := spec.Append(c.parent, c.token, c.conf);
          seen := seen[c.parent := tokens + {c.token}];
          used := used + {Key(c)};
          level := level + [j];
          taken := taken + [c];
        }
        i := i + 1;
      }
      LevelRoom(candidates, i, taken, used, room, budget, |t.tokens|);
      LevelEnds(candidates, i, taken, used, room);
    }

    /** What `depth` more levels make of a tree whose last level is `parents`. */
    function Grow(round: nat, t: Tree, parents: seq<Option<nat>>, depth: nat): (t1: Tree)
      requires TreeOk(t) && forall u :: u in parents ==> u.Some? ==> u.value < |t.tokens|
      requires Distinct(parents)
      ensures TreeOk(t1) && t1.numHistory == t.numHistory
      decreases depth
    {
      if depth == 0 || parents == [] then t
      else
        LevelCandidatesAre(round, t, parents);
        var cs := LevelCandidates(round, t, parents);
        var taken := Taken(cs, {}, Room(budget, |t.tokens|));
        TakenAre(cs, {}, Room(budget, |t.tokens|));
        Grow(round, AppendAll(t, taken), NewNodes(|t.tokens|, |taken|), depth - 1)
    }

    /** The size of that tree, from sizes alone: a level takes all proposals, or what fits. */
    function GrownSize(size: nat, parents: nat, depth: nat): (n: nat)
      ensures n >= size
      decreases depth
    {
      if depth == 0 || parents == 0 then size
      else
        var level := Min(Span(parents, Width()), Room(budget, size));
        GrownSize(size + level, level, depth - 1)
    }

    /** The nodes of every tree that this draft grows. */
    function TreeSize(): nat { GrownSize(0, 1, maxDepth) }

    lemma TreeSizeWithin()
      ensures Min(budget, maxDepth) <= TreeSize() <= budget
    {
      GrownWithin(0, 1, maxDepth);
    }

    lemma {:induction false} GrowSize(round: nat, t: Tree, parents: seq<Option<nat>>, depth: nat)
      requires TreeOk(t) && forall u :: u in parents ==> u.Some? ==> u.value < |t.tokens|
      requires Distinct(parents)
      ensures |Grow(round, t, parents, depth).tokens| == GrownSize(|t.tokens|, |parents|, depth)
      decreases depth
    {
      hide LevelCandidates, Taken, AppendAll, Room;
      if depth > 0 && parents != [] {
        LevelCandidatesAre(round, t, parents);
        var cs, room := LevelCandidates(round, t, parents), Room(budget, |t.tokens|);
        var taken := Taken(cs, {}, room);
        TakenAre(cs, {}, room);
        TakenIsPrefix(cs, {}, room);
        GrowSize(round, AppendAll(t, taken), NewNodes(|t.tokens|, |taken|), depth - 1);
      }
    }

    /** In a grown tree, the children of a node hold different tokens. */
    lemma {:induction false} GrowSiblings(round: nat, t: Tree, parents: seq<Option<nat>>, depth: nat)
      requires TreeOk(t) && (forall u :: u in parents ==> u.Some? ==> u.value < |t.tokens|) && Distinct(parents)
      requires DistinctSiblings(t) && forall u :: u in parents ==> ParentIndex(u) !in t.parents
      ensures DistinctSiblings(Grow(round, t, parents, depth))
      decreases depth
    {
      hide LevelCandidates, Taken, AppendAll, Room, DistinctSiblings;
      if depth > 0 && parents != [] {
        LevelCandidatesAre(round, t, parents);
        var cs, room := LevelCandidates(round, t, parents), Room(budget, |t.tokens|);
        var taken := Taken(cs, {}, room);
        TakenAre(cs, {}, room);
        assert forall c :: c in taken ==> c.parent in parents;
        AppendedSiblings(t, taken);
        var next := NewNodes(|t.tokens|, |taken|);
        forall u | u in next ensures ParentIndex(u) !in AppendAll(t, taken).parents { NewHasNoChild(t, taken, u); }
        GrowSiblings(round, AppendAll(t, taken), next, depth - 1);
      }
    }

    /** Grow a tree level by level, until the depth limit, an empty level or a mask that does not
        convert. */
    method Expand(round: nat, live: nat) returns (spec: TreeSpec, ok: bool)
      ensures fresh(spec) && TreeOk(spec.View())
      ensures ok ==> spec.View() == Grow(round, EmptyTree(live), [None], maxDepth) && |spec.tokens| == TreeSize()
      ensures ok ==> DistinctSiblings(spec.View())
      ensures !ok ==> TreeSize() > 62
    {
      hide LevelCandidates, Taken, AppendAll, Room, GrownSize, Drafter.Grow;
      spec := new TreeSpec(live);
      EmptyTreeOk(live);
      var parents: seq<Option<nat>> := [None];
      var level: seq<nat> := [];
      ghost var last: seq<Option<nat>> := [None];
      GrowSize(round, spec.View(), last, maxDepth);
      GrowSiblings(round, spec.View(), last, maxDepth);
      GrownWithin(0, 1, maxDepth);
      var depth := 1;
      while depth <= maxDepth
        invariant 1 <= depth <= maxDepth + 1 && fresh(spec) && TreeOk(spec.View()) && |spec.tokens| <= budget
        invariant forall u :: u in last ==> u.Some? ==> u.value < |spec.tokens|
        invariant Distinct(last) && last == (if depth == 1 then [None] else seq(|level|, i requires 0 <= i < |level| => Some(level[i])))
        invariant Grow(round, spec.View(), last, maxDepth + 1 - depth) == Grow(round, EmptyTree(live), [None], maxDepth)
        invariant GrownSize(|spec.tokens|, |last|, maxDepth + 1 - depth) == TreeSize()
        decreases maxDepth - depth
      {
        parents := [None];
        if depth > 1 {
          if level == [] {
            break;
          }
          forall i | 0 <= i < |level| ensures level[i] < |spec.tokens| { assert last[i] in last; }
          var mask := spec.BuildLevelMask(level);
          if mask.None? {
            return spec, false;
          }
          parents := seq(|level|, i requires 0 <= i < |level| => Some(level[i]));
        }
        ghost var t := spec.View();
        GrowNext(round, t, parents, maxDepth + 1 - depth);
        var candidates := Candidates(round, spec, parents);
        level := AddLevel(spec, candidates);
        last := NewNodes(|t.tokens|, |level|);
        depth := depth + 1;
      }
      GrowDone(round, spec.View(), last, maxDepth + 1 - depth);
      ok := true;
    }

    lemma GrowDone(round: nat, t: Tree, parents: seq<Option<nat>>, depth: nat)
      requires TreeOk(t) && (forall u :: u in parents ==> u.Some? ==> u.value < |t.tokens|) && Distinct(parents)
      requires depth == 0 || parents == []
      ensures Grow(round, t, parents, depth) == t && GrownSize(|t.tokens|, |parents|, depth) == |t.tokens|
    {
    }

    /** One level. */
    lemma GrowNext(round: nat, t: Tree, parents: seq<Option<nat>>, depth: nat)
      requires TreeOk(t) && (forall u :: u in parents ==> u.Some? ==> u.value < |t.tokens|) && Distinct(parents)
      requires depth > 0 && parents != [] && |t.tokens| <= budget
      ensures var cs := LevelCandidates(round, t, parents);
              var taken := Taken(cs, {}, Room(budget, |t.tokens|));
              && (forall c :: c in cs ==> c.parent.Some? ==> c.parent.value < |t.tokens|)
              && (forall c :: c in taken ==> c in cs)
              && |t.tokens| + |taken| <= budget
              && Grow(round, t, parents, depth) == Grow(round, AppendAll(t, taken), NewNodes(|t.tokens|, |taken|), depth - 1)
              && GrownSize(|t.tokens|, |parents|, depth) == GrownSize(|t.tokens| + |taken|, |taken|, depth - 1)
    {
      hide LevelCandidates, Taken, AppendAll;
      LevelCandidatesAre(round, t, parents);
      var cs, room := LevelCandidates(round, t, parents), Room(budget, |t.tokens|);
      TakenAre(cs, {}, room);
      TakenIsPrefix(cs, {}, room);
      RoomIs(budget, |t.tokens|, |Taken(cs, {}, room)|);
    }

    lemma GrownSizeNext(size: nat, parents: nat, depth: nat)
      requires depth > 0 && parents > 0
      ensures var level := Min(Span(parents, Width()), Room(budget, size));
              GrownSize(size, parents, depth) == GrownSize(size + level, level, depth - 1)
    {
    }

    lemma GrownSizeDone(size: nat, parents: nat)
      ensures GrownSize(size, parents, 0) == size
    {
    }

    /** The tree stays within the budget, and has a node a level at least until it is used up. */
    lemma {:induction false} GrownWithin(size: nat, parents: nat, depth: nat)
      requires size <= budget
      ensures GrownSize(size, parents, depth) <= budget
      ensures parents > 0 ==> GrownSize(size, parents, depth) >= Min(budget, size + depth)
      decreases depth
    {
      if depth > 0 && parents > 0 {
        var level := Min(Span(parents, Width()), Room(budget, size));
        RoomIs(budget, size, level);
        GrownWithin(size + level, level, depth - 1);
      }
    }
  }

  /** With the largest budget accepted and two children a node, levels have 2, 4, 8, 16, 17, 8, 4, 2, 1
      and 1 nodes: ten levels make the 63 nodes that no mask can hold, nine do not. */
  lemma TenLevels(d: Drafter)
    requires d.budget == 63 && d.Width() == 2
    ensures d.TreeSize() <= 62 <==> d.maxDepth <= 9
  {
    hide Drafter.GrownSize;
    var sizes := [0, 2, 6, 14, 30, 47, 55, 59, 61, 62, 63];
    var levels := [1, 2, 4, 8, 16, 17, 8, 4, 2, 1, 1];
    var i := 0;
    while i < 10 && i < d.maxDepth
      invariant 0 <= i <= 10 && i <= d.maxDepth
      invariant d.TreeSize() == d.GrownSize(sizes[i], levels[i], d.maxDepth - i)
    {
      SpanIsProduct(levels[i], 2);
      d.GrownSizeNext(sizes[i], levels[i], d.maxDepth - i);
      i := i + 1;
    }
    d.GrownWithin(sizes[i], levels[i], d.maxDepth - i);
    if i == d.maxDepth { d.GrownSizeDone(sizes[i], levels[i]); }
  }

  function NewNodes(base: nat, n: nat): (s: seq<Option<nat>>)
    ensures |s| == n && Distinct(s) && forall u :: u in s ==> u.Some? && base <= u.value < base + n
  {
    seq(n, i => Some(base + i))
  }

  lemma AppendNothing(t: Tree)
    requires TreeOk(t)
    ensures AppendAll(t, []) == t
  {
  }
}
