/** Chain speculation (src/einf/executors/torch/spec_runner.py): a draft model proposes, the
    target verifies all proposals in one forward pass, and caches are rolled back by
    bookkeeping alone. */
module ChainSpeculation {
  import opened Attention
  import opened Base
  import opened DraftVerification
  import opened GreedyDecoding

  /** The slot of a position under the engine's identity page table. */
  function IdentitySlot(pos: nat, blockLen: Positive): nat { pos / blockLen * blockLen + pos % blockLen }

  lemma IdentitySlotIs(pos: nat, blockLen: Positive)
    ensures IdentitySlot(pos, blockLen) == pos
  {
  }

  /** `needed_blocks <= len(block_table)` says that the tokens fit the cache. */
  lemma CapacityIs(tokens: nat, blocks: nat, blockLen: Positive)
    ensures CeilDiv(tokens, blockLen) <= blocks <==> tokens <= Span(blocks, blockLen)
  {
    CeilDivBounds(tokens, blockLen);
    if CeilDiv(tokens, blockLen) <= blocks {
      SpanMono(CeilDiv(tokens, blockLen), blocks, blockLen);
    } else {
      SpanMono(blocks, CeilDiv(tokens, blockLen) - 1, blockLen);
    }
  }

  /** A forward pass over `tokens` from position `start`: each token's cell is computed from all
      cells before it. */
  function Write(cache: seq<Kv>, start: nat, tokens: seq<Token>): (r: seq<Kv>)
    requires start + |tokens| <= |cache|
    ensures |r| == |cache|
    decreases |tokens|
  {
    if tokens == [] then cache
    else Write(cache[start := Cell(tokens[0], cache[..start])], start + 1, tokens[1..])
  }

  /** A pass over the tokens that follow what is cached extends it; nothing else is touched. */
  lemma {:induction false} WriteExtends(cache: seq<Kv>, start: nat, tokens: seq<Token>, ctx: seq<Token>)
    requires start + |tokens| <= |cache| && start + |tokens| <= |ctx|
    requires tokens == ctx[start..start + |tokens|] && cache[..start] == IdealUpTo(ctx, start)
    ensures Write(cache, start, tokens)[..start + |tokens|] == IdealUpTo(ctx, start + |tokens|)
    ensures Write(cache, start, tokens)[start + |tokens|..] == cache[start + |tokens|..]
    decreases |tokens|
  {
    if tokens != [] {
      var next := cache[start := Cell(tokens[0], cache[..start])];
      assert tokens[0] == ctx[start];
      assert next[..start + 1] == cache[..start] + [Ideal(ctx, start)];
      WriteExtends(next, start + 1, tokens[1..], ctx);
      assert next[start + |tokens|..] == cache[start + |tokens|..];
    }
  }

  lemma WriteStep(cache: seq<Kv>, start: nat, tokens: seq<Token>, i: nat)
    requires i < |tokens| && start + |tokens| - i <= |cache|
    ensures Write(cache, start, tokens[i..]) == Write(cache[start := Cell(tokens[i], cache[..start])], start + 1, tokens[i + 1..])
  {
    assert tokens[i..][1..] == tokens[i + 1..];
  }

  lemma WriteDone(cache: seq<Kv>, start: nat, tokens: seq<Token>)
    requires start <= |cache|
    ensures Write(cache, start, tokens[|tokens|..]) == cache
  {
  }

  class Track {
    const model: Model
    const blockLen: Positive
    const blocks: nat
    const cache: array<Kv>
    var contextLen: nat
    var pendingToken: Token

    predicate Valid()
      reads this
    {
      cache.Length == Span(blocks, blockLen)
    }

    constructor (model: Model, blocks: nat, blockLen: Positive)
      ensures Valid() && fresh(cache) && contextLen == 0
      ensures this.model == model && this.blocks == blocks && this.blockLen == blockLen
    {
      this.model, this.blocks, this.blockLen := model, blocks, blockLen;
      cache := new Kv[Span(blocks, blockLen)](_ => Uninitialised(0));
      contextLen, pendingToken := 0, -1;
    }

    /** One forward pass over tokens that follow the live context; `picks` are the model's
        choices after each of them.  It raises when the tokens exceed the page table. */
    method Forward(tokens: seq<Token>) returns (ok: bool, picks: seq<Token>)
      requires Valid()
      modifies cache
      ensures Valid()
      ensures ok <==> contextLen + |tokens| <= cache.Length
      ensures !ok ==> cache[..] == old(cache[..])
      ensures ok ==> cache[..] == Write(old(cache[..]), contextLen, tokens)
      ensures ok ==> |picks| == |tokens| && forall i :: 0 <= i < |tokens| ==> picks[i] == model(cache[contextLen + i])
    {
      hide Write;
      CapacityIs(contextLen + |tokens|, blocks, blockLen);
      if CeilDiv(contextLen + |tokens|, blockLen) > blocks {
        return false, [];
      }
      ok, picks := true, [];
      assert tokens[0..] == tokens;
      for i := 0 to |tokens|
        invariant |picks| == i
        invariant forall j :: 0 <= j < i ==> picks[j] == model(cache[contextLen + j])
        invariant Write(cache[..], contextLen + i, tokens[i..]) == Write(old(cache[..]), contextLen, tokens)
      {
        var slot := IdentitySlot(contextLen + i, blockLen);
        IdentitySlotIs(contextLen + i, blockLen);
        ghost var before := cache[..];
        WriteStep(before, contextLen + i, tokens, i);
        var cell := Cell(tokens[i], cache[..slot]);
        assert cache[..slot] == before[..slot];
        cache[slot] := cell;
        assert cache[..] == before[slot := cell];
        picks := picks + [model(cell)];
      }
      WriteDone(cache[..], contextLen + |tokens|, tokens);
    }

    /** The live slots hold `before`. */
    ghost predicate Holds(before: seq<Token>)
      reads this, cache
    {
      contextLen == |before| <= cache.Length && cache[..contextLen] == IdealUpTo(before, contextLen)
    }

    /** A prompt, behind whatever is live. */
    method Prime(prompt: seq<Token>, ghost before: seq<Token>) returns (ok: bool, pick: Token)
      requires Valid() && Holds(before) && prompt != []
      modifies cache
      ensures ok <==> |before + prompt| <= cache.Length
      ensures ok ==> cache[..|before + prompt|] == IdealUpTo(before + prompt, |before + prompt|)
      ensures ok ==> pick == NextToken(model, before + prompt)
    {
      hide IdealUpTo, Ideal, Write;
      ghost var was, all := cache[..], before + prompt;
      var picks;
      ok, picks := Forward(prompt);
      if !ok {
        return false, -1;
      }
      pick := picks[|picks| - 1];
      PassExtends(was, before, |before|, all, prompt);
      IdealUpToElements(all, |all|);
      assert cache[..][|all| - 1] == cache[..|all|][|all| - 1];
    }

    /** One decoding pass over the token that comes next. */
    method Decode(token: Token, ghost ctx: seq<Token>) returns (ok: bool, pick: Token)
      requires Valid() && |ctx| == contextLen + 1 && token == ctx[contextLen]
      requires contextLen <= cache.Length && cache[..contextLen] == IdealUpTo(ctx, contextLen)
      modifies `contextLen, cache
      ensures Valid() && (ok <==> |ctx| <= cache.Length)
      ensures ok ==> contextLen == |ctx| && cache[..contextLen] == IdealUpTo(ctx, |ctx|) && pick == NextToken(model, ctx)
    {
      hide IdealUpTo, Ideal, Write;
      ghost var before, n := cache[..], contextLen;
      var picks;
      ok, picks := Forward([token]);
      if !ok {
        return false, -1;
      }
      PassExtends(before, ctx, n, ctx, [token]);
      IdealUpToElements(ctx, |ctx|);
      assert cache[n] == cache[..|ctx|][n];
      contextLen := contextLen + 1;
      pick := picks[0];
    }

    /** All of `ctx` but its last token is cached, and the last is pending. */
    ghost predicate Follows(ctx: seq<Token>)
      reads this, cache
    {
      && ctx != [] && contextLen == |ctx| - 1 <= cache.Length
      && pendingToken == ctx[|ctx| - 1]
      && cache[..contextLen] == IdealUpTo(ctx, contextLen)
    }
  }

  /** A pass over the pending token and what follows it in `all` fills the cache up to the last
      of them ... */
  lemma PassExtends(cache: seq<Kv>, ctx: seq<Token>, n: nat, all: seq<Token>, tokens: seq<Token>)
    requires n <= |ctx| && n <= |all| <= |cache| && ctx[..n] == all[..n]
    requires cache[..n] == IdealUpTo(ctx, n) && tokens == all[n..]
    ensures Write(cache, n, tokens)[..|all|] == IdealUpTo(all, |all|)
  {
    hide IdealUpTo, Ideal, Write;
    IdealOfPrefix(all, ctx, n, n);
    WriteExtends(cache, n, tokens, all);
  }

  lemma PendingAndMore(ctx: seq<Token>, n: nat, more: seq<Token>)
    requires |ctx| == n + 1
    ensures (ctx + more)[n..] == [ctx[n]] + more && (ctx + more)[..n] == ctx[..n]
  {
  }

  /** Entries beyond a common prefix are dead: forgetting them needs no write. */
  lemma Retract(cache: seq<Kv>, all: seq<Token>, ctx: seq<Token>, m: nat)
    requires |all| <= |cache| && cache[..|all|] == IdealUpTo(all, |all|)
    requires m <= |all| && m <= |ctx| && all[..m] == ctx[..m]
    ensures cache[..m] == IdealUpTo(ctx, m)
  {
    hide IdealUpTo, Ideal;
    IdealUpToElements(all, |all|);
    IdealUpToElements(all, m);
    IdealOfPrefix(all, ctx, m, m);
    forall p | 0 <= p < m ensures cache[p] == IdealUpTo(all, m)[p] {
      assert cache[p] == cache[..|all|][p];
    }
  }

  /** ... and lets the model pick, after each token, what it would pick for that context alone. */
  lemma PassPicks(model: Model, after: seq<Kv>, ctx: seq<Token>, more: seq<Token>, picks: seq<Token>)
    requires ctx != [] && |ctx| + |more| <= |after| && |picks| == |more| + 1
    requires after[..|ctx| + |more|] == IdealUpTo(ctx + more, |ctx| + |more|)
    requires forall i :: 0 <= i <= |more| ==> picks[i] == model(after[|ctx| - 1 + i])
    ensures Scores(model, ctx, more, picks)
  {
    hide IdealUpTo, Ideal;
    forall i | 0 <= i <= |more| ensures picks[i] == NextToken(model, ctx + more[..i]) {
      PickIs(model, after, ctx, more, i);
    }
  }

  lemma PickIs(model: Model, after: seq<Kv>, ctx: seq<Token>, more: seq<Token>, i: nat)
    requires ctx != [] && |ctx| + |more| <= |after| && i <= |more|
    requires after[..|ctx| + |more|] == IdealUpTo(ctx + more, |ctx| + |more|)
    ensures model(after[|ctx| - 1 + i]) == NextToken(model, ctx + more[..i])
  {
    hide IdealUpTo, Ideal, NextToken;
    TakeConcat(ctx, more, i);
    CellPicks(model, after, ctx + more, |ctx| + |more|, |ctx| + i);
  }

  lemma TakeConcat(ctx: seq<Token>, more: seq<Token>, i: nat)
    requires i <= |more|
    ensures (ctx + more)[..|ctx| + i] == ctx + more[..i]
  {
  }

  lemma CellPicks(model: Model, after: seq<Kv>, all: seq<Token>, len: nat, n: nat)
    requires 0 < n <= len <= |all| && len <= |after| && after[..len] == IdealUpTo(all, len)
    ensures model(after[n - 1]) == NextToken(model, all[..n])
  {
    hide IdealUpTo, Ideal;
    IdealUpToElements(all, len);
    assert after[n - 1] == after[..len][n - 1];
    IdealOfPrefix(all, all[..n], n, n - 1);
  }

  class SpeculativeEngine {
    const target: Track
    const draft: Track
    const numSpecTokens: Positive

    /** Both caches hold the context but for its last token, which is pending on both. */
    ghost predicate Follows(ctx: seq<Token>)
      reads this, target, draft, target.cache, draft.cache
    {
      && target.Valid() && draft.Valid() && target != draft && target.cache != draft.cache
      && draft.cache.Length <= target.cache.Length
      && target.Follows(ctx) && draft.Follows(ctx)
    }

    /** The draft gets one page less than the target. */
    constructor (target: Model, draft: Model, blockLen: Positive, numBlocks: Positive, numSpecTokens: Positive)
      ensures fresh(this.target) && fresh(this.draft) && fresh(this.target.cache) && fresh(this.draft.cache)
      ensures this.target.model == target && this.draft.model == draft && this.numSpecTokens == numSpecTokens
      ensures Ready([])
    {
      this.target := new Track(target, numBlocks, blockLen);
      this.draft := new Track(draft, numBlocks - 1, blockLen);
      this.numSpecTokens := numSpecTokens;
      SpanMono(numBlocks - 1, numBlocks, blockLen);
    }

    /** Both caches hold `before`: nothing on a new engine, an old context on a used one. */
    ghost predicate Ready(before: seq<Token>)
      reads this, target, draft, target.cache, draft.cache
    {
      && target.Valid() && draft.Valid() && target != draft && target.cache != draft.cache
      && draft.cache.Length <= target.cache.Length
      && target.Holds(before) && draft.Holds(before)
    }

    lemma UsedIsReady(ctx: seq<Token>)
      requires Follows(ctx)
      ensures Ready(ctx[..|ctx| - 1])
    {
      hide IdealUpTo, Ideal;
      IdealOfPrefix(ctx, ctx[..|ctx| - 1], |ctx| - 1, |ctx| - 1);
    }

    /** Run the prompt through both caches; the first token comes from the target. */
    method Prefill(prompt: seq<Token>, ghost before: seq<Token>) returns (first: Option<Token>)
      requires Ready(before)
      modifies target, draft, target.cache, draft.cache
      ensures first.Some? <==> prompt != [] && |before + prompt| <= draft.cache.Length
      ensures first.Some? ==>
                first.value == NextToken(target.model, before + prompt) && Follows(TakenForPrompt(before, prompt) + [first.value])
    {
      hide IdealUpTo, Ideal;
      if prompt == [] {
        return None;
      }
      var ok, pick := target.Prime(prompt, before);
      if !ok {
        return None;
      }
      target.contextLen, target.pendingToken := |prompt|, pick;
      var discarded;
      ok, discarded := draft.Prime(prompt, before);
      if !ok {
        return None;
      }
      draft.contextLen, draft.pendingToken := |prompt|, pick;
      Retract(target.cache[..], before + prompt, TakenForPrompt(before, prompt) + [pick], |prompt|);
      Retract(draft.cache[..], before + prompt, TakenForPrompt(before, prompt) + [pick], |prompt|);
      return Some(pick);
    }

    /** The draft decodes the pending token and then each of its own proposals, the last one
        only for its cache entry. */
    method Propose(ghost ctx: seq<Token>) returns (ok: bool, proposals: seq<Token>)
      requires draft.Valid() && draft.Follows(ctx)
      modifies draft`contextLen, draft.cache
      ensures draft.Valid() && (ok <==> |ctx| + numSpecTokens <= draft.cache.Length)
      ensures ok ==>
                && |proposals| == numSpecTokens && proposals == Stream(draft.model, ctx, numSpecTokens)
                && draft.contextLen == |ctx| + numSpecTokens
                && draft.cache[..draft.contextLen] == IdealUpTo(ctx + proposals, |ctx| + numSpecTokens)
    {
      hide IdealUpTo, Ideal, Stream;
      proposals := [];
      var token := draft.pendingToken;
      StreamStep(draft.model, ctx, 0);
      assert ctx + [] == ctx;
      for i := 0 to numSpecTokens + 1
        invariant draft.Valid() && |ctx| + i <= draft.cache.Length + 1
        invariant |proposals| == Min(i, numSpecTokens) && proposals == Stream(draft.model, ctx, |proposals|)
        invariant draft.contextLen == |ctx| - 1 + i <= draft.cache.Length
        invariant draft.cache[..draft.contextLen] == IdealUpTo(ctx + proposals, draft.contextLen)
        invariant i <= numSpecTokens ==> token == (ctx + proposals)[draft.contextLen]
      {
        var pick;
        ok, pick := draft.Decode(token, ctx + proposals);
        if !ok {
          return;
        }
        if i < numSpecTokens {
          StreamNext(draft.model, ctx, proposals);
          IdealExtends(ctx + proposals, [pick], |ctx + proposals|);
          assert ctx + proposals + [pick] == ctx + (proposals + [pick]);
          token := pick;
          proposals := proposals + [token];
        }
      }
      ok := true;
    }

    /** The target scores the pending token and all proposals in one pass. */
    method Verify(ghost ctx: seq<Token>, proposals: seq<Token>) returns (picks: seq<Token>)
      requires target.Valid() && target.Follows(ctx) && |ctx| + |proposals| <= target.cache.Length
      modifies target.cache
      ensures target.cache[..|ctx| + |proposals|] == IdealUpTo(ctx + proposals, |ctx| + |proposals|)
      ensures |picks| == |proposals| + 1 && Scores(target.model, ctx, proposals, picks)
    {
      hide IdealUpTo, Ideal, Write, Scores;
      ghost var before := target.cache[..];
      var ok;
      ok, picks := target.Forward([target.pendingToken] + proposals);
      PendingAndMore(ctx, |ctx| - 1, proposals);
      PassExtends(before, ctx, |ctx| - 1, ctx + proposals, [target.pendingToken] + proposals);
      PassPicks(target.model, target.cache[..], ctx, proposals, picks);
    }

    /** One round of drafting and verifying.  What it commits is what plain greedy decoding of
        the target would produce next, and both caches follow. */
    method Step(ghost ctx: seq<Token>) returns (committed: Option<seq<Token>>)
      requires Follows(ctx)
      modifies target, draft, target.cache, draft.cache
      ensures committed.Some? <==> |ctx| + numSpecTokens <= draft.cache.Length
      ensures committed.Some? ==>
                && 0 < |committed.value| <= numSpecTokens + 1
                && committed.value == Stream(target.model, ctx, |committed.value|)
                && Follows(ctx + committed.value)
      ensures committed.Some? ==>
                var n, drafted := |committed.value| - 1, Stream(draft.model, ctx, numSpecTokens);
                committed.value[..n] == drafted[..n] && (n < numSpecTokens ==> committed.value[n] != drafted[n])
    {
      hide IdealUpTo, Ideal, Stream, Write, Scores, AcceptRejectGreedy;
      var ok, proposals := Propose(ctx);
      if !ok {
        return None;
      }
      var picks := Verify(ctx, proposals);
      var (out, acceptedLen) := AcceptRejectGreedy(proposals, picks);
      KeptTokens(target.model, ctx, proposals, picks);
      var n, tokens := acceptedLen - 1, out[..acceptedLen];
      CommonPrefix(ctx, proposals, n, picks[n]);
      Retract(target.cache[..], ctx + proposals, ctx + tokens, |ctx| + n);
      Retract(draft.cache[..], ctx + proposals, ctx + tokens, |ctx| + n);
      target.contextLen := target.contextLen + 1 + n;
      draft.contextLen := draft.contextLen - (numSpecTokens - n);
      target.pendingToken := tokens[|tokens| - 1];
      draft.pendingToken := tokens[|tokens| - 1];
      return Some(tokens);
    }

    /** Room for the prefill, and for the last step of a generation of this length. */
    predicate HasRoom(prefilled: nat, total: nat) {
      prefilled <= draft.cache.Length && total - 1 + numSpecTokens <= draft.cache.Length
    }

    /** Speculative generation returns exactly what plain greedy decoding would: `maxNewLen`
        tokens, or up to the first `eos` after the first token.  An engine that was used before
        goes on from what its caches still hold. */
    method Generate(prompt: seq<Token>, maxNewLen: nat, eos: Option<Token>, ghost before: seq<Token>)
      returns (r: Option<seq<Token>>, ghost after: seq<Token>)
      requires Ready(before)
      modifies target, draft, target.cache, draft.cache
      ensures r.Some? ==>
                && prompt != [] && maxNewLen > 0 && Ready(after)
                && r.value == CutAtEos(ResumedStream(target.model, before, prompt, maxNewLen), eos)
      ensures r.Some? && before == [] ==> r.value == CutAtEos(Stream(target.model, prompt, maxNewLen), eos)
      ensures prompt != [] && maxNewLen > 0 && HasRoom(|before + prompt|, |prompt| + maxNewLen) ==> r.Some?
    {
      hide IdealUpTo, Ideal, Stream, ResumedStream, CutAtEos, NextToken, TakenForPrompt, SpeculativeEngine.Follows, SpeculativeEngine.Ready;
      after := [];
      if maxNewLen < 1 {
        return None, [];
      }
      var first := Prefill(prompt, before);
      if first.None? {
        return None, [];
      }
      var generated := [first.value];
      ResumedOne(target.model, before, prompt);
      ghost var seen := TakenForPrompt(before, prompt);
      while |generated| < maxNewLen
        invariant generated != [] && Follows(seen + generated)
        invariant generated == ResumedStream(target.model, before, prompt, |generated|)
        invariant forall i :: 1 <= i < |generated| ==> Some(generated[i]) != eos
        decreases maxNewLen - |generated|
      {
        var committed := Step(seen + generated);
        if committed.None? {
          return None, [];
        }
        ghost var was := generated;
        ResumedSplit(target.model, before, prompt, |was|, |committed.value|);
        var stop;
        generated, stop := AppendUntilEos(generated, committed.value, eos);
        ResumedPrefix(target.model, before, prompt, |generated|, |was + committed.value|);
        assert generated == (was + committed.value)[..|generated|];
        assert seen + was + committed.value == seen + (was + committed.value);
        if stop {
          CutOfLonger(target.model, before, prompt, generated, maxNewLen, eos);
          NewIsGreedy(target.model, before, prompt, maxNewLen);
          UsedIsReady(seen + (was + committed.value));
          return Some(generated[..Min(|generated|, maxNewLen)]), (seen + (was + committed.value))[..|seen + was + committed.value| - 1];
        }
      }
      CutOfLonger(target.model, before, prompt, generated, maxNewLen, eos);
      NewIsGreedy(target.model, before, prompt, maxNewLen);
      UsedIsReady(seen + generated);
      return Some(generated[..maxNewLen]), (seen + generated)[..|seen + generated| - 1];
    }
  }

  lemma KeptTokens(model: Model, ctx: seq<Token>, proposals: seq<Token>, picks: seq<Token>)
    requires ctx != [] && Scores(model, ctx, proposals, picks)
    ensures var (out, acceptedLen) := AcceptRejectGreedy(proposals, picks);
            && 0 < acceptedLen <= |proposals| + 1 == |out| == |picks|
            && out[..acceptedLen] == proposals[..acceptedLen - 1] + [picks[acceptedLen - 1]]
            && out[..acceptedLen] == Stream(model, ctx, acceptedLen)
            && (acceptedLen <= |proposals| ==> picks[acceptedLen - 1] != proposals[acceptedLen - 1])
  {
    hide Stream, NextToken;
    GreedyFormsAgree(proposals, picks);
    GreedyKeepsStream(model, ctx, proposals, picks);
    var n := Accepted(proposals, picks);
    assert Padded(picks[..n + 1], |picks|)[..n + 1] == picks[..n + 1];
  }

  lemma CommonPrefix(ctx: seq<Token>, proposals: seq<Token>, n: nat, pick: Token)
    requires n <= |proposals|
    ensures var m := |ctx| + n; (ctx + proposals)[..m] == (ctx + (proposals[..n] + [pick]))[..m]
  {
  }
}
