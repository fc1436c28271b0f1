/** Plain greedy decoding, the yardstick for speculation, and how a generation is cut off
    (src/einf/executors/torch/spec_runner.py:387-409). */
module GreedyDecoding {
  import opened Attention
  import opened Base

  /** A greedy model: the token it picks from what its last cell attends to. */
  type Model = Kv -> Token

  /** The next token after a context, computed for that context alone. */
  function NextToken(model: Model, ctx: seq<Token>): Token
    requires ctx != []
  {
    model(Ideal(ctx, |ctx| - 1))
  }

  /** The next `n` tokens, one forward pass each. */
  function Stream(model: Model, ctx: seq<Token>, n: nat): (s: seq<Token>)
    requires ctx != []
    ensures |s| == n
    decreases n
  {
    if n == 0 then [] else
    var t := NextToken(model, ctx);
    [t] + Stream(model, ctx + [t], n - 1)
  }

  lemma StreamStep(model: Model, ctx: seq<Token>, n: nat)
    requires ctx != []
    ensures Stream(model, ctx, n + 1) == [NextToken(model, ctx)] + Stream(model, ctx + [NextToken(model, ctx)], n)
    ensures Stream(model, ctx, 0) == []
  {
  }

  lemma {:induction false} StreamSplit(model: Model, ctx: seq<Token>, m: nat, n: nat)
    requires ctx != []
    ensures Stream(model, ctx, m + n) == Stream(model, ctx, m) + Stream(model, ctx + Stream(model, ctx, m), n)
    decreases m
  {
    if m == 0 {
      assert ctx + [] == ctx;
    } else {
      var t := NextToken(model, ctx);
      var rest := Stream(model, ctx + [t], m - 1);
      StreamSplit(model, ctx + [t], m - 1, n);
      assert ctx + [t] + rest == ctx + ([t] + rest);
    }
  }

  lemma StreamNext(model: Model, ctx: seq<Token>, s: seq<Token>)
    requires ctx != [] && s == Stream(model, ctx, |s|)
    ensures Stream(model, ctx, |s| + 1) == s + [NextToken(model, ctx + s)]
  {
    hide Stream;
    StreamSplit(model, ctx, |s|, 1);
    StreamStep(model, ctx + s, 0);
    StreamStep(model, ctx + s + [NextToken(model, ctx + s)], 0);
  }

  // ------------------------------------------------------------- used engines

  /** What is taken for the prompt by an engine whose caches still hold `before`: a forward pass
      starts behind it, and then its length is forgotten. */
  function TakenForPrompt(before: seq<Token>, prompt: seq<Token>): (s: seq<Token>)
    ensures |s| == |prompt|
  {
    (before + prompt)[..|prompt|]
  }

  /** What such an engine generates: one token after everything, then on from what is seen. */
  function ResumedStream(model: Model, before: seq<Token>, prompt: seq<Token>, n: nat): (s: seq<Token>)
    requires prompt != []
    ensures |s| == n
  {
    if n == 0 then [] else
    var t := NextToken(model, before + prompt);
    [t] + Stream(model, TakenForPrompt(before, prompt) + [t], n - 1)
  }

  /** It is plain greedy decoding of the prompt, for every model, exactly when the engine is new. */
  lemma OnlyNewIsGreedy(before: seq<Token>, prompt: seq<Token>, n: nat)
    requires prompt != []
    ensures (forall model: Model :: ResumedStream(model, before, prompt, n) == Stream(model, prompt, n)) <==> before == [] || n == 0
  {
    hide Ideal, IdealUpTo, Stream;
    if before == [] {
      forall model: Model ensures ResumedStream(model, before, prompt, n) == Stream(model, prompt, n) {
        NewIsGreedy(model, before, prompt, n);
      }
    } else if n > 0 {
      var cell, other := Ideal(prompt, |prompt| - 1), Ideal(before + prompt, |before + prompt| - 1);
      CellsDiffer(before, prompt);
      var model: Model := kv => if kv == cell then 0 else 1;
      StreamStep(model, prompt, n - 1);
      assert ResumedStream(model, before, prompt, n)[0] == 1 && Stream(model, prompt, n)[0] == 0;
    }
  }

  lemma CellsDiffer(before: seq<Token>, prompt: seq<Token>)
    requires prompt != [] && before != []
    ensures Ideal(prompt, |prompt| - 1) != Ideal(before + prompt, |before + prompt| - 1)
  {
    IdealUpToElements(prompt, |prompt| - 1);
    IdealUpToElements(before + prompt, |before + prompt| - 1);
  }

  lemma NewIsGreedy(model: Model, before: seq<Token>, prompt: seq<Token>, n: nat)
    requires prompt != []
    ensures before == [] ==> ResumedStream(model, before, prompt, n) == Stream(model, prompt, n)
  {
    hide Stream;
    if before == [] {
      assert before + prompt == prompt && TakenForPrompt(before, prompt) == prompt;
      if n > 0 { StreamStep(model, prompt, n - 1); }
      StreamStep(model, prompt, 0);
    }
  }

  lemma ResumedOne(model: Model, before: seq<Token>, prompt: seq<Token>)
    requires prompt != []
    ensures ResumedStream(model, before, prompt, 1) == [NextToken(model, before + prompt)]
  {
  }

  lemma ResumedSplit(model: Model, before: seq<Token>, prompt: seq<Token>, m: nat, n: nat)
    requires prompt != [] && m > 0
    ensures ResumedStream(model, before, prompt, m + n) ==
              ResumedStream(model, before, prompt, m)
              + Stream(model, TakenForPrompt(before, prompt) + ResumedStream(model, before, prompt, m), n)
  {
    hide Stream, TakenForPrompt, NextToken;
    var seen, t := TakenForPrompt(before, prompt), NextToken(model, before + prompt);
    StreamSplit(model, seen + [t], m - 1, n);
    var rest := Stream(model, seen + [t], m - 1);
    assert seen + [t] + rest == seen + ([t] + rest);
    assert m + n - 1 == m - 1 + n;
  }

  lemma ResumedPrefix(model: Model, before: seq<Token>, prompt: seq<Token>, m: nat, n: nat)
    requires prompt != [] && m <= n
    ensures ResumedStream(model, before, prompt, n)[..m] == ResumedStream(model, before, prompt, m)
  {
    hide Stream;
    if m > 0 { ResumedSplit(model, before, prompt, m, n - m); }
  }

  // ------------------------------------------------------------------ cutting

  /** The first index from `from` on where `eos` stands, or the length. */
  function EosAt(s: seq<Token>, from: nat, eos: Option<Token>): (k: nat)
    ensures from <= |s| ==> from <= k <= |s|
    ensures from <= |s| ==> forall i :: from <= i < k ==> Some(s[i]) != eos
    ensures k < |s| ==> Some(s[k]) == eos
    decreases |s| - from
  {
    if from >= |s| then |s| else if Some(s[from]) == eos then from else EosAt(s, from + 1, eos)
  }

  /** `s` up to and with its first `eos`; the first token is never taken for one. */
  function CutAtEos(s: seq<Token>, eos: Option<Token>): seq<Token> {
    if EosAt(s, 1, eos) < |s| then s[..EosAt(s, 1, eos) + 1] else s
  }

  lemma EosIs(s: seq<Token>, eos: Option<Token>, k: nat)
    requires 1 <= k < |s| && Some(s[k]) == eos && forall i :: 1 <= i < k ==> Some(s[i]) != eos
    ensures EosAt(s, 1, eos) == k
  {
  }

  /** What `generate` returns, seen from the stream it follows: cutting a longer stretch of it
      at `eos` and then to length is cutting the stretch of that length. */
  lemma CutOfLonger(model: Model, before: seq<Token>, prompt: seq<Token>, got: seq<Token>, max: nat, eos: Option<Token>)
    requires prompt != [] && got != [] && max > 0
    requires got == ResumedStream(model, before, prompt, |got|)
    requires forall i :: 1 <= i < |got| - 1 ==> Some(got[i]) != eos
    requires |got| >= max || (|got| > 1 && Some(got[|got| - 1]) == eos)
    ensures got[..Min(|got|, max)] == CutAtEos(ResumedStream(model, before, prompt, max), eos)
  {
    hide ResumedStream;
    var s := ResumedStream(model, before, prompt, max);
    if |got| >= max {
      ResumedPrefix(model, before, prompt, max, |got|);
      LongEnough(got, s, eos);
    } else {
      ResumedPrefix(model, before, prompt, |got|, max);
      assert forall i :: 0 <= i < |got| ==> s[i] == s[..|got|][i] == got[i];
      EosIs(s, eos, |got| - 1);
    }
  }

  lemma LongEnough(got: seq<Token>, s: seq<Token>, eos: Option<Token>)
    requires s != [] && |got| >= |s| && s == got[..|s|]
    requires forall i :: 1 <= i < |got| - 1 ==> Some(got[i]) != eos
    ensures CutAtEos(s, eos) == s
  {
    var k := EosAt(s, 1, eos);
    if k < |s| {
      assert got[k] == s[k];
      assert k == |s| - 1;
    }
  }

  /** The first token goes untested: the result differs from a cut at the first `eos` anywhere
      exactly when that is the first token and something follows it. */
  lemma FirstTokenUntested(s: seq<Token>, eos: Option<Token>)
    requires s != []
    ensures var k := EosAt(s, 0, eos);
            CutAtEos(s, eos) == (if k < |s| then s[..k + 1] else s) <==> !(|s| > 1 && Some(s[0]) == eos)
  {
    if Some(s[0]) != eos { assert EosAt(s, 0, eos) == EosAt(s, 1, eos); }
  }

  /** The loop over the tokens that a step committed: append, and stop at `eos`. */
  method AppendUntilEos(generated: seq<Token>, committed: seq<Token>, eos: Option<Token>) returns (all: seq<Token>, stop: bool)
    ensures generated <= all <= generated + committed
    ensures stop ==> |generated| < |all| && Some(all[|all| - 1]) == eos
    ensures !stop ==> all == generated + committed
    ensures forall i :: |generated| <= i < |all| - (if stop then 1 else 0) ==> Some(all[i]) != eos
  {
    all := generated;
    for k := 0 to |committed|
      invariant all == generated + committed[..k]
      invariant forall i :: |generated| <= i < |all| ==> Some(all[i]) != eos
    {
      all := all + [committed[k]];
      if eos == Some(committed[k]) {
        return all, true;
      }
    }
    return all, false;
  }
}
