/** The control plane and greedy decoding together: what a request is answered, whoever it shares
    the server with, is what plain greedy decoding of its own prompt would produce, except after a
    token that was sampled too early. */
module GreedyServing {
  import opened Attention
  import opened Base
  import opened KvCaches
  import opened Requests
  import opened Schedules
  import opened SchedulerInvariants
  import opened SchedulerResults
  import opened Transparency
  import opened Serving
  import opened SampleTiming
  import opened GreedyDecoding

  // ---------------------------------------------------------------- one answer

  /** The cell of an item's last token, looked up in memory. */
  function LastCell(s: System, it: ScheduledRequest): Kv
    requires it.start + |it.input| > 0
  {
    s.memory(SlotOf(it.blockTable, it.start + |it.input| - 1, s.st.cache.blockLen))
  }

  /** A sampled token is the model's pick at the item's last cell. */
  ghost predicate PicksGreedily(model: Model, s: System, item: RequestResult) {
    var found := FindItem(Ran(s), item.id);
    found.Some? && found.value.start + |found.value.input| > 0 && item.generated != [] ==>
      item.generated[0] == model(LastCell(s, found.value))
  }

  ghost predicate GreedyEvent(model: Model, s: System, e: Event) {
    e.Apply? ==> forall k :: 0 <= k < |e.result.results| ==> PicksGreedily(model, s, e.result.results[k])
  }

  /** What the request has been answered so far is the plain greedy stream of its prompt. */
  ghost predicate AnsweredGreedily(model: Model, s: System, id: RequestId, prompt: seq<Token>) {
    && prompt != [] && id in s.st.requests && s.st.requests[id].prompt == prompt
    && s.st.requests[id].generated == Stream(model, prompt, |s.st.requests[id].generated|)
  }

  /** What a greedy model picks at the last cell of any executed item is the next token after the
      request's own context up to there. */
  lemma SampledToken(model: Model, s: System, i: nat)
    requires SystemOk(s) && s.executed && i < |Ran(s)|
    ensures var it := Ran(s)[i];
            && it.id in s.st.requests && 0 < it.start + |it.input| <= |s.st.requests[it.id].Context()|
            && model(LastCell(s, it)) == NextToken(model, s.st.requests[it.id].Context()[..it.start + |it.input|])
  {
    hide Inv, KvOk, SlotOf, Ideal;
    var it := Ran(s)[i];
    ItemHolds(s, i);
    BatchStarts(s.st, Ran(s), i);
    RanItem(s, i);
    var ctx, n := s.st.requests[it.id].Context(), it.start + |it.input|;
    IdealOfPrefix(ctx, ctx[..n], n, n - 1);
  }

  lemma RanItem(s: System, i: nat)
    requires SystemOk(s) && i < |Ran(s)|
    ensures ItemOk(s.st, Ran(s)[i])
  {
    hide CacheInv, LengthsOk, KvOk;
  }

  /** An item that decodes too early samples once more the token that already follows. */
  lemma EarlyRepeats(model: Model, s: System, i: nat, prompt: seq<Token>)
    requires SystemOk(s) && s.executed && i < |Ran(s)| && AnsweredGreedily(model, s, Ran(s)[i].id, prompt)
    requires !Timely(s.st.requests[Ran(s)[i].id], Ran(s)[i])
    ensures var it := Ran(s)[i];
            var g, k := s.st.requests[it.id].generated, it.start + 1 - |prompt|;
            && it.start + |it.input| > 0 && 0 < k < |g| && model(LastCell(s, it)) == g[k]
  {
    hide SystemOk, Stream, NextToken;
    RanItem(s, i);
    SampledToken(model, s, i);
    var it := Ran(s)[i];
    var g, k := s.st.requests[it.id].generated, it.start + 1 - |prompt|;
    assert s.st.requests[it.id].Context()[..it.start + 1] == prompt + g[..k];
    StreamAfter(model, prompt, g, k);
  }

  /** Each token of the stream follows from those before it. */
  lemma StreamAfter(model: Model, prompt: seq<Token>, g: seq<Token>, k: nat)
    requires prompt != [] && g == Stream(model, prompt, |g|) && k < |g|
    ensures g[k] == NextToken(model, prompt + g[..k])
  {
    hide Stream, NextToken;
    StreamBeginning(model, prompt, g, k);
    StreamSplit(model, prompt, k, |g| - k);
    StreamStep(model, prompt + g[..k], |g| - k - 1);
  }

  lemma StreamBeginning(model: Model, prompt: seq<Token>, g: seq<Token>, k: nat)
    requires prompt != [] && g == Stream(model, prompt, |g|) && k <= |g|
    ensures g[..k] == Stream(model, prompt, k)
  {
    hide Stream;
    StreamSplit(model, prompt, k, |g| - k);
  }

  /** The item is timely, or the token that it repeats happens to be the next one too. */
  ghost predicate KeepsStream(model: Model, r: Req, it: ScheduledRequest) {
    || Timely(r, it)
    || (&& r.Context() != [] && 0 <= it.start + 1 - |r.prompt| < |r.generated|
        && NextToken(model, r.Context()) == r.generated[it.start + 1 - |r.prompt|])
  }

  /** A result with the pick of the model extends the stream if and only if its item keeps it. */
  lemma AnswerExactly(model: Model, s: System, i: nat, item: RequestResult, prompt: seq<Token>)
    requires SystemOk(s) && s.executed && Answers(Ran(s), item) && PicksGreedily(model, s, item)
    requires i < |Ran(s)| && FindItem(Ran(s), item.id) == Some(Ran(s)[i]) && Ran(s)[i].id == item.id
    requires AnsweredGreedily(model, s, item.id, prompt)
    ensures var r := s.st.requests[item.id];
            var g := r.generated + item.generated;
            g == Stream(model, prompt, |g|) <==> KeepsStream(model, r, Ran(s)[i])
  {
    hide Inv, KvOk, FindItem, Stream, NextToken, SlotOf, CacheOk;
    var r, it := s.st.requests[item.id], Ran(s)[i];
    RanItem(s, i);
    SampledToken(model, s, i);
    SamplesInTime(s.st, it);
    if it.needSample {
      StreamNext(model, prompt, r.generated);
      var g := r.generated + item.generated;
      assert item.generated == [model(LastCell(s, it))];
      assert g == r.generated + [NextToken(model, prompt + r.generated)] <==> g[|r.generated|] == NextToken(model, prompt + r.generated);
      if Timely(r, it) {
        assert r.Context()[..|r.Context()|] == prompt + r.generated;
      } else {
        EarlyRepeats(model, s, i, prompt);
      }
    } else {
      assert r.generated + item.generated == r.generated;
    }
  }

  // ------------------------------------------------------------------ one step

  /** In an accepted result, every item of the request is timely. */
  ghost predicate TimelyEvent(s: System, e: Event, id: RequestId) {
    e.Apply? && s.st.ApplyResult(e.result).1 == Done && id in s.st.requests ==>
      forall i :: 0 <= i < |Ran(s)| && Ran(s)[i].id == id ==> Timely(s.st.requests[id], Ran(s)[i])
  }

  /** In an accepted result, every item of the request keeps its stream. */
  ghost predicate EventKeeps(model: Model, s: System, e: Event, id: RequestId) {
    e.Apply? && s.st.ApplyResult(e.result).1 == Done && id in s.st.requests ==>
      forall i :: 0 <= i < |Ran(s)| && Ran(s)[i].id == id ==> KeepsStream(model, s.st.requests[id], Ran(s)[i])
  }

  lemma ApplyExactly(model: Model, s: System, result: ExecutionResult, s1: System, id: RequestId, prompt: seq<Token>)
    requires SystemOk(s) && Next(s, Apply(result), s1) && GreedyEvent(model, s, Apply(result))
    requires AnsweredGreedily(model, s, id, prompt)
    ensures AnsweredGreedily(model, s1, id, prompt) <==> EventKeeps(model, s, Apply(result), id)
  {
    hide Inv, KvOk, State.ApplyResult, CommitFrame, Answers, BatchIds, Stream, PicksGreedily, KeepsStream, FindItem;
    ApplyResultOk(s.st, result);
    ResultGenerated(s, result, id);
    if s.st.ApplyResult(result).1 == Done {
      var batch := s.st.outstanding.value.requests;
      if id in BatchIds(batch) {
        assert id in ResultIds(result.results);
        var k :| 0 <= k < |result.results| && result.results[k].id == id;
        InBatch(s.st, batch, id);
        var i :| 0 <= i < |batch| && batch[i].id == id && FindItem(batch, id) == Some(batch[i]);
        AnswerExactly(model, s, i, result.results[k], prompt);
        forall j | 0 <= j < |batch| && batch[j].id == id ensures batch[j] == batch[i] { OneItem(s.st, batch, j); }
      } else {
        NotInIds(batch, id);
      }
    }
  }

  lemma InBatch(st: State, batch: seq<ScheduledRequest>, id: RequestId)
    requires Inv(st, batch) && id in BatchIds(batch)
    ensures exists i :: 0 <= i < |batch| && batch[i].id == id && FindItem(batch, id) == Some(batch[i])
  {
    hide Inv, FindItem;
    var i :| 0 <= i < |batch| && batch[i].id == id;
    OneItem(st, batch, i);
  }

  lemma OneItem(st: State, batch: seq<ScheduledRequest>, i: nat)
    requires Inv(st, batch) && i < |batch|
    ensures FindItem(batch, batch[i].id) == Some(batch[i])
  {
    hide CacheInv, LengthsOk;
    FindItemAt(batch, i);
  }

  /** No step forgets a request, changes its prompt or cuts what it generated; only a result adds
      to that. */
  lemma NextGenerated(s: System, e: Event, s1: System, id: RequestId)
    requires SystemOk(s) && Next(s, e, s1) && id in s.st.requests
    ensures id in s1.st.requests && s1.st.requests[id].prompt == s.st.requests[id].prompt
    ensures s.st.requests[id].generated <= s1.st.requests[id].generated
    ensures !e.Apply? ==> s1.st.requests[id].generated == s.st.requests[id].generated
  {
    hide Inv, State.Submit, State.Cancel, State.ApplyResult, State.FailBatch, State.Schedule, KvOk, Answers, BatchIds;
    match e {
      case SubmitRequest(spec) => SubmitOk(s.st, spec);
      case CancelRequest(x) => CancelOk(s.st, x);
      case ScheduleBatch => if s.st.outstanding == None { RoundRequests(s.st, id); } else { NoRound(s.st); }
      case Apply(result) => ResultGenerated(s, result, id);
      case Fail(batch, message) => FailBatchOk(s.st, batch, message);
      case _ =>
    }
  }

  lemma ResultGenerated(s: System, result: ExecutionResult, id: RequestId)
    requires SystemOk(s) && id in s.st.requests
    ensures var st1 := s.st.ApplyResult(result).0;
            && id in st1.requests && st1.requests[id].prompt == s.st.requests[id].prompt
            && s.st.requests[id].generated <= st1.requests[id].generated
  {
    hide Inv, State.ApplyResult, KvOk, Answers, BatchIds;
    ApplyResultOk(s.st, result);
    if s.st.ApplyResult(result).1 == Done && id in BatchIds(s.st.outstanding.value.requests) {
      assert id in ResultIds(result.results);
      var k :| 0 <= k < |result.results| && result.results[k].id == id;
    }
  }

  lemma NextExactly(model: Model, s: System, e: Event, s1: System, id: RequestId, prompt: seq<Token>)
    requires SystemOk(s) && Next(s, e, s1) && GreedyEvent(model, s, e) && AnsweredGreedily(model, s, id, prompt)
    ensures AnsweredGreedily(model, s1, id, prompt) <==> EventKeeps(model, s, e, id)
  {
    hide SystemOk, Next, GreedyEvent, KeepsStream, Stream;
    if e.Apply? {
      ApplyExactly(model, s, e.result, s1, id, prompt);
    } else {
      NextGenerated(s, e, s1, id);
    }
  }

  /** A wrong token stays: later answers do not mend the stream. */
  lemma NotMended(model: Model, s: System, e: Event, s1: System, id: RequestId, prompt: seq<Token>)
    requires SystemOk(s) && Next(s, e, s1) && id in s.st.requests && s.st.requests[id].prompt == prompt
    ensures AnsweredGreedily(model, s1, id, prompt) ==> AnsweredGreedily(model, s, id, prompt)
  {
    hide SystemOk, Next, Stream;
    NextGenerated(s, e, s1, id);
    if AnsweredGreedily(model, s1, id, prompt) {
      StreamBeginning(model, prompt, s1.st.requests[id].generated, |s.st.requests[id].generated|);
    }
  }

  // ---------------------------------------------------------------- whole runs

  /** A run whose results are picked by the model. */
  ghost predicate GreedyTrace(model: Model, states: seq<System>, events: seq<Event>) {
    Trace(states, events) && forall k :: 0 <= k < |events| ==> GreedyEvent(model, states[k], events[k])
  }

  lemma {:induction false} TraceExactly(model: Model, states: seq<System>, events: seq<Event>, id: RequestId, prompt: seq<Token>, n: nat)
    requires GreedyTrace(model, states, events) && n <= |events|
    requires SystemOk(states[0]) && AnsweredGreedily(model, states[0], id, prompt)
    ensures SystemOk(states[n]) && id in states[n].st.requests && states[n].st.requests[id].prompt == prompt
    ensures AnsweredGreedily(model, states[n], id, prompt) <==>
              forall k :: 0 <= k < n ==> EventKeeps(model, states[k], events[k], id)
  {
    hide SystemOk, Next, GreedyEvent, EventKeeps, Stream;
    if n > 0 {
      TraceExactly(model, states, events, id, prompt, n - 1);
      NextOk(states[n - 1], events[n - 1], states[n]);
      NextGenerated(states[n - 1], events[n - 1], states[n], id);
      if AnsweredGreedily(model, states[n - 1], id, prompt) {
        NextExactly(model, states[n - 1], events[n - 1], states[n], id, prompt);
      } else {
        NotMended(model, states[n - 1], events[n - 1], states[n], id, prompt);
      }
    }
  }

  /** Over any run, a request is answered the plain greedy stream of its own prompt if and only if
      each of its items that was answered was timely or repeated the token that comes next anyway. */
  lemma ServedExactly(model: Model, states: seq<System>, events: seq<Event>, id: RequestId)
    requires GreedyTrace(model, states, events) && Reachable(states[0])
    requires id in states[0].st.requests && states[0].st.requests[id].generated == []
    ensures id in states[|events|].st.requests && states[0].st.requests[id].prompt != []
    ensures var prompt, g := states[0].st.requests[id].prompt, states[|events|].st.requests[id].generated;
            g == Stream(model, prompt, |g|) <==> forall k :: 0 <= k < |events| ==> EventKeeps(model, states[k], events[k], id)
  {
    hide Reachable, Next, GreedyEvent, EventKeeps, KvOk, Consistent;
    ReachableOk(states[0]);
    ActiveLengths(states[0].st, id);
    TraceExactly(model, states, events, id, states[0].st.requests[id].prompt, |events|);
  }

  /** Whatever is submitted, cancelled, shared, failed or preempted, the request itself included, a
      request whose answered items were all timely is answered the plain greedy stream of its prompt. */
  lemma ServesGreedily(model: Model, states: seq<System>, events: seq<Event>, id: RequestId)
    requires GreedyTrace(model, states, events) && Reachable(states[0])
    requires id in states[0].st.requests && states[0].st.requests[id].generated == []
    requires forall k :: 0 <= k < |events| ==> TimelyEvent(states[k], events[k], id)
    ensures id in states[|events|].st.requests && states[0].st.requests[id].prompt != []
    ensures var prompt, g := states[0].st.requests[id].prompt, states[|events|].st.requests[id].generated;
            g == Stream(model, prompt, |g|)
  {
    hide Reachable, Next, GreedyEvent, Timely, NextToken, Stream;
    ServedExactly(model, states, events, id);
    forall k | 0 <= k < |events| ensures EventKeeps(model, states[k], events[k], id) {
      assert TimelyEvent(states[k], events[k], id);
    }
  }
}
