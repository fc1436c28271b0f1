/** The undo log (crates/einf-control/src/rollback.rs) and what running it restores.

    These facts need no invariant of the cache: they hold however a cache operation fails. */
module Rollbacks {
  import opened Base
  import opened KvCaches
  import opened Requests
  import opened Schedules
  import opened SchedulerResults

  /** Some action of the log puts the cache back. */
  ghost predicate HasRestore(log: seq<Undo>) {
    exists i :: 0 <= i < |log| && log[i].RestoreCache?
  }

  /** The actions before a restore do not see what the cache has become since. */
  lemma {:induction false} UnwindIgnoresCache(st: State, c: Cache, log: seq<Undo>)
    requires HasRestore(log)
    ensures st.(cache := c).Unwind(log) == st.Unwind(log)
    decreases |log|
  {
    var last, front := log[|log| - 1], log[..|log| - 1];
    if last.RestoreCache? {
      assert st.(cache := c).Undone(last) == st.Undone(last);
    } else {
      assert st.(cache := c).Undone(last) == st.Undone(last).(cache := c);
      var i :| 0 <= i < |log| && log[i].RestoreCache?;
      assert front[i] == log[i];
      UnwindIgnoresCache(st.Undone(last), c, front);
    }
  }

  lemma UnwindLast(st: State, log: seq<Undo>, u: Undo)
    ensures st.Unwind(log + [u]) == st.Undone(u).Unwind(log)
  {
    var all := log + [u];
    assert all[|all| - 1] == u && all[..|all| - 1] == log;
  }

  lemma HasRestoreAppend(log: seq<Undo>, u: Undo)
    ensures HasRestore(log + [u]) <==> HasRestore(log) || u.RestoreCache?
  {
    var all := log + [u];
    assert all[|log|] == u;
    if HasRestore(log) {
      var i :| 0 <= i < |log| && log[i].RestoreCache?;
      assert all[i] == log[i];
    }
    if HasRestore(all) {
      var i :| 0 <= i < |all| && all[i].RestoreCache?;
      assert i < |log| ==> log[i] == all[i];
    }
  }

  // ------------------------------------------------------------- one action

  lemma InsertUndoesRemove(s: seq<RequestId>, id: RequestId)
    requires IndexOf(s, id).Some?
    ensures var k := IndexOf(s, id).value; InsertAt(RemoveAt(s, k), k, id) == s
  {
    IndexOfMeans(s, id);
    var k := IndexOf(s, id).value;
    var t := RemoveAt(s, k);
    assert t[..k] == s[..k] && t[k..] == s[k + 1..];
    assert s == s[..k] + [s[k]] + s[k + 1..];
  }

  /** Retiring changes the running list, which its own action puts back, and the cache. */
  lemma RetireUnwinds(st: State, id: RequestId, log: seq<Undo>)
    ensures var (st1, log1, s) := st.Retire(id, log);
            && st1.Unwind(log1) == st.(cache := st1.cache).Unwind(log)
            && (HasRestore(log1) <==> HasRestore(log))
  {
    var (st1, log1, s) := st.Retire(id, log);
    var index := IndexOf(st.running, id);
    if index.Some? {
      var u := InsertRunning(index.value, id);
      UnwindLast(st1, log, u);
      InsertUndoesRemove(st.running, id);
      assert st1.Undone(u) == st.(cache := st1.cache);
      HasRestoreAppend(log, u);
    } else {
      assert st1 == st.(cache := st1.cache);
    }
  }

  lemma UndoAdvanceRestores(st: State, item: RequestResult)
    requires item.id in st.requests
    requires st.requests[item.id].AdvanceChecks(AdvanceResult(item.generated, item.cachedLenDelta, st.Reason(item))) == Done
    ensures var r := st.requests[item.id];
            var r1 := r.Advance(AdvanceResult(item.generated, item.cachedLenDelta, st.Reason(item))).0;
            st.(requests := st.requests[item.id := r1]).Undone(
              UndoAdvance(item.id, |item.generated|, r.sampleIndex, r.cachedLen, r.state, r.completion)) == st
  {
    var r := st.requests[item.id];
    var result := AdvanceResult(item.generated, item.cachedLenDelta, st.Reason(item));
    RollbackAdvanceExact(r, result);
    assert st.requests[item.id := r.Advance(result).0][item.id := r] == st.requests;
  }

  /** The early checks of `advance`, which validation has ruled out failing. */
  ghost predicate Advances(st: State, item: RequestResult) {
    && item.id in st.requests
    && st.requests[item.id].AdvanceChecks(AdvanceResult(item.generated, item.cachedLenDelta, st.Reason(item))) == Done
  }

  // ---------------------------------------------------------- apply_result

  /** Without a block boundary crossed, sealing leaves the cache alone. */
  lemma NothingToSeal(st: State, id: RequestId, oldCachedLen: nat)
    requires id in st.requests && st.requests[id].cachedLen / st.cache.blockLen == oldCachedLen / st.cache.blockLen
    ensures st.SealFilled(id, oldCachedLen).0 == st
  {
    var (st1, s) := st.SealFilled(id, oldCachedLen);
    var bl := st.cache.blockLen;
    var a := oldCachedLen / bl * bl;
    if 0 <= a <= |st.requests[id].Context()| {
      assert st.requests[id].Context()[a..a] == [];
    }
  }

  lemma QuotientMono(m: nat, n: nat, d: Positive)
    requires m <= n
    ensures m / d <= n / d
  {
    SpanOfQuotient(m, d);
    SpanOfQuotient(n, d);
    if n / d < m / d { SpanMono(n / d + 1, m / d, d); }
  }

  /** A round of committing, however far it gets, is undone by what it logged: unwinding from
      the state it leaves is unwinding from the state it started in. */
  lemma CommitOneUnwinds(st: State, item: RequestResult, log: seq<Undo>, snapshotted: bool)
    requires Advances(st, item) && (snapshotted <==> HasRestore(log))
    ensures var (st1, log1, snap, s) := st.CommitOne(item, log, snapshotted);
            && st1.Unwind(log1) == st.Unwind(log)
            && (snap <==> HasRestore(log1))
  {
    hide State.SealFilled, State.Retire, State.Unwind, State.Undone, HasRestore, Req.AdvanceChecks, Req.CheckInvariants;
    var r := st.requests[item.id];
    var u := UndoAdvance(item.id, |item.generated|, r.sampleIndex, r.cachedLen, r.state, r.completion);
    var log1 := log + [u];
    var (r1, s1) := r.Advance(AdvanceResult(item.generated, item.cachedLenDelta, st.Reason(item)));
    var st1 := st.(requests := st.requests[item.id := r1]);
    UndoAdvanceRestores(st, item);
    UnwindLast(st1, log, u);
    HasRestoreAppend(log, u);
    if s1 == Done {
      AdvanceState(r, AdvanceResult(item.generated, item.cachedLenDelta, st.Reason(item)));
      AfterAdvance(st, item, log1, snapshotted, st1, r1);
    }
  }

  lemma AdvanceState(r: Req, result: AdvanceResult)
    requires r.Advance(result).1 == Done
    ensures var r1 := r.Advance(result).0;
            && r1.cachedLen == r.cachedLen + result.cachedLenDelta
            && (result.completionReason.None? ==> r1.state == Running)
  {
  }

  lemma AfterAdvance(st: State, item: RequestResult, log1: seq<Undo>, snapshotted: bool, st1: State, r1: Req)
    requires item.id in st.requests && (snapshotted <==> HasRestore(log1))
    requires st1 == st.(requests := st.requests[item.id := r1])
    requires r1.cachedLen == st.requests[item.id].cachedLen + item.cachedLenDelta
    requires st.Reason(item).None? ==> !r1.state.IsTerminal()
    ensures var bl, r := st.cache.blockLen, st.requests[item.id];
            var willSeal := (r.cachedLen + item.cachedLenDelta) / bl > r.cachedLen / bl;
            var snap := (willSeal || st.Reason(item).Some?) && !snapshotted;
            var log2 := if snap then log1 + [RestoreCache(st.cache)] else log1;
            var (st2, s2) := st1.SealFilled(item.id, r.cachedLen);
            && st2.Unwind(log2) == st1.Unwind(log1)
            && ((snapshotted || snap) <==> HasRestore(log2))
            && var (st3, log3, s3) := st2.Retire(item.id, log2);
               && (r1.state.IsTerminal() ==> st3.Unwind(log3) == st1.Unwind(log1))
               && (HasRestore(log3) <==> HasRestore(log2))
  {
    hide State.SealFilled, State.Retire, State.Unwind, HasRestore;
    var bl, r := st.cache.blockLen, st.requests[item.id];
    var willSeal := (r.cachedLen + item.cachedLenDelta) / bl > r.cachedLen / bl;
    var snap := (willSeal || st.Reason(item).Some?) && !snapshotted;
    var restore := RestoreCache(st.cache);
    var log2 := if snap then log1 + [restore] else log1;
    var (st2, s2) := st1.SealFilled(item.id, r.cachedLen);
    SealFilledOnlyCache(st1, item.id, r.cachedLen);
    RetireUnwinds(st2, item.id, log2);
    var st3 := st2.Retire(item.id, log2).0;
    HasRestoreAppend(log1, restore);
    if snap {
      UnwindLast(st2, log1, restore);
      UnwindLast(st2.(cache := st3.cache), log1, restore);
      assert st2.Undone(restore) == st1 == st2.(cache := st3.cache).Undone(restore);
    } else if snapshotted {
      UnwindIgnoresCache(st1, st2.cache, log1);
      UnwindIgnoresCache(st1, st3.cache, log1);
      assert st1.(cache := st2.cache) == st2 && st1.(cache := st3.cache) == st2.(cache := st3.cache);
    } else {
      QuotientMono(r.cachedLen, r1.cachedLen, bl);
      NothingToSeal(st1, item.id, r.cachedLen);
    }
  }

  lemma SealFilledOnlyCache(st: State, id: RequestId, oldCachedLen: nat)
    ensures var st1 := st.SealFilled(id, oldCachedLen).0; st1 == st.(cache := st1.cache)
  {
    hide Cache.SealBlocks;
  }

  /** Distinct requests, all of them past the early checks of `advance`. */
  ghost predicate AllAdvance(st: State, items: seq<RequestResult>) {
    && (forall i :: 0 <= i < |items| ==> Advances(st, items[i]))
    && (forall i, j :: 0 <= i < j < |items| ==> items[i].id != items[j].id)
  }

  lemma CommitOneFrame(st: State, item: RequestResult, log: seq<Undo>, snapshotted: bool, x: RequestId)
    ensures var st1 := st.CommitOne(item, log, snapshotted).0;
            && st1.requests.Keys == st.requests.Keys
            && (x in st.requests && x != item.id ==> st1.requests[x] == st.requests[x])
  {
    hide Req.Advance, Cache.SealBlocks, Cache.Release;
  }

  /** Whatever prefix of the results was committed, and wherever it stopped, running the undo
      log last in first out restores requests, running order and cache exactly. */
  lemma {:induction false} CommitUnwinds(st: State, items: seq<RequestResult>, log: seq<Undo>, snapshotted: bool)
    requires AllAdvance(st, items) && (snapshotted <==> HasRestore(log))
    ensures var (st1, log1, s) := st.Commit(items, log, snapshotted);
            st1.Unwind(log1) == st.Unwind(log)
    decreases |items|
  {
    hide State.CommitOne, HasRestore, State.Unwind, Req.AdvanceChecks;
    if items != [] {
      var item, rest := items[0], items[1..];
      assert Advances(st, item);
      CommitOneUnwinds(st, item, log, snapshotted);
      var (st1, log1, snap, s) := st.CommitOne(item, log, snapshotted);
      if s == Done {
        forall i | 0 <= i < |rest| ensures Advances(st1, rest[i]) {
          assert rest[i] == items[i + 1] && Advances(st, items[i + 1]);
          CommitOneFrame(st, item, log, snapshotted, rest[i].id);
        }
        CommitUnwinds(st1, rest, log1, snap);
      }
    }
  }

  /** Validation is what makes the undo exact: an accepted result passes the early checks. */
  lemma ValidatedAdvances(st: State, plan: BatchPlan, items: seq<RequestResult>)
    requires st.CheckResults(plan, {}, items) == Done
    requires forall id :: id in st.requests ==> st.requests[id].CheckInvariants() == Done
    ensures AllAdvance(st, items)
  {
    ValidatedEach(st, plan, {}, items);
  }

  lemma {:induction false} ValidatedEach(st: State, plan: BatchPlan, seen: set<RequestId>, items: seq<RequestResult>)
    requires st.CheckResults(plan, seen, items) == Done
    requires forall id :: id in st.requests ==> st.requests[id].CheckInvariants() == Done
    ensures AllAdvance(st, items)
    ensures forall i :: 0 <= i < |items| ==> items[i].id !in seen
    decreases |items|
  {
    if items != [] {
      var rest := items[1..];
      ValidatedEach(st, plan, seen + {items[0].id}, rest);
      forall i | 0 <= i < |items| ensures Advances(st, items[i]) && items[i].id !in seen {
        if i > 0 { assert items[i] == rest[i - 1]; }
      }
      forall i, j | 0 <= i < j < |items| ensures items[i].id != items[j].id {
        assert items[j] == rest[j - 1];
        if i > 0 { assert items[i] == rest[i - 1]; }
      }
    }
  }

  /** So `apply_result`, on any scheduler whose requests are in order and whatever its cache
      does, either commits or leaves the state exactly as it was; only a panic cuts it short. */
  lemma ApplyResultAtomic(st: State, result: ExecutionResult)
    requires forall id :: id in st.requests ==> st.requests[id].CheckInvariants() == Done
    ensures var (st1, s) := st.ApplyResult(result);
            s.Failure? && s.error != Panicked ==> st1 == st
  {
    hide State.Commit, State.CheckResults;
    if st.outstanding.Some? {
      var plan := st.outstanding.value;
      if st.Validate(plan, result) == Done {
        ValidatedAdvances(st, plan, result.results);
        var st0 := st.(outstanding := None);
        assert AllAdvance(st0, result.results) by {
          forall i | 0 <= i < |result.results| ensures Advances(st0, result.results[i]) {
            assert Advances(st, result.results[i]);
          }
        }
        CommitUnwinds(st0, result.results, [], false);
      }
    }
  }

  // ------------------------------------------------------------- fail_batch

  ghost predicate Fails(st: State, item: ScheduledRequest) {
    item.id in st.requests ==> st.requests[item.id].state == Running && st.requests[item.id].error == None
  }

  lemma FailOneUnwinds(st: State, item: ScheduledRequest, message: string, log: seq<Undo>)
    requires Fails(st, item) && HasRestore(log)
    ensures var (st1, log1, s) := st.FailOne(item, message, log);
            st1.Unwind(log1) == st.Unwind(log) && HasRestore(log1)
  {
    hide State.Retire, State.Unwind, HasRestore;
    if item.id in st.requests {
      var u := UndoFail(item.id);
      var log1 := log + [u];
      var r := st.requests[item.id];
      var st1 := st.(requests := st.requests[item.id := r.Fail(message).0]);
      RollbackFailExact(r, message);
      UnwindLast(st1, log, u);
      assert st1.Undone(u) == st by {
        assert st.requests[item.id := r.Fail(message).0][item.id := r] == st.requests;
      }
      HasRestoreAppend(log, u);
      RetireUnwinds(st1, item.id, log1);
      UnwindIgnoresCache(st1, st1.Retire(item.id, log1).0.cache, log1);
    }
  }

  lemma {:induction false} FailAllUnwinds(st: State, items: seq<ScheduledRequest>, message: string, log: seq<Undo>)
    requires forall i :: 0 <= i < |items| ==> Fails(st, items[i])
    requires forall i, j :: 0 <= i < j < |items| ==> items[i].id != items[j].id
    requires HasRestore(log)
    ensures var (st1, log1, s) := st.FailAll(items, message, log);
            st1.Unwind(log1) == st.Unwind(log)
    decreases |items|
  {
    hide State.FailOne, HasRestore, State.Unwind;
    if items != [] {
      var rest := items[1..];
      FailOneUnwinds(st, items[0], message, log);
      var (st1, log1, s) := st.FailOne(items[0], message, log);
      if s == Done {
        forall i | 0 <= i < |rest| ensures Fails(st1, rest[i]) {
          assert rest[i] == items[i + 1] && Fails(st, items[i + 1]);
          FailOneFrame(st, items[0], message, log, rest[i].id);
        }
        FailAllUnwinds(st1, rest, message, log1);
      }
    }
  }

  lemma FailOneFrame(st: State, item: ScheduledRequest, message: string, log: seq<Undo>, x: RequestId)
    ensures var st1 := st.FailOne(item, message, log).0;
            && st1.requests.Keys == st.requests.Keys
            && (x in st.requests && x != item.id ==> st1.requests[x] == st.requests[x])
  {
    hide Req.Fail, Cache.Release;
  }

  /** `fail_batch` that fails half way restores requests, running order and cache, but leaves
      nothing outstanding: the state comes back whole exactly when the failure came before the
      batch was taken. */
  lemma FailBatchUnwinds(st: State, batch: BatchPlan, message: string)
    requires st.outstanding == Some(batch) ==> forall i :: 0 <= i < |batch.requests| ==> Fails(st, batch.requests[i])
    requires st.outstanding == Some(batch) ==>
               forall i, j :: 0 <= i < j < |batch.requests| ==> batch.requests[i].id != batch.requests[j].id
    ensures var (st1, s) := st.FailBatch(batch, message);
            s.Failure? && s.error != Panicked ==>
              && (st1 == st <==> st.outstanding != Some(batch))
              && (st.outstanding == Some(batch) ==> st1 == st.(outstanding := None))
  {
    hide State.FailAll;
    if st.outstanding == Some(batch) {
      var st0 := st.(outstanding := None);
      var log := [RestoreCache(st.cache)];
      assert log[0].RestoreCache?;
      forall i | 0 <= i < |batch.requests| ensures Fails(st0, batch.requests[i]) {
        assert Fails(st, batch.requests[i]);
      }
      FailAllUnwinds(st0, batch.requests, message, log);
      UnwindLast(st0, [], RestoreCache(st.cache));
      assert [] + log == log;
    }
  }
}
