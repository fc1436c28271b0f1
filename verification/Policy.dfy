/** Scheduling policies (crates/einf-control/src/policy.rs) and the stable sort by them. */
module Policies {
  import opened Base

  datatype WorkType = Prefill | Decode

  datatype PolicyRequest = PolicyRequest(id: RequestId, arrival: nat, state: RequestState, workType: WorkType)

  datatype Policy = Fcfs | DecodeFirst {
    /** `compare(a, b) == Less`. */
    predicate Before(a: PolicyRequest, b: PolicyRequest) {
      match this
      case Fcfs => Earlier(a, b)
      case DecodeFirst =>
        if a.workType != b.workType then a.workType == Decode else Earlier(a, b)
    }
  }

  predicate Earlier(a: PolicyRequest, b: PolicyRequest) {
    if a.arrival != b.arrival then a.arrival < b.arrival else StringLess(a.id, b.id)
  }

  predicate StringLess(a: string, b: string) {
    if a == [] then b != []
    else if b == [] then false
    else if a[0] != b[0] then a[0] < b[0]
    else StringLess(a[1..], b[1..])
  }

  /** The policy's order is strict and total as soon as arrivals differ. */
  lemma BeforeTotal(p: Policy, a: PolicyRequest, b: PolicyRequest)
    requires a.arrival != b.arrival
    ensures p.Before(a, b) <==> !p.Before(b, a)
  {
  }

  lemma BeforeTransitive(p: Policy, a: PolicyRequest, b: PolicyRequest, c: PolicyRequest)
    requires a.arrival != b.arrival && b.arrival != c.arrival && a.arrival != c.arrival
    requires p.Before(a, b) && p.Before(b, c)
    ensures p.Before(a, c)
  {
  }

  // ------------------------------------------------------------------ sorting

  /** Stable insertion: `x` goes before the first entry that it strictly precedes. */
  function Insert(p: Policy, x: PolicyRequest, s: seq<PolicyRequest>): seq<PolicyRequest> {
    if s == [] then [x]
    else if p.Before(x, s[0]) then [x] + s
    else [s[0]] + Insert(p, x, s[1..])
  }

  function Sort(p: Policy, s: seq<PolicyRequest>): seq<PolicyRequest> {
    if s == [] then [] else Insert(p, s[|s| - 1], Sort(p, s[..|s| - 1]))
  }

  ghost predicate ArrivalsDistinct(s: seq<PolicyRequest>) {
    forall i, j :: 0 <= i < j < |s| ==> s[i].arrival != s[j].arrival
  }

  ghost predicate Sorted(p: Policy, s: seq<PolicyRequest>) {
    forall i, j :: 0 <= i < j < |s| ==> p.Before(s[i], s[j])
  }

  lemma {:induction false} InsertSorted(p: Policy, x: PolicyRequest, s: seq<PolicyRequest>)
    requires Sorted(p, s) && ArrivalsDistinct(s)
    requires forall y :: y in s ==> y.arrival != x.arrival
    ensures var r := Insert(p, x, s);
            && Sorted(p, r) && ArrivalsDistinct(r) && |r| == |s| + 1
            && forall y :: y in r <==> y == x || y in s
  {
    if s == [] {
    } else if p.Before(x, s[0]) {
      var r := [x] + s;
      forall j | 0 < j < |r| ensures p.Before(x, r[j]) && x.arrival != r[j].arrival {
        assert r[j] == s[j - 1] && s[j - 1] in s;
        if j > 1 { BeforeTransitive(p, x, s[0], s[j - 1]); }
      }
    } else {
      var tail := s[1..];
      assert forall y :: y in s <==> y == s[0] || y in tail;
      assert Sorted(p, tail) && ArrivalsDistinct(tail);
      InsertSorted(p, x, tail);
      var r := Insert(p, x, tail);
      BeforeTotal(p, x, s[0]);
      forall j | 0 <= j < |r| ensures p.Before(s[0], r[j]) && s[0].arrival != r[j].arrival {
        assert r[j] in r;
        if r[j] != x {
          var k :| 0 <= k < |tail| && tail[k] == r[j];
          assert s[k + 1] == r[j];
        }
      }
    }
  }

  /** Sorting keeps the entries and puts them in the policy's order. */
  lemma {:induction false} SortSorts(p: Policy, s: seq<PolicyRequest>)
    requires ArrivalsDistinct(s)
    ensures var r := Sort(p, s);
            && Sorted(p, r) && ArrivalsDistinct(r) && |r| == |s|
            && forall y :: y in r <==> y in s
  {
    if s != [] {
      var front, x := s[..|s| - 1], s[|s| - 1];
      SortSorts(p, front);
      assert forall y :: y in s <==> y == x || y in front;
      forall y | y in Sort(p, front) ensures y.arrival != x.arrival {
        var k :| 0 <= k < |front| && front[k] == y;
        assert s[k] == y;
      }
      InsertSorted(p, x, Sort(p, front));
    }
  }

  lemma {:induction false} InsertLast(p: Policy, x: PolicyRequest, s: seq<PolicyRequest>)
    requires forall y :: y in s ==> !p.Before(x, y)
    ensures Insert(p, x, s) == s + [x]
  {
    if s != [] {
      InsertLast(p, x, s[1..]);
      assert s[0] in s;
    }
  }

  /** What is in order already is left as it is. */
  lemma {:induction false} SortOfSorted(p: Policy, s: seq<PolicyRequest>)
    requires ArrivalsDistinct(s) && Sorted(p, s)
    ensures Sort(p, s) == s
  {
    if s != [] {
      var front, x := s[..|s| - 1], s[|s| - 1];
      SortOfSorted(p, front);
      forall y | y in front ensures !p.Before(x, y) {
        var k :| 0 <= k < |front| && front[k] == y;
        BeforeTotal(p, s[k], x);
      }
      InsertLast(p, x, front);
      assert s == front + [x];
    }
  }
}
