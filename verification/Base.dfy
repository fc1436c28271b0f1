/** Identifiers, errors and small sequence facts shared by every component. */
module Base {
  datatype Option<+T> = None | Some(value: T)

  type RequestId = string
  type BlockId = nat
  type Token = int
  type Positive = n: nat | n > 0 witness 1

  datatype RequestState = Waiting | Running | Finished | Cancelled | Failed {
    predicate IsTerminal() { Finished? || Cancelled? || Failed? }
  }

  /** The messages that tell the control plane's errors apart. */
  datatype Detail =
    | EmptyPrompt | ZeroOutputBudget | ZeroLimit | ZeroBlockLen
    | TooManyGenerated | SampleIndexMismatch | ActiveWithTerminalData | FinishedDataWrong
    | CancelledWithTerminalData | FailedDataWrong | AdvanceTooLong
    | BatchOutstanding | NoInputToken | ResultCount | DuplicateResult | UnknownResult
    | CachedLenDelta | TooManyTokens | MoreThanOneToken | PlanWithoutSample | TokenPresence | SampleIndex

  /** The errors of the control plane.  `Panicked` stands for a panic of the original
      (`unwrap` on nothing, a failed `assert!`, an index out of range, an underflow). */
  datatype ControlError =
    | InvalidConfig(detail: Detail)
    | DuplicateRequest(id: RequestId)
    | UnknownRequest(id: RequestId)
    | UnknownBlock(block: BlockId)
    | InvalidState(id: RequestId, actual: RequestState)
    | RequestInvariant(id: RequestId, detail: Detail)
    | InsufficientBlocks(requested: nat, available: nat)
    | BlockNotInUse(block: BlockId)
    | NoOutstandingBatch
    | StaleBatch(expectedStep: nat, actualStep: nat)
    | UnsealedBlock(block: BlockId)
    | InvalidExecutionResult(detail: Detail)
    | RequestInFlight(id: RequestId)
    | InvalidReusePlan
    | Panicked

  datatype Result<+T> = Ok(value: T) | Err(error: ControlError)

  datatype Status = Done | Failure(error: ControlError)

  function Min(a: int, b: int): int { if a <= b then a else b }

  function Max(a: int, b: int): int { if a <= b then b else a }

  // ---------------------------------------------------------------- sequences

  ghost predicate Distinct<T>(s: seq<T>) {
    forall i, j :: 0 <= i < j < |s| ==> s[i] != s[j]
  }

  function Elements<T>(s: seq<T>): set<T> {
    set x | x in s
  }

  /** `s` with every occurrence of `x` dropped, in order: `retain(|c| c != x)`. */
  function Without<T(==)>(s: seq<T>, x: T): seq<T> {
    if s == [] then [] else
    if s[0] == x then Without(s[1..], x) else [s[0]] + Without(s[1..], x)
  }

  lemma {:induction false} WithoutElements<T>(s: seq<T>, x: T)
    ensures forall y :: y in Without(s, x) <==> y in s && y != x
    ensures x !in s ==> Without(s, x) == s
    ensures x in s ==> |Without(s, x)| < |s|
    ensures |Without(s, x)| <= |s|
  {
    if s != [] {
      WithoutElements(s[1..], x);
      assert s == [s[0]] + s[1..];
    }
  }

  lemma {:induction false} WithoutDistinct<T>(s: seq<T>, x: T)
    requires Distinct(s)
    ensures Distinct(Without(s, x))
  {
    if s != [] {
      var tail := Without(s[1..], x);
      assert Distinct(s[1..]);
      WithoutDistinct(s[1..], x);
      WithoutElements(s[1..], x);
      assert s[0] !in s[1..];
      assert s[0] !in tail;
    }
  }

  lemma ConcatAssociative<T>(a: seq<T>, b: seq<T>, c: seq<T>)
    ensures (a + b) + c == a + (b + c)
  {
  }

  /** Dropping from a concatenation drops from both halves. */
  lemma {:induction false} WithoutConcat<T>(s: seq<T>, t: seq<T>, x: T)
    ensures Without(s + t, x) == Without(s, x) + Without(t, x)
  {
    if s == [] {
      assert s + t == t;
      assert [] + Without(t, x) == Without(t, x);
    } else {
      WithoutConcat(s[1..], t, x);
      assert (s + t)[1..] == s[1..] + t && (s + t)[0] == s[0];
      ConcatAssociative([s[0]], Without(s[1..], x), Without(t, x));
    }
  }

  lemma SubsetCardinality<T>(a: set<T>, b: set<T>)
    requires a <= b
    ensures |a| <= |b|
    ensures |a| == |b| ==> a == b
  {
    assert |b - a| == |b| - |a|;
    if |a| == |b| {
      assert b - a == {};
    }
  }

  lemma DisjointConcat<T>(s: seq<T>, t: seq<T>)
    requires Distinct(s) && Distinct(t)
    requires forall x :: x in s ==> x !in t
    ensures Distinct(s + t)
  {
    var all := s + t;
    forall i, j | 0 <= i < j < |all| ensures all[i] != all[j] {
      if i < |s| <= j {
        assert all[i] in s && all[j] in t;
      }
    }
  }

  lemma TakeTake<T>(s: seq<T>, m: nat, n: nat)
    requires n <= m <= |s|
    ensures s[..m][..n] == s[..n]
  {
  }

  // --------------------------------------------------------------- arithmetic

  function CeilDiv(n: nat, d: nat): (q: nat)
    requires d > 0
  {
    (n + d - 1) / d
  }

  /** `n * d`, written so that the solver only ever sees additions. */
  function Span(n: nat, d: nat): nat {
    if n == 0 then 0 else Span(n - 1, d) + d
  }

  lemma {:induction false} SpanIsProduct(n: nat, d: nat)
    ensures Span(n, d) == n * d
  {
    if n > 0 { SpanIsProduct(n - 1, d); }
  }

  lemma {:induction false} SpanMono(a: nat, b: nat, d: nat)
    requires a <= b
    ensures Span(a, d) <= Span(b, d)
    decreases b
  {
    if a < b { SpanMono(a, b - 1, d); }
  }

  lemma {:induction false} SpanSum(a: nat, b: nat, d: nat)
    ensures Span(a + b, d) == Span(a, d) + Span(b, d)
    decreases b
  {
    if b > 0 { SpanSum(a, b - 1, d); }
  }

  lemma SpanOfQuotient(n: nat, d: nat)
    requires d > 0
    ensures Span(n / d, d) <= n < Span(n / d, d) + d
  {
    SpanIsProduct(n / d, d);
  }

  /** A number is its quotient and its remainder ... */
  lemma DivModJoin(n: nat, d: nat)
    requires d > 0
    ensures n == Span(n / d, d) + n % d && n % d < d
  {
    SpanIsProduct(n / d, d);
  }

  /** The quotient is pinned by its two bounds. */
  lemma QuotientIs(n: nat, d: nat, q: nat)
    requires d > 0
    requires Span(q, d) <= n < Span(q, d) + d
    ensures n / d == q
  {
    SpanOfQuotient(n, d);
    var k := n / d;
    if k < q {
      SpanMono(k + 1, q, d);
    } else if k > q {
      SpanMono(q + 1, k, d);
    }
  }

  lemma CeilDivBounds(n: nat, d: nat)
    requires d > 0
    ensures Span(CeilDiv(n, d), d) >= n
    ensures n > 0 ==> CeilDiv(n, d) > 0 && Span(CeilDiv(n, d) - 1, d) < n
    ensures n / d <= CeilDiv(n, d) <= n / d + 1
  {
    SpanOfQuotient(n + d - 1, d);
    SpanOfQuotient(n, d);
    var q, c := n / d, CeilDiv(n, d);
    if c > q + 1 {
      SpanMono(q + 2, c, d);
    } else if c < q {
      SpanMono(c + 1, q, d);
    }
  }

  /** Blocks already there count fully: `ceil` of the rest is the rest of the `ceil`. */
  lemma CeilDivAfter(n: nat, k: nat, d: nat)
    requires d > 0 && Span(k, d) <= n
    ensures k + CeilDiv(n - Span(k, d), d) == CeilDiv(n, d)
  {
    var r := n - Span(k, d);
    SpanOfQuotient(r + d - 1, d);
    SpanSum(k, (r + d - 1) / d, d);
    QuotientIs(n + d - 1, d, k + (r + d - 1) / d);
  }

  /** ... and these are unique. */
  lemma DivModSplit(q: nat, m: nat, d: nat)
    requires m < d
    ensures (Span(q, d) + m) / d == q && (Span(q, d) + m) % d == m
  {
    QuotientIs(Span(q, d) + m, d, q);
    SpanIsProduct(q, d);
  }
}
