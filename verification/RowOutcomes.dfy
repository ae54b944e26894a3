/** What a scan concludes about one portfolio row, and how the conclusions of a
    batch are condensed into the result its checkpoint keeps. */
module RowOutcomes {
  import opened ImpactModels
  import opened Sorting

  /** The authoritative calculation for one policy. */
  datatype Calculation = Premium(amount: Money) | DateRejected(code: string) | CalculationFailed
  datatype Policy = Policy(productMatches: bool, calculation: Calculation)

  datatype LocalPricing = NotApplicable(reason: string) | NotPriceable(code: string) | Priced(expected: Money)
  datatype RemoteOutcome = Candidate(premium: Money) | RemoteError(code: string, transient: bool)

  /** `Matched` remembers the compared premiums, which the checkpoint itself
      forgets: a checkpoint keeps only how many rows matched. */
  datatype RowOutcome =
    | Matched(quote: Quote)
    | Affected(quote: Quote)
    | OutOfScope(reason: string)
    | Inconclusive(problem: Problem)

  type Rows = seq<RowEntry<RowOutcome>>

  function Price(policy: Policy): LocalPricing {
    if !policy.productMatches then NotApplicable("PRODUCT_MISMATCH")
    else match policy.calculation
      case Premium(amount) => Priced(amount)
      case DateRejected(code) =>
        if code == "CALCULATION_DATE_OUT_OF_PERIOD" then NotApplicable("OUTSIDE_EFFECTIVE_PERIOD")
        else NotPriceable(code)
      case CalculationFailed => NotPriceable("LOCAL_CALCULATION_ERROR")
  }

  function Abs(x: real): real { if x < 0.0 then -x else x }

  function Delta(q: Quote): Money { q.candidate - q.expected }

  function Compare(expected: Money, reply: RemoteOutcome, tolerance: Money): RowOutcome {
    match reply
    case RemoteError(code, transient) => Inconclusive(Problem(code, transient))
    case Candidate(premium) =>
      var quote := Quote(expected, premium);
      if Abs(Delta(quote)) > tolerance then Affected(quote) else Matched(quote)
  }

  /** A transient failure: the row may be priced again. */
  predicate Fleeting(reply: RemoteOutcome) { reply.RemoteError? && reply.transient }

  predicate Transient(row: RowEntry<RowOutcome>) {
    row.detail.Inconclusive? && row.detail.problem.transient
  }

  predicate Within(tolerance: Money, q: Quote) {
    q.expected - tolerance <= q.candidate <= q.expected + tolerance
  }

  /** The outcome is one the policy itself allows, whatever the connector replied. */
  predicate Explained(snapshot: seq<Policy>, tolerance: Money, row: RowEntry<RowOutcome>) {
    row.index < |snapshot| &&
    var policy := snapshot[row.index];
    if !policy.productMatches then row.detail == OutOfScope("PRODUCT_MISMATCH")
    else match policy.calculation
      case DateRejected(code) =>
        if code == "CALCULATION_DATE_OUT_OF_PERIOD" then row.detail == OutOfScope("OUTSIDE_EFFECTIVE_PERIOD")
        else row.detail == Inconclusive(Problem(code, false))
      case CalculationFailed => row.detail == Inconclusive(Problem("LOCAL_CALCULATION_ERROR", false))
      case Premium(amount) =>
        match row.detail
        case OutOfScope(_) => false
        case Inconclusive(_) => true
        case Matched(q) => q.expected == amount && Within(tolerance, q)
        case Affected(q) => q.expected == amount && !Within(tolerance, q)
  }

  /** One outcome for every row of `[lo, hi)`, in row order. */
  ghost predicate Covers(rows: Rows, lo: nat, hi: nat) {
    && lo <= hi && |rows| == hi - lo
    && forall k | 0 <= k < |rows| :: rows[k].index == lo + k
  }

  // The condensed form: one count and three lists.

  function CountMatched(rows: Rows): nat {
    if rows == [] then 0
    else CountMatched(rows[..|rows| - 1]) + if rows[|rows| - 1].detail.Matched? then 1 else 0
  }

  function OutOfScopeRows(rows: Rows): seq<RowEntry<string>> {
    if rows == [] then []
    else
      var (init, last) := (rows[..|rows| - 1], rows[|rows| - 1]);
      if last.detail.OutOfScope? then OutOfScopeRows(init) + [RowEntry(last.index, last.detail.reason)]
      else OutOfScopeRows(init)
  }

  function AffectedRows(rows: Rows): seq<RowEntry<Quote>> {
    if rows == [] then []
    else
      var (init, last) := (rows[..|rows| - 1], rows[|rows| - 1]);
      if last.detail.Affected? then AffectedRows(init) + [RowEntry(last.index, last.detail.quote)]
      else AffectedRows(init)
  }

  function InconclusiveRowsOf(rows: Rows): seq<RowEntry<Problem>> {
    if rows == [] then []
    else
      var (init, last) := (rows[..|rows| - 1], rows[|rows| - 1]);
      if last.detail.Inconclusive? then InconclusiveRowsOf(init) + [RowEntry(last.index, last.detail.problem)]
      else InconclusiveRowsOf(init)
  }

  function Summarize(rows: Rows): BatchResult {
    BatchResult(CountMatched(rows), OutOfScopeRows(rows), AffectedRows(rows), InconclusiveRowsOf(rows))
  }

  function Joined(a: BatchResult, b: BatchResult): BatchResult {
    BatchResult(a.matched + b.matched, a.outOfScope + b.outOfScope, a.affected + b.affected,
                a.inconclusive + b.inconclusive)
  }

  lemma {:induction false} SummarizeConcat(a: Rows, b: Rows)
    ensures Summarize(a + b) == Joined(Summarize(a), Summarize(b))
  {
    if b == [] {
      assert a + b == a;
    } else {
      var n := |b| - 1;
      assert (a + b)[..|a + b| - 1] == a + b[..n];
      SummarizeConcat(a, b[..n]);
    }
  }

  /** Every row of a summary is counted exactly once. */
  lemma {:induction false} SummarizePartitions(rows: Rows)
    ensures var s := Summarize(rows);
            s.matched + |s.outOfScope| + |s.affected| + |s.inconclusive| == |rows|
  {
    if rows != [] {
      SummarizePartitions(rows[..|rows| - 1]);
    }
  }

  ghost predicate SameContents(a: BatchResult, b: BatchResult) {
    && a.matched == b.matched
    && multiset(a.outOfScope) == multiset(b.outOfScope)
    && multiset(a.affected) == multiset(b.affected)
    && multiset(a.inconclusive) == multiset(b.inconclusive)
  }

  lemma JoinedCommutes(a: BatchResult, b: BatchResult, c: BatchResult)
    ensures SameContents(Joined(Joined(a, b), c), Joined(Joined(a, c), b))
  {
  }

  lemma MoveToEnd(x: Rows, e: RowEntry<RowOutcome>, y: Rows)
    ensures SameContents(Summarize(x + [e] + y), Summarize((x + y) + [e]))
  {
    SummarizeConcat(x + [e], y);
    SummarizeConcat(x, [e]);
    SummarizeConcat(x + y, [e]);
    SummarizeConcat(x, y);
    JoinedCommutes(Summarize(x), Summarize([e]), Summarize(y));
  }

  lemma SplitAt(a: Rows, b: Rows) returns (x: Rows, y: Rows)
    requires a != [] && multiset(a) == multiset(b)
    ensures b == x + [a[|a| - 1]] + y && multiset(x + y) == multiset(a[..|a| - 1])
  {
    var n := |a| - 1;
    assert a == a[..n] + [a[n]];
    assert a[n] in multiset(b);
    var i :| 0 <= i < |b| && b[i] == a[n];
    x, y := b[..i], b[i + 1..];
    assert b == x + [b[i]] + y;
    assert multiset(a[..n]) == multiset(a) - multiset{a[n]};
    assert multiset(x + y) == multiset(b) - multiset{a[n]};
  }

  /** Rearranging rows only rearranges the lists. */
  lemma {:induction false} SummarizePermuted(a: Rows, b: Rows)
    requires multiset(a) == multiset(b)
    ensures SameContents(Summarize(a), Summarize(b))
    decreases |a|
  {
    assert |a| == |multiset(a)| == |multiset(b)| == |b|;
    if a != [] {
      var n := |a| - 1;
      var x, y := SplitAt(a, b);
      SummarizePermuted(a[..n], x + y);
      MoveToEnd(x, a[n], y);
      assert a == a[..n] + [a[n]];
      SummarizeConcat(a[..n], [a[n]]);
      SummarizeConcat(x + y, [a[n]]);
    }
  }

  ghost predicate Increasing<T>(entries: seq<RowEntry<T>>, hi: nat) {
    && (forall i | 0 <= i < |entries| :: entries[i].index < hi)
    && (forall i, j | 0 <= i < j < |entries| :: entries[i].index < entries[j].index)
  }

  lemma IncreasingIsSorted<T(!new)>(entries: seq<RowEntry<T>>, hi: nat)
    requires Increasing(entries, hi)
    ensures TotalPreorder(IndexLeq<T>) && Sorted(IndexLeq<T>, entries) && Keyed(IndexLeq<T>, entries)
  {
  }

  /** The lists of a summary are in row order, and a row in one is not in another. */
  lemma {:induction false} SummaryIncreases(rows: Rows, hi: nat)
    requires Increasing(rows, hi)
    ensures Increasing(OutOfScopeRows(rows), hi)
    ensures Increasing(AffectedRows(rows), hi)
    ensures Increasing(InconclusiveRowsOf(rows), hi)
  {
    if rows != [] {
      var n := |rows| - 1;
      SummaryIncreases(rows[..n], rows[n].index);
    }
  }

  /** Membership: the lists name exactly the rows with that outcome. */
  lemma {:induction false} SummaryMembers(rows: Rows)
    ensures forall e :: e in OutOfScopeRows(rows) <==> RowEntry(e.index, OutOfScope(e.detail)) in rows
    ensures forall e :: e in AffectedRows(rows) <==> RowEntry(e.index, Affected(e.detail)) in rows
    ensures forall e :: e in InconclusiveRowsOf(rows) <==> RowEntry(e.index, Inconclusive(e.detail)) in rows
  {
    if rows != [] {
      var n := |rows| - 1;
      SummaryMembers(rows[..n]);
      assert rows == rows[..n] + [rows[n]];
      assert forall r :: r in rows <==> r in rows[..n] || r == rows[n];
    }
  }
}
