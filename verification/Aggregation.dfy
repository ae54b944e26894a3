/** Turning batch checkpoints into money totals and a verdict (`backend/app/impact/aggregate.py`). */
module Aggregation {
  import opened ImpactModels
  import opened Sorting
  import opened RowOutcomes
  import opened ImpactStore

  datatype Gathered = Gathered(processed: int, result: BatchResult)

  /** Only batches with a recorded result count as processed. */
  function Gather(ordered: seq<BatchRecord>): Gathered {
    if ordered == [] then Gathered(0, NO_RESULT)
    else
      var before := Gather(ordered[..|ordered| - 1]);
      var b := ordered[|ordered| - 1];
      if b.completedAt.None? then before
      else Gathered(before.processed + b.Rows(), Joined(before.result, b.result))
  }

  const NO_EXPOSURE := Exposure(0, 0.0, 0, 0.0, 0.0, 0.0)

  function ExposureOf(affected: seq<RowEntry<Quote>>): Exposure {
    if affected == [] then NO_EXPOSURE
    else
      var before := ExposureOf(affected[..|affected| - 1]);
      AddDelta(before, Delta(affected[|affected| - 1].detail))
  }

  function AddDelta(e: Exposure, delta: Money): Exposure {
    var net := e.signedNet + delta;
    if delta > 0.0 then
      e.(overCount := e.overCount + 1, overTotal := e.overTotal + delta, signedNet := net,
         absolute := e.overTotal + delta + e.underTotal)
    else if delta < 0.0 then
      e.(underCount := e.underCount + 1, underTotal := e.underTotal - delta, signedNet := net,
         absolute := e.overTotal + (e.underTotal - delta))
    else e.(signedNet := net)
  }

  function CountTransient(entries: seq<RowEntry<Problem>>): nat {
    if entries == [] then 0
    else CountTransient(entries[..|entries| - 1]) + if entries[|entries| - 1].detail.transient then 1 else 0
  }

  function CountState(list: seq<BatchRecord>, state: BatchState): nat {
    if list == [] then 0
    else CountState(list[..|list| - 1], state) + if list[|list| - 1].state == state then 1 else 0
  }

  function BudgetReasons(budgets: seq<string>): seq<Reason> {
    if budgets == [] then []
    else BudgetReasons(budgets[..|budgets| - 1]) + [BudgetExhausted(budgets[|budgets| - 1])]
  }

  function ReasonsFor(job: ImpactJob, unprocessed: int, inconclusive: nat): seq<Reason> {
    (if job.rowsInScope < job.rowsTotal then [RowBudget(job.rowsTotal - job.rowsInScope)] else [])
    + (if unprocessed - (job.rowsTotal - job.rowsInScope) > 0 then [BatchesNotCompleted] else [])
    + (if inconclusive > 0 then [InconclusiveRows(inconclusive)] else [])
    + BudgetReasons(job.budgetExhausted)
    + (if Halts(job) then [Halted(job.haltReason.value)] else [])
  }

  datatype BatchCounts = BatchCounts(total: nat, done: nat, incomplete: nat)

  /** The aggregate of a job, whatever order its batches are handed over in. */
  function AggregateOf(job: ImpactJob, batches: seq<BatchRecord>): ImpactAggregate {
    var ordered := SortBy(BatchLeq, batches);
    var all := Gather(ordered);
    Verdict(job, all.processed, all.result.matched, |all.result.outOfScope|,
            AffectedIn(batches), SortBy(IndexLeq<Problem>, all.result.inconclusive),
            BatchCounts(|ordered|, CountState(ordered, Done), CountState(ordered, Incomplete)))
  }

  /** The mismatches recorded in a listing, in row order. */
  function AffectedIn(batches: seq<BatchRecord>): seq<RowEntry<Quote>> {
    SortBy(IndexLeq<Quote>, Gather(SortBy(BatchLeq, batches)).result.affected)
  }

  function Verdict(
      job: ImpactJob, processed: int, matched: nat, outOfScope: nat, affected: seq<RowEntry<Quote>>,
      inconclusive: seq<RowEntry<Problem>>, counts: BatchCounts): ImpactAggregate
  {
    var unprocessed := job.rowsTotal - processed;
    var reasons := ReasonsFor(job, unprocessed, |inconclusive|);
    var cancelled := job.cancelRequested;
    var complete := !cancelled && reasons == [] && unprocessed == 0 && counts.done == counts.total;
    ImpactAggregate(
      if cancelled then ImpactStatus.Cancelled else if complete then Complete else Partial,
      if |affected| > 0 then Block
      else if cancelled then DecisionCancelled
      else if complete then PassEligible
      else ReviewRequired,
      if cancelled then CancelledScan else if complete then CompleteScan else PartialScan,
      reasons, |affected| > 0 && !complete, job.rowsTotal, job.rowsInScope, processed,
      job.rowsTotal - outOfScope, outOfScope, matched + |affected|, |affected|, |inconclusive|,
      CountTransient(inconclusive), unprocessed, ExposureOf(affected),
      counts.done, counts.incomplete, counts.total - counts.done - counts.incomplete)
  }

  // ---- The accumulator loops -----------------------------------------------------

  method GatherBatches(ordered: seq<BatchRecord>) returns (all: Gathered)
    ensures all == Gather(ordered)
  {
    var processed, matched: nat := 0, 0;
    var outOfScope: seq<RowEntry<string>>, affected: seq<RowEntry<Quote>> := [], [];
    var inconclusive: seq<RowEntry<Problem>> := [];
    var n := 0;
    while n < |ordered|
      invariant 0 <= n <= |ordered|
      invariant Gathered(processed, BatchResult(matched, outOfScope, affected, inconclusive)) == Gather(ordered[..n])
    {
      assert ordered[..n + 1][..n] == ordered[..n];
      var b := ordered[n];
      n := n + 1;
      if b.completedAt.None? {
        continue;
      }
      processed := processed + b.Rows();
      matched := matched + b.result.matched;
      outOfScope := outOfScope + b.result.outOfScope;
      inconclusive := inconclusive + b.result.inconclusive;
      affected := affected + b.result.affected;
    }
    assert ordered[..n] == ordered;
    all := Gathered(processed, BatchResult(matched, outOfScope, affected, inconclusive));
  }

  method SumExposure(affected: seq<RowEntry<Quote>>) returns (e: Exposure)
    ensures e == ExposureOf(affected)
  {
    var overN: nat, underN: nat := 0, 0;
    var over, under, net := 0.0, 0.0, 0.0;
    var n := 0;
    while n < |affected|
      invariant 0 <= n <= |affected|
      invariant Exposure(overN, over, underN, under, net, over + under) == ExposureOf(affected[..n])
    {
      assert affected[..n + 1][..n] == affected[..n];
      var delta := affected[n].detail.candidate - affected[n].detail.expected;
      net := net + delta;
      if delta > 0.0 {
        overN, over := overN + 1, over + delta;
      } else if delta < 0.0 {
        underN, under := underN + 1, under + -delta;
      }
      n := n + 1;
    }
    assert affected[..n] == affected;
    e := Exposure(overN, over, underN, under, net, over + under);
  }

  method Conclude(
      job: ImpactJob, processed: int, matched: nat, outOfScope: nat, affected: seq<RowEntry<Quote>>,
      inconclusive: seq<RowEntry<Problem>>, counts: BatchCounts) returns (agg: ImpactAggregate)
    ensures agg == Verdict(job, processed, matched, outOfScope, affected, inconclusive, counts)
  {
    var exposure := SumExposure(affected);
    var unprocessed := job.rowsTotal - processed;
    var reasons := ReasonsFor(job, unprocessed, |inconclusive|);
    var complete := !job.cancelRequested && reasons == [] && unprocessed == 0 && counts.done == counts.total;
    var status, completeness := Partial, PartialScan;
    if job.cancelRequested {
      status, completeness := ImpactStatus.Cancelled, CancelledScan;
    } else if complete {
      status, completeness := Complete, CompleteScan;
    }
    var mismatches := |affected|;
    var decision := ReviewRequired;
    if mismatches > 0 {
      decision := Block;
    } else if job.cancelRequested {
      decision := DecisionCancelled;
    } else if complete {
      decision := PassEligible;
    }
    agg := ImpactAggregate(
      status, decision, completeness, reasons, mismatches > 0 && !complete,
      job.rowsTotal, job.rowsInScope, processed, job.rowsTotal - outOfScope, outOfScope,
      matched + mismatches, mismatches, |inconclusive|, CountTransient(inconclusive), unprocessed, exposure,
      counts.done, counts.incomplete, counts.total - counts.done - counts.incomplete);
  }

  method AggregateJob(job: ImpactJob, batches: seq<BatchRecord>) returns (agg: ImpactAggregate)
    ensures agg == AggregateOf(job, batches)
  {
    var ordered := SortBy(BatchLeq, batches);
    var all := GatherBatches(ordered);
    agg := Conclude(
      job, all.processed, all.result.matched, |all.result.outOfScope|,
      SortBy(IndexLeq<Quote>, all.result.affected), SortBy(IndexLeq<Problem>, all.result.inconclusive),
      BatchCounts(|ordered|, CountState(ordered, Done), CountState(ordered, Incomplete)));
  }

  // ---- Conservation --------------------------------------------------------------

  function AbsoluteSum(affected: seq<RowEntry<Quote>>): Money {
    if affected == [] then 0.0
    else AbsoluteSum(affected[..|affected| - 1]) + Abs(Delta(affected[|affected| - 1].detail))
  }

  lemma {:induction false} ExposureBalances(affected: seq<RowEntry<Quote>>)
    ensures var e := ExposureOf(affected);
            && e.signedNet == e.overTotal - e.underTotal
            && e.absolute == e.overTotal + e.underTotal == AbsoluteSum(affected)
            && e.overTotal >= 0.0 && e.underTotal >= 0.0
            && e.overCount + e.underCount <= |affected|
    ensures (forall i | 0 <= i < |affected| :: Delta(affected[i].detail) != 0.0) ==>
              ExposureOf(affected).overCount + ExposureOf(affected).underCount == |affected|
  {
    if affected != [] {
      var init := affected[..|affected| - 1];
      ExposureBalances(init);
      if forall i | 0 <= i < |affected| :: Delta(affected[i].detail) != 0.0 {
        assert forall i | 0 <= i < |init| :: Delta(init[i].detail) == Delta(affected[i].detail);
      }
    }
  }

  // ---- The sign of the money ---------------------------------------------------------

  ghost function Overcharged(affected: seq<RowEntry<Quote>>): set<nat> {
    set k: nat | k < |affected| && affected[k].detail.candidate > affected[k].detail.expected
  }

  ghost function Undercharged(affected: seq<RowEntry<Quote>>): set<nat> {
    set k: nat | k < |affected| && affected[k].detail.candidate < affected[k].detail.expected
  }

  /** By how much the candidate premiums exceed the expected ones, over the rows where they do. */
  function TooMuch(affected: seq<RowEntry<Quote>>): Money {
    if affected == [] then 0.0
    else
      var q := affected[|affected| - 1].detail;
      TooMuch(affected[..|affected| - 1]) + if q.candidate > q.expected then q.candidate - q.expected else 0.0
  }

  function TooLittle(affected: seq<RowEntry<Quote>>): Money {
    if affected == [] then 0.0
    else
      var q := affected[|affected| - 1].detail;
      TooLittle(affected[..|affected| - 1]) + if q.candidate < q.expected then q.expected - q.candidate else 0.0
  }

  function SumOfCandidates(affected: seq<RowEntry<Quote>>): Money {
    if affected == [] then 0.0
    else SumOfCandidates(affected[..|affected| - 1]) + affected[|affected| - 1].detail.candidate
  }

  function SumOfExpected(affected: seq<RowEntry<Quote>>): Money {
    if affected == [] then 0.0
    else SumOfExpected(affected[..|affected| - 1]) + affected[|affected| - 1].detail.expected
  }

  /** The exposure counts and sums overcharges and undercharges of these rows,
      and nets what the candidate engine would bill against what is right. */
  ghost predicate Bills(e: Exposure, affected: seq<RowEntry<Quote>>) {
    && e.overCount == |Overcharged(affected)| && e.overTotal == TooMuch(affected)
    && e.underCount == |Undercharged(affected)| && e.underTotal == TooLittle(affected)
    && e.signedNet == SumOfCandidates(affected) - SumOfExpected(affected)
    && e.absolute == TooMuch(affected) + TooLittle(affected)
  }

  lemma ChargedSnoc(affected: seq<RowEntry<Quote>>)
    requires affected != []
    ensures var (init, q) := (affected[..|affected| - 1], affected[|affected| - 1].detail);
            && |Overcharged(affected)| == |Overcharged(init)| + (if q.candidate > q.expected then 1 else 0)
            && |Undercharged(affected)| == |Undercharged(init)| + (if q.candidate < q.expected then 1 else 0)
  {
    var n := |affected| - 1;
    var (init, q) := (affected[..n], affected[n].detail);
    assert Overcharged(affected) == Overcharged(init) + if q.candidate > q.expected then {n} else {};
    assert Undercharged(affected) == Undercharged(init) + if q.candidate < q.expected then {n} else {};
  }

  lemma {:induction false} ExposureBills(affected: seq<RowEntry<Quote>>)
    ensures Bills(ExposureOf(affected), affected)
  {
    if affected != [] {
      ExposureBills(affected[..|affected| - 1]);
      ChargedSnoc(affected);
    }
  }

  // ---- What the verdict says -----------------------------------------------------------

  lemma {:induction false} AllInState(list: seq<BatchRecord>, state: BatchState)
    ensures CountState(list, state) <= |list|
    ensures CountState(list, state) == |list| <==> forall i | 0 <= i < |list| :: list[i].state == state
  {
    if list != [] {
      AllInState(list[..|list| - 1], state);
    }
  }

  lemma {:induction false} BudgetsAsReasons(budgets: seq<string>)
    ensures forall r :: r in BudgetReasons(budgets) <==> r.BudgetExhausted? && r.budget in budgets
    ensures |BudgetReasons(budgets)| == |budgets|
  {
    if budgets != [] {
      BudgetsAsReasons(budgets[..|budgets| - 1]);
      assert budgets == budgets[..|budgets| - 1] + [budgets[|budgets| - 1]];
    }
  }

  lemma ReasonsExactly(job: ImpactJob, unprocessed: int, inconclusive: nat, r: Reason)
    ensures r in ReasonsFor(job, unprocessed, inconclusive) <==>
              match r
              case RowBudget(rows) => rows > 0 && rows == job.rowsTotal - job.rowsInScope
              case BatchesNotCompleted => job.rowsTotal - unprocessed < job.rowsInScope
              case InconclusiveRows(count) => count > 0 && count == inconclusive
              case BudgetExhausted(budget) => budget in job.budgetExhausted
              case Halted(reason) => job.haltReason == Some(reason) && reason != ""
  {
    BudgetsAsReasons(job.budgetExhausted);
  }

  lemma NoReasonsExactly(job: ImpactJob, unprocessed: int, inconclusive: nat)
    ensures ReasonsFor(job, unprocessed, inconclusive) == [] <==>
              && job.rowsTotal <= job.rowsInScope <= job.rowsTotal - unprocessed
              && inconclusive == 0 && job.budgetExhausted == []
              && (job.haltReason == None || job.haltReason == Some(""))
  {
    BudgetsAsReasons(job.budgetExhausted);
  }

  /** Every row of the portfolio was processed and compared or out of scope, and
      nothing has cancelled, halted or cut short the scan. */
  ghost predicate Whole(job: ImpactJob, processed: int, inconclusive: nat, allDone: bool) {
    && !job.cancelRequested && job.budgetExhausted == [] && (job.haltReason == None || job.haltReason == Some(""))
    && job.rowsInScope == job.rowsTotal == processed && inconclusive == 0 && allDone
  }

  /** A mismatch blocks whatever else happened, then a cancel request decides,
      and a pass needs the whole portfolio. */
  ghost predicate Concludes(job: ImpactJob, a: ImpactAggregate, allDone: bool) {
    var whole := Whole(job, a.processed, a.inconclusive, allDone);
    && (a.decision == Block <==> a.mismatches > 0)
    && (a.decision == DecisionCancelled <==> a.mismatches == 0 && job.cancelRequested)
    && (a.decision == PassEligible <==> a.mismatches == 0 && whole)
    && (a.completeness == CancelledScan <==> job.cancelRequested)
    && (a.completeness == CompleteScan <==> whole)
    && (a.exposureIsLowerBound <==> a.mismatches > 0 && !whole)
    && (a.status == ImpactStatus.Cancelled <==> a.completeness == CancelledScan)
    && (a.status == Complete <==> a.completeness == CompleteScan)
    && (a.status == Partial <==> a.completeness == PartialScan)
  }

  lemma VerdictConcludes(
      job: ImpactJob, processed: int, matched: nat, outOfScope: nat, affected: seq<RowEntry<Quote>>,
      inconclusive: seq<RowEntry<Problem>>, counts: BatchCounts)
    ensures var a := Verdict(job, processed, matched, outOfScope, affected, inconclusive, counts);
            Concludes(job, a, counts.done == counts.total) && a.mismatches == |affected| && Bills(a.exposure, affected)
  {
    NoReasonsExactly(job, job.rowsTotal - processed, |inconclusive|);
    ExposureBills(affected);
  }

  lemma AllDoneSorted(batches: seq<BatchRecord>)
    ensures var ordered := SortBy(BatchLeq, batches);
            |ordered| == |batches|
            && (CountState(ordered, Done) == |ordered| <==> forall i | 0 <= i < |batches| :: batches[i].state == Done)
  {
    var ordered := SortBy(BatchLeq, batches);
    SameLength(ordered, batches);
    SortedMembers(ordered, batches);
    SortedMembers(batches, ordered);
    AllInState(ordered, Done);
  }

  /** The verdict on a job, whatever was recorded and in whatever order it is listed. */
  lemma VerdictMeans(job: ImpactJob, batches: seq<BatchRecord>)
    ensures var a := AggregateOf(job, batches);
            && Concludes(job, a, forall i | 0 <= i < |batches| :: batches[i].state == Done)
            && a.mismatches == |AffectedIn(batches)| && Bills(a.exposure, AffectedIn(batches))
            && a.batchesDone + a.batchesIncomplete + a.batchesPending == |batches|
  {
    var (ordered, all) := (SortBy(BatchLeq, batches), Gather(SortBy(BatchLeq, batches)));
    AllDoneSorted(batches);
    VerdictConcludes(
      job, all.processed, all.result.matched, |all.result.outOfScope|, AffectedIn(batches),
      SortBy(IndexLeq<Problem>, all.result.inconclusive),
      BatchCounts(|ordered|, CountState(ordered, Done), CountState(ordered, Incomplete)));
  }

  /** A recorded result accounts for each row of its slice once. */
  predicate Accounted(b: BatchRecord) {
    b.completedAt.Some? ==>
      b.result.matched + |b.result.outOfScope| + |b.result.affected| + |b.result.inconclusive| == b.Rows()
  }

  lemma {:induction false} GatherAccounts(ordered: seq<BatchRecord>)
    requires forall i | 0 <= i < |ordered| :: Accounted(ordered[i])
    ensures var g := Gather(ordered);
            g.result.matched + |g.result.outOfScope| + |g.result.affected| + |g.result.inconclusive| == g.processed
  {
    if ordered != [] {
      GatherAccounts(ordered[..|ordered| - 1]);
    }
  }

  lemma SameLength<T>(a: seq<T>, b: seq<T>)
    requires multiset(a) == multiset(b)
    ensures |a| == |b|
  {
    assert |a| == |multiset(a)| == |multiset(b)| == |b|;
  }

  lemma SortedMembers<T>(a: seq<T>, b: seq<T>)
    requires multiset(a) == multiset(b)
    ensures forall i | 0 <= i < |a| :: a[i] in b
  {
    forall i | 0 <= i < |a| ensures a[i] in b {
      assert a[i] in multiset(a);
    }
  }

  /** Nothing is lost or counted twice: every row of the portfolio is compared,
      inconclusive, out of scope or unprocessed, and the signed and absolute
      totals are the two ways of combining the same over- and undercharges. */
  lemma AggregateConserves(job: ImpactJob, batches: seq<BatchRecord>)
    requires forall i | 0 <= i < |batches| :: Accounted(batches[i])
    ensures var a := AggregateOf(job, batches);
            && a.compared + a.inconclusive + a.outOfScope + a.unprocessed == a.rowsTotal
            && (a.unprocessed >= 0 ==> a.compared <= a.eligible)
            && a.exposure.signedNet == a.exposure.overTotal - a.exposure.underTotal
            && a.exposure.absolute == a.exposure.overTotal + a.exposure.underTotal
    ensures var a := AggregateOf(job, batches);
            a.decision == PassEligible ==> a.compared == a.eligible && a.exposure == NO_EXPOSURE
  {
    var ordered := SortBy(BatchLeq, batches);
    SortedMembers(ordered, batches);
    GatherAccounts(ordered);
    var r := Gather(ordered).result;
    SameLength(SortBy(IndexLeq<Quote>, r.affected), r.affected);
    SameLength(SortBy(IndexLeq<Problem>, r.inconclusive), r.inconclusive);
    ExposureBalances(SortBy(IndexLeq<Quote>, r.affected));
  }

  /** Whatever was recorded, a cancelled job's aggregate never passes. */
  lemma CancelledNeverPasses(job: ImpactJob, batches: seq<BatchRecord>)
    requires job.cancelRequested
    ensures var a := AggregateOf(job, batches);
            a.decision != PassEligible && a.completeness == CancelledScan && a.status == ImpactStatus.Cancelled
  {
  }

  // ---- Order independence ----------------------------------------------------------

  /** Listing the same batches in another order changes nothing in the aggregate. */
  lemma AggregateForgetsOrder(job: ImpactJob, a: seq<BatchRecord>, b: seq<BatchRecord>)
    requires multiset(a) == multiset(b)
    requires forall i, j | 0 <= i < j < |b| :: b[i].batchNo < b[j].batchNo
    ensures AggregateOf(job, a) == AggregateOf(job, b)
  {
    BatchOrder();
    SortByForgetsOrder(BatchLeq, a, b);
    SortByIsIdentity(BatchLeq, b);
  }
}
