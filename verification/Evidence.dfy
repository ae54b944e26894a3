/** What the aggregate of a listing says about individual rows, and why that
    evidence only ever grows. */
module Evidence {
  import opened Arithmetic
  import opened ImpactModels
  import opened Sorting
  import opened ImpactStore
  import opened RowOutcomes
  import opened Processor
  import opened Planning
  import opened Aggregation
  import opened Coordinator
  import opened Protocol
  import opened Fencing

  // ---- A listing condenses the outcomes of its rows ------------------------------------

  /** The row outcomes behind the recorded results of a listing. */
  ghost function RowsBehind(ledger: map<nat, Rows>, list: seq<BatchRecord>): Rows {
    if list == [] then []
    else
      var (before, b) := (RowsBehind(ledger, list[..|list| - 1]), list[|list| - 1]);
      if b.completedAt.Some? && b.batchNo in ledger then before + ledger[b.batchNo] else before
  }

  ghost predicate Backed(p: Setup, ledger: map<nat, Rows>, list: seq<BatchRecord>)
    requires p.Valid()
  {
    && InBatchOrder(list)
    && forall i | 0 <= i < |list| ::
         list[i].batchNo in ledger && Faithful(p, list[i].batchNo, list[i], ledger[list[i].batchNo])
  }

  ghost function EndOf(list: seq<BatchRecord>): nat { if list == [] then 0 else list[|list| - 1].rowEnd }

  lemma TilesInOrder(p: Setup, m: nat, n: nat)
    requires p.Valid() && m < n
    ensures TileEnd(m, p.batchSize, p.rowsInScope) <= TileStart(n, p.batchSize)
  {
    MulMono(m + 1, n, p.batchSize);
  }

  lemma IncreasingConcat<T>(a: seq<RowEntry<T>>, b: seq<RowEntry<T>>, lo: nat, hi: nat)
    requires Increasing(a, lo) && Increasing(b, hi) && lo <= hi
    requires forall i | 0 <= i < |b| :: lo <= b[i].index
    ensures Increasing(a + b, hi)
  {
  }

  lemma IncreasingBelow<T>(a: seq<RowEntry<T>>, lo: nat, hi: nat)
    requires Increasing(a, lo) && lo <= hi
    ensures Increasing(a, hi)
  {
  }

  lemma {:induction false} GatherBacked(p: Setup, ledger: map<nat, Rows>, list: seq<BatchRecord>)
    requires p.Valid() && Backed(p, ledger, list)
    ensures var rows := RowsBehind(ledger, list);
            Gather(list) == Gathered(|rows|, Summarize(rows)) && Increasing(rows, EndOf(list))
    ensures EndOf(list) <= p.rowsInScope
  {
    if list != [] {
      var (init, b) := (list[..|list| - 1], list[|list| - 1]);
      GatherBacked(p, ledger, init);
      assert Faithful(p, b.batchNo, b, ledger[b.batchNo]);
      if init != [] {
        TilesInOrder(p, init[|init| - 1].batchNo, b.batchNo);
        assert Faithful(p, init[|init| - 1].batchNo, init[|init| - 1], ledger[init[|init| - 1].batchNo]);
      }
      if b.completedAt.Some? {
        CoversIncreasing(ledger[b.batchNo], b.rowStart, b.rowEnd);
        IncreasingBelow(RowsBehind(ledger, init), EndOf(init), b.rowStart);
        IncreasingConcat(RowsBehind(ledger, init), ledger[b.batchNo], b.rowStart, b.rowEnd);
        SummarizeConcat(RowsBehind(ledger, init), ledger[b.batchNo]);
      } else {
        IncreasingBelow(RowsBehind(ledger, init), EndOf(init), b.rowEnd);
      }
    }
  }

  lemma SortedAlready(list: seq<BatchRecord>)
    requires InBatchOrder(list)
    ensures SortBy(BatchLeq, list) == list
  {
    BatchOrder();
    SortByIsIdentity(BatchLeq, list);
  }

  lemma RowsSortedAlready<T(!new)>(entries: seq<RowEntry<T>>, hi: nat)
    requires Increasing(entries, hi)
    ensures SortBy(IndexLeq<T>, entries) == entries
  {
    IncreasingIsSorted(entries, hi);
    SortByIsIdentity(IndexLeq<T>, entries);
  }

  function VerdictOn(job: ImpactJob, rows: Rows, counts: BatchCounts): ImpactAggregate {
    Verdict(job, |rows|, CountMatched(rows), |OutOfScopeRows(rows)|, AffectedRows(rows), InconclusiveRowsOf(rows), counts)
  }

  /** The aggregate of a listing is the verdict on the rows behind it: batch
      boundaries, and the sorts over them, leave no trace. */
  lemma AggregateReflectsRows(p: Setup, ledger: map<nat, Rows>, job: ImpactJob, list: seq<BatchRecord>)
    requires p.Valid() && Backed(p, ledger, list)
    ensures AggregateOf(job, list)
         == VerdictOn(job, RowsBehind(ledger, list),
                      BatchCounts(|list|, CountState(list, Done), CountState(list, Incomplete)))
  {
    var rows := RowsBehind(ledger, list);
    GatherBacked(p, ledger, list);
    SummaryIncreases(rows, EndOf(list));
    SortedAlready(list);
    RowsSortedAlready(AffectedRows(rows), EndOf(list));
    RowsSortedAlready(InconclusiveRowsOf(rows), EndOf(list));
  }

  lemma {:induction false} ListOfBacked(p: Setup, w: World, n: nat)
    requires p.Valid() && Inv(p, w)
    ensures var list := ListOf(w.store.batches, n);
            && Backed(p, w.ledger, list)
            && (forall i | 0 <= i < |list| ::
                  list[i].batchNo < n && list[i].batchNo in w.store.batches
                  && w.store.batches[list[i].batchNo] == list[i])
  {
    if n > 0 {
      ListOfBacked(p, w, n - 1);
      if n - 1 in w.store.batches {
        assert Sound(p, n - 1, w.store.batches[n - 1], w.ledger[n - 1]);
      }
    }
  }

  lemma {:induction false} TransientCounted(entries: seq<RowEntry<Problem>>)
    ensures CountTransient(entries) == |UnresolvedTransient(entries)|
  {
    if entries != [] {
      TransientCounted(entries[..|entries| - 1]);
    }
  }

  /** The transient count of an aggregate is the number of rows another attempt would price. */
  lemma AggregateCountsRetries(p: Setup, ledger: map<nat, Rows>, job: ImpactJob, list: seq<BatchRecord>)
    requires p.Valid() && Backed(p, ledger, list)
    ensures AggregateOf(job, list).inconclusiveTransient == |TransientIndexes(RowsBehind(ledger, list))|
  {
    var rows := RowsBehind(ledger, list);
    AggregateReflectsRows(p, ledger, job, list);
    TransientCounted(InconclusiveRowsOf(rows));
    UnresolvedRows(rows);
  }

  // ---- What the early halt sees ----------------------------------------------------------

  predicate Failing(row: RowEntry<RowOutcome>) { row.detail.OutOfScope? || row.detail.Inconclusive? }

  lemma {:induction false} FailingCounts(rows: Rows)
    ensures (CountMatched(rows) == 0 && AffectedRows(rows) == []) <==> forall k | 0 <= k < |rows| :: Failing(rows[k])
    ensures InconclusiveRowsOf(rows) != [] <==> exists k :: 0 <= k < |rows| && rows[k].detail.Inconclusive?
  {
    if rows != [] {
      var n := |rows| - 1;
      FailingCounts(rows[..n]);
      if InconclusiveRowsOf(rows[..n]) != [] {
        var k :| 0 <= k < n && rows[..n][k].detail.Inconclusive?;
        assert rows[k].detail.Inconclusive?;
      }
    }
  }

  /** A batch counts as failed for good exactly when it is DONE, no row of it
      could be compared, and at least one of them should have been. */
  lemma FailedForGoodExactly(p: Setup, no: nat, b: BatchRecord, rows: Rows)
    requires p.Valid() && Sound(p, no, b, rows)
    ensures FailedForGood(b) <==>
              && b.state == Done
              && (forall k | 0 <= k < |rows| :: Failing(rows[k]))
              && (exists k :: 0 <= k < |rows| && rows[k].detail.Inconclusive?)
  {
    if b.state == Done {
      SummarizePartitions(rows);
      FailingCounts(rows);
    }
  }

  // ---- Counting by rows ------------------------------------------------------------------

  ghost function At<T(!new)>(s: seq<T>, keep: T -> bool): set<nat> { set k: nat | k < |s| && keep(s[k]) }

  lemma AtSnoc<T(!new)>(s: seq<T>, keep: T -> bool)
    requires s != []
    ensures |At(s, keep)| == |At(s[..|s| - 1], keep)| + if keep(s[|s| - 1]) then 1 else 0
  {
    var n := |s| - 1;
    assert At(s, keep) == At(s[..n], keep) + if keep(s[n]) then {n} else {};
  }

  lemma {:induction false} OutcomesCounted(rows: Rows)
    ensures CountMatched(rows) == |At(rows, (r: RowEntry<RowOutcome>) => r.detail.Matched?)|
    ensures |AffectedRows(rows)| == |At(rows, (r: RowEntry<RowOutcome>) => r.detail.Affected?)|
    ensures |OutOfScopeRows(rows)| == |At(rows, (r: RowEntry<RowOutcome>) => r.detail.OutOfScope?)|
    ensures |InconclusiveRowsOf(rows)| == |At(rows, (r: RowEntry<RowOutcome>) => r.detail.Inconclusive?)|
  {
    if rows != [] {
      OutcomesCounted(rows[..|rows| - 1]);
      AtSnoc(rows, (r: RowEntry<RowOutcome>) => r.detail.Matched?);
      AtSnoc(rows, (r: RowEntry<RowOutcome>) => r.detail.Affected?);
      AtSnoc(rows, (r: RowEntry<RowOutcome>) => r.detail.OutOfScope?);
      AtSnoc(rows, (r: RowEntry<RowOutcome>) => r.detail.Inconclusive?);
    }
  }

  lemma {:induction false} StateCounted(list: seq<BatchRecord>, state: BatchState)
    ensures CountState(list, state) == |At(list, (b: BatchRecord) => b.state == state)|
  {
    if list != [] {
      StateCounted(list[..|list| - 1], state);
      AtSnoc(list, (b: BatchRecord) => b.state == state);
    }
  }

  /** Every count of an aggregate, read off the row outcomes and the batch states. */
  lemma AggregateCountsRows(p: Setup, ledger: map<nat, Rows>, job: ImpactJob, list: seq<BatchRecord>)
    requires p.Valid() && Backed(p, ledger, list)
    ensures var (a, rows) := (AggregateOf(job, list), RowsBehind(ledger, list));
            && a.mismatches == |At(rows, (r: RowEntry<RowOutcome>) => r.detail.Affected?)|
            && a.compared == a.mismatches + |At(rows, (r: RowEntry<RowOutcome>) => r.detail.Matched?)|
            && a.outOfScope == |At(rows, (r: RowEntry<RowOutcome>) => r.detail.OutOfScope?)|
            && a.inconclusive == |At(rows, (r: RowEntry<RowOutcome>) => r.detail.Inconclusive?)|
            && a.processed == |rows| && a.unprocessed == job.rowsTotal - |rows|
            && a.rowsTotal == job.rowsTotal && a.rowsInScope == job.rowsInScope
            && a.eligible == job.rowsTotal - a.outOfScope
    ensures var a := AggregateOf(job, list);
            && a.batchesDone == |At(list, (b: BatchRecord) => b.state == Done)|
            && a.batchesIncomplete == |At(list, (b: BatchRecord) => b.state == Incomplete)|
            && a.batchesPending == |list| - a.batchesDone - a.batchesIncomplete
  {
    AggregateReflectsRows(p, ledger, job, list);
    OutcomesCounted(RowsBehind(ledger, list));
    StateCounted(list, Done);
    StateCounted(list, Incomplete);
  }

  // ---- When the scan is halted early --------------------------------------------------------

  /** DONE, with no row compared and at least one that should have been. */
  ghost predicate FailedRows(b: BatchRecord, rows: Rows) {
    && b.state == Done && (forall k | 0 <= k < |rows| :: Failing(rows[k]))
    && exists k :: 0 <= k < |rows| && rows[k].detail.Inconclusive?
  }

  lemma {:induction false} FailedCounted(p: Setup, ledger: map<nat, Rows>, list: seq<BatchRecord>)
    requires p.Valid()
    requires forall i | 0 <= i < |list| ::
               list[i].batchNo in ledger && Sound(p, list[i].batchNo, list[i], ledger[list[i].batchNo])
    ensures CountFailed(list) == |At(list, (b: BatchRecord) => b.batchNo in ledger && FailedRows(b, ledger[b.batchNo]))|
  {
    if list != [] {
      var b := list[|list| - 1];
      FailedCounted(p, ledger, list[..|list| - 1]);
      FailedForGoodExactly(p, b.batchNo, b, ledger[b.batchNo]);
      AtSnoc(list, (b: BatchRecord) => b.batchNo in ledger && FailedRows(b, ledger[b.batchNo]));
    }
  }

  lemma ProductiveExactly(p: Setup, no: nat, b: BatchRecord, rows: Rows)
    requires p.Valid() && Sound(p, no, b, rows)
    ensures Productive(b) <==> b.completedAt.Some? && exists k :: 0 <= k < |rows| && !Failing(rows[k])
  {
    if b.completedAt.Some? {
      FailingCounts(rows);
    }
  }

  /** The scan is halted early exactly when no recorded row was compared and at
      least three batches are DONE with nothing but failed rows, or rows out of
      scope beside them. */
  lemma HaltExactlyWhen(p: Setup, ledger: map<nat, Rows>, list: seq<BatchRecord>)
    requires p.Valid()
    requires forall i | 0 <= i < |list| ::
               list[i].batchNo in ledger && Sound(p, list[i].batchNo, list[i], ledger[list[i].batchNo])
    ensures SystemicPermanentFailure(list) <==>
              && (forall i, k | 0 <= i < |list| && list[i].completedAt.Some? && 0 <= k < |ledger[list[i].batchNo]| ::
                    Failing(ledger[list[i].batchNo][k]))
              && |At(list, (b: BatchRecord) => b.batchNo in ledger && FailedRows(b, ledger[b.batchNo]))| >= 3
  {
    FailedCounted(p, ledger, list);
    forall i | 0 <= i < |list|
      ensures Productive(list[i]) <==>
                && list[i].completedAt.Some?
                && exists k :: 0 <= k < |ledger[list[i].batchNo]| && !Failing(ledger[list[i].batchNo][k])
    {
      ProductiveExactly(p, list[i].batchNo, list[i], ledger[list[i].batchNo]);
    }
  }

  /** The scan is halted early only while not a single row listed has been compared. */
  lemma {:induction false} HaltMeansNothingCompared(p: Setup, ledger: map<nat, Rows>, list: seq<BatchRecord>)
    requires p.Valid() && Backed(p, ledger, list) && forall i | 0 <= i < |list| :: !Productive(list[i])
    ensures forall k | 0 <= k < |RowsBehind(ledger, list)| :: Failing(RowsBehind(ledger, list)[k])
  {
    if list != [] {
      var b := list[|list| - 1];
      HaltMeansNothingCompared(p, ledger, list[..|list| - 1]);
      assert Faithful(p, b.batchNo, b, ledger[b.batchNo]);
      if b.completedAt.Some? {
        FailingCounts(ledger[b.batchNo]);
      }
    }
  }

  // ---- Resolved rows stay as they are ---------------------------------------------------

  /** Only transient rows may change, and every row keeps its place. */
  ghost predicate Keeps(before: Rows, after: Rows) {
    && |before| == |after|
    && forall k | 0 <= k < |before| ::
         before[k].index == after[k].index && (!Transient(before[k]) ==> after[k] == before[k])
  }

  ghost predicate Grows(w: World, after: World) {
    forall no | no in w.ledger :: no in after.ledger && Keeps(w.ledger[no], after.ledger[no])
  }

  lemma MergeKeeps(snapshot: seq<Policy>, replies: map<nat, RemoteOutcome>, tolerance: Money, rows: Rows)
    requires Answerable(snapshot, replies, TransientIndexes(rows))
    ensures Keeps(rows, Merged(snapshot, replies, tolerance, rows))
  {
    forall k | 0 <= k < |rows|
      ensures var r := Merged(snapshot, replies, tolerance, rows)[k];
              rows[k].index == r.index && (!Transient(rows[k]) ==> r == rows[k])
    {
      MergedRow(snapshot, replies, tolerance, rows, k);
    }
  }

  lemma WriteGrows(p: Setup, w: World, task: nat, replies: map<nat, RemoteOutcome>)
    requires p.Valid() && Inv(p, w) && Fenced(w) && CanWrite(p, w, task, replies)
    ensures Grows(w, AfterWrite(p, w, task, replies))
  {
    var t := w.tasks[task];
    WriteShape(p, w, task, replies);
    if HoldsLease(w.store, t.no, t.owner) {
      assert AsLeased(w, t);
      MergeKeeps(p.snapshot, replies, p.tolerance, t.rows);
    }
  }

  lemma ShapedGrows(p: Setup, w: World, step: Step, after: World)
    requires p.Valid() && Inv(p, w) && Shaped(p, w, step, after)
    requires !step.Write? && (step.Crash? ==> after.ledger == w.ledger)
    ensures Grows(w, after)
  {
  }

  lemma StepGrows(p: Setup, w: World, step: Step)
    requires p.Valid() && Inv(p, w) && Fenced(w)
    ensures Grows(w, Apply(p, w, step))
  {
    match step
    case Write(task, replies) =>
      if CanWrite(p, w, task, replies) { WriteGrows(p, w, task, replies); }
    case Crash(task) =>
      if task in w.tasks { CrashShape(p, w, task); }
    case _ =>
      StepShape(p, w, step);
      ShapedGrows(p, w, step, Apply(p, w, step));
  }

  lemma GrowsTransitively(a: World, b: World, c: World)
    requires Grows(a, b) && Grows(b, c)
    ensures Grows(a, c)
  {
    forall no | no in a.ledger ensures no in c.ledger && Keeps(a.ledger[no], c.ledger[no]) {
      assert Keeps(a.ledger[no], b.ledger[no]) && Keeps(b.ledger[no], c.ledger[no]);
    }
  }

  /** With fresh owners, whatever happens after any point of a run, a row that
      was resolved then keeps its outcome. */
  lemma {:induction false} EvidenceGrows(p: Setup, w: World, steps: seq<Step>)
    requires p.Valid() && Inv(p, w) && Fenced(w) && FreshOwners(p, w, steps)
    ensures Grows(w, Run(p, w, steps))
  {
    if steps != [] {
      var (before, step) := (Run(p, w, steps[..|steps| - 1]), steps[|steps| - 1]);
      EvidenceGrows(p, w, steps[..|steps| - 1]);
      RunFenced(p, w, steps[..|steps| - 1]);
      StepGrows(p, before, step);
      GrowsTransitively(w, before, Apply(p, before, step));
    }
  }

  // ---- So exposure is a lower bound ------------------------------------------------------

  function AbsoluteOf(rows: Rows): Money { AbsoluteSum(AffectedRows(rows)) }

  lemma {:induction false} AbsoluteConcat(a: seq<RowEntry<Quote>>, b: seq<RowEntry<Quote>>)
    ensures AbsoluteSum(a + b) == AbsoluteSum(a) + AbsoluteSum(b) && AbsoluteSum(b) >= 0.0
  {
    if b == [] {
      assert a + b == a;
    } else {
      var n := |b| - 1;
      assert (a + b)[..|a + b| - 1] == a + b[..n];
      AbsoluteConcat(a, b[..n]);
    }
  }

  lemma {:induction false} AbsoluteKept(before: Rows, after: Rows)
    requires Keeps(before, after)
    ensures 0.0 <= AbsoluteOf(before) <= AbsoluteOf(after)
  {
    if before != [] {
      var n := |before| - 1;
      AbsoluteKept(before[..n], after[..n]);
      var (x, y) := (AffectedRows(before[..n]), AffectedRows(after[..n]));
      if before[n].detail.Affected? {
        assert after[n] == before[n];
        assert (x + [RowEntry(before[n].index, before[n].detail.quote)])[..|x|] == x;
      }
      if after[n].detail.Affected? {
        assert (y + [RowEntry(after[n].index, after[n].detail.quote)])[..|y|] == y;
      }
    }
  }

  lemma {:induction false} UnpricedExposure(lo: nat, hi: nat)
    requires lo <= hi
    ensures AffectedRows(UnpricedRows(lo, hi)) == []
  {
    if lo < hi {
      UnpricedFacts(lo, hi);
      UnpricedExposure(lo, hi - 1);
      UnpricedFacts(lo, hi - 1);
      assert UnpricedRows(lo, hi)[..hi - lo - 1] == UnpricedRows(lo, hi - 1);
    }
  }

  /** The absolute exposure recorded by the first `n` batches. */
  ghost function RecordedExposure(w: World, n: nat): Money {
    AbsoluteOf(RowsBehind(w.ledger, ListOf(w.store.batches, n)))
  }

  ghost function LedgerExposure(ledger: map<nat, Rows>, n: nat): Money {
    if n == 0 then 0.0
    else LedgerExposure(ledger, n - 1) + if n - 1 in ledger then AbsoluteOf(ledger[n - 1]) else 0.0
  }

  lemma {:induction false} RecordedIsLedger(p: Setup, w: World, n: nat)
    requires p.Valid() && Inv(p, w)
    ensures RecordedExposure(w, n) == LedgerExposure(w.ledger, n)
  {
    if n > 0 {
      RecordedIsLedger(p, w, n - 1);
      var list := ListOf(w.store.batches, n - 1);
      if n - 1 in w.store.batches {
        var b := w.store.batches[n - 1];
        assert Sound(p, n - 1, b, w.ledger[n - 1]);
        assert (list + [b])[..|list|] == list;
        if b.completedAt.Some? {
          SummarizeConcat(RowsBehind(w.ledger, list), w.ledger[n - 1]);
          AbsoluteConcat(AffectedRows(RowsBehind(w.ledger, list)), AffectedRows(w.ledger[n - 1]));
        } else {
          UnpricedExposure(b.rowStart, b.rowEnd);
        }
      }
    }
  }

  lemma {:induction false} LedgerExposureGrows(w: World, after: World, n: nat)
    requires Grows(w, after)
    ensures LedgerExposure(w.ledger, n) <= LedgerExposure(after.ledger, n)
  {
    if n > 0 {
      LedgerExposureGrows(w, after, n - 1);
      if n - 1 in w.ledger {
        assert Keeps(w.ledger[n - 1], after.ledger[n - 1]);
        AbsoluteKept(w.ledger[n - 1], after.ledger[n - 1]);
      } else if n - 1 in after.ledger {
        AbsoluteConcat([], AffectedRows(after.ledger[n - 1]));
      }
    }
  }

  lemma AggregateExposure(p: Setup, w: World, job: ImpactJob)
    requires p.Valid() && Inv(p, w)
    ensures AggregateOf(job, ListOf(w.store.batches, p.Count())).exposure.absolute
         == LedgerExposure(w.ledger, p.Count())
  {
    var list := ListOf(w.store.batches, p.Count());
    ListOfBacked(p, w, p.Count());
    AggregateReflectsRows(p, w.ledger, job, list);
    ExposureBalances(AffectedRows(RowsBehind(w.ledger, list)));
    RecordedIsLedger(p, w, p.Count());
  }

  /** The absolute exposure an aggregate reports is a lower bound on that of any
      aggregate of the same scan taken later. */
  lemma ExposureNeverDecreases(p: Setup, w: World, steps: seq<Step>, job: ImpactJob, later: ImpactJob)
    requires p.Valid() && Inv(p, w) && Fenced(w) && FreshOwners(p, w, steps)
    ensures var after := Run(p, w, steps);
            AggregateOf(job, ListOf(w.store.batches, p.Count())).exposure.absolute
            <= AggregateOf(later, ListOf(after.store.batches, p.Count())).exposure.absolute
  {
    EvidenceGrows(p, w, steps);
    RunSound(p, w, steps);
    AggregateExposure(p, w, job);
    AggregateExposure(p, Run(p, w, steps), later);
    LedgerExposureGrows(w, Run(p, w, steps), p.Count());
  }
}
