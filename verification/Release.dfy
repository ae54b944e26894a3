/** The verdict of a scan: written once, the same for every caller, and
    PASS_ELIGIBLE only when every row of the portfolio was cleared. */
module Release {
  import opened ImpactModels
  import opened Sorting
  import opened ImpactStore
  import opened RowOutcomes
  import opened Planning
  import opened Aggregation
  import opened Coordinator
  import opened Protocol
  import opened Fencing
  import opened Evidence

  // ---- What a passing verdict says about rows -------------------------------------------

  /** Recorded, in a DONE batch, as out of scope or within tolerance of the
      authoritative premium. */
  ghost predicate Cleared(p: Setup, w: World, i: nat)
    requires p.Valid() && i < |p.snapshot|
  {
    var no := i / p.batchSize;
    && DoneIn(w, no) && InTile(i, no, p.batchSize, p.rowsInScope)
    && i - TileStart(no, p.batchSize) < |w.ledger[no]|
    && var row := w.ledger[no][i - TileStart(no, p.batchSize)];
       row.index == i && (row.detail.OutOfScope? || row.detail.Matched?) && Explained(p.snapshot, p.tolerance, row)
  }

  ghost predicate AllCleared(p: Setup, w: World)
    requires p.Valid()
  {
    forall i: nat | i < |p.snapshot| :: Cleared(p, w, i)
  }

  lemma {:induction false} IncreasingRoom<T>(entries: seq<RowEntry<T>>, hi: nat)
    requires Increasing(entries, hi)
    ensures |entries| <= hi
    ensures |entries| == hi ==> forall k | 0 <= k < |entries| :: entries[k].index == k
  {
    if entries != [] {
      var n := |entries| - 1;
      IncreasingRoom(entries[..n], entries[n].index);
    }
  }

  lemma {:induction false} BatchBehind(ledger: map<nat, Rows>, list: seq<BatchRecord>, row: RowEntry<RowOutcome>)
    returns (j: nat)
    requires row in RowsBehind(ledger, list)
    ensures j < |list| && list[j].completedAt.Some? && list[j].batchNo in ledger && row in ledger[list[j].batchNo]
  {
    var (init, b) := (list[..|list| - 1], list[|list| - 1]);
    if row in RowsBehind(ledger, init) {
      j := BatchBehind(ledger, init, row);
    } else {
      j := |list| - 1;
    }
  }

  lemma CoveredRowInTile(p: Setup, no: nat, b: BatchRecord, rows: Rows, m: nat)
    requires p.Valid() && Faithful(p, no, b, rows) && m < |rows|
    ensures no == rows[m].index / p.batchSize && m == rows[m].index - TileStart(no, p.batchSize)
    ensures rows[m].index < p.rowsInScope
  {
    TileBounds(p.rowsInScope, p.batchSize, no);
    TileOfRow(p.rowsInScope, p.batchSize, rows[m].index, no);
  }

  lemma RowIsCleared(p: Setup, w: World, b: BatchRecord, row: RowEntry<RowOutcome>)
    requires p.Valid() && DoneIn(w, b.batchNo) && Sound(p, b.batchNo, b, w.ledger[b.batchNo])
    requires row in w.ledger[b.batchNo] && (row.detail.OutOfScope? || row.detail.Matched?)
    requires row.index < |p.snapshot| && b.state == Done
    ensures Cleared(p, w, row.index)
  {
    var rows := w.ledger[b.batchNo];
    var k: nat :| k < |rows| && rows[k] == row;
    CoveredRowInTile(p, b.batchNo, b, rows, k);
    assert Explained(p.snapshot, p.tolerance, rows[k]);
  }

  lemma {:induction false} NoneAmong(rows: Rows)
    ensures AffectedRows(rows) == [] && InconclusiveRowsOf(rows) == []
       <==> forall k | 0 <= k < |rows| :: rows[k].detail.OutOfScope? || rows[k].detail.Matched?
  {
    if rows != [] {
      NoneAmong(rows[..|rows| - 1]);
    }
  }

  /** The job as it was read, and its batches as they were listed: every DONE
      record of the listing is still the stored one. */
  ghost predicate Current(p: Setup, w: World, list: seq<BatchRecord>)
    requires p.Valid()
  {
    && InBatchOrder(list)
    && forall i | 0 <= i < |list| ::
         DoneIn(w, list[i].batchNo) && w.store.batches[list[i].batchNo] == list[i]
  }

  lemma CurrentBacked(p: Setup, w: World, list: seq<BatchRecord>)
    requires p.Valid() && Inv(p, w) && Current(p, w, list)
    ensures Backed(p, w.ledger, list)
  {
    forall i | 0 <= i < |list| ensures Faithful(p, list[i].batchNo, list[i], w.ledger[list[i].batchNo]) {
      assert Sound(p, list[i].batchNo, list[i], w.ledger[list[i].batchNo]);
    }
  }

  ghost predicate Plan(p: Setup, job: ImpactJob)
    requires p.Valid()
  {
    job.rowsTotal == |p.snapshot| && job.rowsInScope == p.rowsInScope && job.batchCount == p.Count()
  }

  lemma PassingRows(job: ImpactJob, rows: Rows, counts: BatchCounts)
    requires VerdictOn(job, rows, counts).decision == PassEligible
    ensures |rows| == job.rowsTotal <= job.rowsInScope
    ensures forall k | 0 <= k < |rows| :: rows[k].detail.OutOfScope? || rows[k].detail.Matched?
  {
    NoneAmong(rows);
  }

  lemma BehindIsCleared(p: Setup, w: World, list: seq<BatchRecord>, row: RowEntry<RowOutcome>)
    requires p.Valid() && Inv(p, w) && Current(p, w, list) && row in RowsBehind(w.ledger, list)
    requires row.index < |p.snapshot| && (row.detail.OutOfScope? || row.detail.Matched?)
    ensures Cleared(p, w, row.index)
  {
    var j := BatchBehind(w.ledger, list, row);
    assert Sound(p, list[j].batchNo, w.store.batches[list[j].batchNo], w.ledger[list[j].batchNo]);
    RowIsCleared(p, w, list[j], row);
  }

  lemma PassMeansCleared(p: Setup, w: World, job: ImpactJob, list: seq<BatchRecord>)
    requires p.Valid() && Inv(p, w) && Plan(p, job) && Current(p, w, list)
    requires AggregateOf(job, list).decision == PassEligible
    ensures AllCleared(p, w)
  {
    var rows := RowsBehind(w.ledger, list);
    CurrentBacked(p, w, list);
    AggregateReflectsRows(p, w.ledger, job, list);
    PassingRows(job, rows, BatchCounts(|list|, CountState(list, Done), CountState(list, Incomplete)));
    GatherBacked(p, w.ledger, list);
    IncreasingBelow(rows, EndOf(list), p.rowsInScope);
    IncreasingRoom(rows, p.rowsInScope);
    forall i: nat | i < |p.snapshot| ensures Cleared(p, w, i) {
      BehindIsCleared(p, w, list, rows[i]);
    }
  }

  // ---- The verdict over a run ------------------------------------------------------------

  ghost predicate Condenses(p: Setup, b: BatchRecord)
    requires p.Valid()
  {
    exists rows :: Faithful(p, b.batchNo, b, rows)
  }

  /** A record a coordinator has listed: sound when it was read, and still the stored one if DONE. */
  ghost predicate Listed(p: Setup, w: World, b: BatchRecord)
    requires p.Valid()
  {
    && b.batchNo in w.store.batches && b.batchNo in w.ledger
    && Condenses(p, b)
    && (b.state == Done ==> w.store.batches[b.batchNo] == b)
  }

  ghost predicate ReadingSound(p: Setup, w: World, r: Reading)
    requires p.Valid()
  {
    && Plan(p, r.job)
    && (r.BatchesRead? ==> InBatchOrder(r.list) && forall i | 0 <= i < |r.list| :: Listed(p, w, r.list[i]))
  }

  /** Nothing is lost or counted twice, on the exact totals; the fields of the
      verdict agree; and the money is that of the mismatches the records list. */
  ghost predicate Coherent(a: ImpactAggregate, list: seq<BatchRecord>) {
    && a.mismatches == |AffectedIn(list)| && Bills(a.exposure, AffectedIn(list))
    && (a.decision == Block <==> a.mismatches > 0)
    && a.compared + a.inconclusive + a.outOfScope + a.unprocessed == a.rowsTotal
    && a.unprocessed >= 0 && a.compared <= a.eligible
    && a.exposure.signedNet == a.exposure.overTotal - a.exposure.underTotal
    && a.exposure.absolute == a.exposure.overTotal + a.exposure.underTotal
    && a.exposure.overCount + a.exposure.underCount == a.mismatches
    && (a.decision == PassEligible <==> a.mismatches == 0 && a.completeness == CompleteScan)
    && (a.status == ImpactStatus.Cancelled <==> a.completeness == CancelledScan)
  }

  /** The verdict is on a listing of sound records. */
  ghost predicate RestsOn(p: Setup, a: ImpactAggregate, list: seq<BatchRecord>)
    requires p.Valid()
  {
    InBatchOrder(list) && (forall i | 0 <= i < |list| :: Condenses(p, list[i])) && Coherent(a, list)
  }

  ghost predicate VerdictInv(p: Setup, w: World)
    requires p.Valid() && w.store.job.Some?
  {
    var job := w.store.job.value;
    && (forall c | c in w.readings :: ReadingSound(p, w, w.readings[c]))
    && (forall c | c in w.returned :: job.aggregate == Some(w.returned[c]))
    && (job.aggregate.Some? ==>
          job.status == job.aggregate.value.status && exists list :: RestsOn(p, job.aggregate.value, list))
    && (job.aggregate.Some? && job.aggregate.value.decision == PassEligible ==> AllCleared(p, w))
  }

  lemma {:induction false} GatheredDeltas(p: Setup, list: seq<BatchRecord>)
    requires p.Valid()
    requires forall i | 0 <= i < |list| :: Condenses(p, list[i])
    ensures forall e | e in Gather(list).result.affected :: Abs(Delta(e.detail)) > p.tolerance
  {
    if list != [] {
      var (init, b) := (list[..|list| - 1], list[|list| - 1]);
      GatheredDeltas(p, init);
      var rows :| Faithful(p, b.batchNo, b, rows);
      if b.completedAt.Some? {
        SummaryMembers(rows);
        forall e | e in b.result.affected ensures Abs(Delta(e.detail)) > p.tolerance {
          var k :| 0 <= k < |rows| && rows[k] == RowEntry(e.index, Affected(e.detail));
          assert Explained(p.snapshot, p.tolerance, rows[k]);
        }
      }
    }
  }

  lemma CondensesAccounts(p: Setup, b: BatchRecord)
    requires p.Valid() && Condenses(p, b)
    ensures Accounted(b)
  {
    var rows :| Faithful(p, b.batchNo, b, rows);
    SummarizePartitions(rows);
  }

  /** However stale the records, the slices they claim to have processed do not overlap. */
  lemma {:induction false} ProcessedFits(p: Setup, list: seq<BatchRecord>)
    requires p.Valid() && InBatchOrder(list) && forall i | 0 <= i < |list| :: Condenses(p, list[i])
    ensures Gather(list).processed <= EndOf(list) <= p.rowsInScope
  {
    if list != [] {
      var (init, b) := (list[..|list| - 1], list[|list| - 1]);
      ProcessedFits(p, init);
      assert Condenses(p, b);
      TileBounds(p.rowsInScope, p.batchSize, b.batchNo);
      if init != [] {
        assert Condenses(p, init[|init| - 1]);
        TilesInOrder(p, init[|init| - 1].batchNo, b.batchNo);
      }
    }
  }

  lemma EveryMismatchCounts(p: Setup, affected: seq<RowEntry<Quote>>, sorted: seq<RowEntry<Quote>>)
    requires p.Valid() && multiset(sorted) == multiset(affected)
    requires forall e | e in affected :: Abs(Delta(e.detail)) > p.tolerance
    ensures ExposureOf(sorted).overCount + ExposureOf(sorted).underCount == |sorted|
  {
    SortedMembers(sorted, affected);
    forall i | 0 <= i < |sorted| ensures Delta(sorted[i].detail) != 0.0 {
      assert sorted[i] in affected;
    }
    ExposureBalances(sorted);
  }

  /** Whatever a coordinator listed, however stale, its aggregate conserves rows and money. */
  lemma ListedIsCoherent(p: Setup, job: ImpactJob, list: seq<BatchRecord>)
    requires p.Valid() && InBatchOrder(list) && Plan(p, job)
    requires forall i | 0 <= i < |list| :: Condenses(p, list[i])
    ensures Coherent(AggregateOf(job, list), list)
  {
    VerdictMeans(job, list);
    ProcessedFits(p, list);
    forall i | 0 <= i < |list| ensures Accounted(list[i]) {
      CondensesAccounts(p, list[i]);
    }
    AggregateConserves(job, list);
    SortedAlready(list);
    GatheredDeltas(p, list);
    var affected := Gather(list).result.affected;
    EveryMismatchCounts(p, affected, SortBy(IndexLeq<Quote>, affected));
  }

  lemma FinishVerdict(p: Setup, w: World, job: ImpactJob, list: seq<BatchRecord>)
    requires p.Valid() && Inv(p, w) && ReadingSound(p, w, BatchesRead(job, list))
    ensures RestsOn(p, AggregateOf(job, list), list)
    ensures AggregateOf(job, list).decision == PassEligible ==> AllCleared(p, w)
  {
    assert forall i | 0 <= i < |list| :: Listed(p, w, list[i]);
    ListedIsCoherent(p, job, list);
    if AggregateOf(job, list).decision == PassEligible {
      SortedAlready(list);
      AllInState(list, Done);
      PassMeansCleared(p, w, job, list);
    }
  }

  lemma ClearedStays(p: Setup, w: World, step: Step, after: World)
    requires p.Valid() && Shaped(p, w, step, after) && AllCleared(p, w)
    ensures AllCleared(p, after)
  {
    forall i: nat | i < |p.snapshot| ensures Cleared(p, after, i) {
      assert Cleared(p, w, i);
      DoneStays(p, w, step, after, i / p.batchSize);
    }
  }

  lemma ListedStays(p: Setup, w: World, step: Step, after: World, b: BatchRecord)
    requires p.Valid() && Inv(p, w) && Shaped(p, w, step, after) && Listed(p, w, b)
    ensures Listed(p, after, b)
  {
    if b.state == Done {
      DoneStays(p, w, step, after, b.batchNo);
    }
  }

  lemma ReadingStays(p: Setup, w: World, step: Step, after: World, r: Reading)
    requires p.Valid() && Inv(p, w) && Shaped(p, w, step, after) && ReadingSound(p, w, r)
    ensures ReadingSound(p, after, r)
  {
    if r.BatchesRead? {
      forall i | 0 <= i < |r.list| ensures Listed(p, after, r.list[i]) {
        assert Listed(p, w, r.list[i]);
        ListedStays(p, w, step, after, r.list[i]);
      }
    }
  }

  /** What is fixed about a job once it is finalized; cancelling is never undone. */
  ghost predicate JobKept(w: World, after: World) {
    && w.store.job.Some? && after.store.job.Some?
    && var (a, b) := (w.store.job.value, after.store.job.value);
       && (a.cancelRequested ==> b.cancelRequested)
       && (a.finalizedAt.Some? ==> b.status == a.status && b.aggregate == a.aggregate && b.finalizedAt == a.finalizedAt)
  }

  lemma StepKeepsJob(p: Setup, w: World, step: Step)
    requires p.Valid() && w.store.job.Some?
    ensures JobKept(w, Apply(p, w, step))
  {
    match step
    case Write(task, replies) => if CanWrite(p, w, task, replies) { WriteShape(p, w, task, replies); }
    case _ =>
  }

  /** A step outside the coordinators leaves their work and the verdict alone. */
  ghost predicate VerdictUntouched(w: World, after: World) {
    && after.readings == w.readings && after.returned == w.returned
    && w.store.job.Some? && after.store.job.Some?
    && after.store.job.value.aggregate == w.store.job.value.aggregate
    && after.store.job.value.status == w.store.job.value.status
  }

  lemma WriteUntouched(p: Setup, w: World, task: nat, replies: map<nat, RemoteOutcome>)
    requires p.Valid() && w.store.job.Some? && CanWrite(p, w, task, replies)
    ensures VerdictUntouched(w, AfterWrite(p, w, task, replies))
  {
  }

  lemma CrashUntouched(w: World, task: nat)
    requires w.store.job.Some? && task in w.tasks
    ensures VerdictUntouched(w, AfterCrash(w, task))
  {
  }

  lemma DeliverUntouched(p: Setup, w: World, task: nat, no: nat, owner: Owner)
    requires w.store.job.Some?
    ensures VerdictUntouched(w, AfterDeliver(p, w, task, no, owner))
  {
  }

  lemma OutsideCoordinators(p: Setup, w: World, step: Step)
    requires p.Valid() && w.store.job.Some? && !step.ReadJob? && !step.ReadBatches? && !step.Finish?
    ensures VerdictUntouched(w, Apply(p, w, step))
  {
    match step
    case Deliver(task, no, owner) => DeliverUntouched(p, w, task, no, owner);
    case Write(task, replies) => if CanWrite(p, w, task, replies) { WriteUntouched(p, w, task, replies); }
    case Crash(task) => if task in w.tasks { CrashUntouched(w, task); }
    case _ =>
  }

  lemma UntouchedVerdict(p: Setup, w: World, step: Step, after: World)
    requires p.Valid() && Inv(p, w) && VerdictInv(p, w) && Shaped(p, w, step, after) && VerdictUntouched(w, after)
    ensures VerdictInv(p, after)
  {
    forall c | c in after.readings ensures ReadingSound(p, after, after.readings[c]) {
      ReadingStays(p, w, step, after, w.readings[c]);
    }
    if AllCleared(p, w) { ClearedStays(p, w, step, after); }
  }

  ghost predicate SameBatches(w: World, after: World) {
    after.store.batches == w.store.batches && after.ledger == w.ledger
  }

  lemma SameBatchesSound(p: Setup, w: World, after: World, r: Reading)
    requires p.Valid() && SameBatches(w, after)
    ensures ReadingSound(p, w, r) == ReadingSound(p, after, r)
  {
    if r.BatchesRead? {
      assert forall i | 0 <= i < |r.list| :: Listed(p, w, r.list[i]) == Listed(p, after, r.list[i]);
    }
  }

  lemma SameBatchesCleared(p: Setup, w: World, after: World)
    requires p.Valid() && SameBatches(w, after)
    ensures AllCleared(p, w) == AllCleared(p, after)
  {
    assert forall i: nat | i < |p.snapshot| :: Cleared(p, w, i) == Cleared(p, after, i);
  }

  lemma NewReadingVerdict(p: Setup, w: World, after: World, c: nat, job: ImpactJob)
    requires p.Valid() && w.store.job.Some? && VerdictInv(p, w) && Plan(p, job)
    requires after == w.(readings := w.readings[c := JobRead(job)])
    ensures VerdictInv(p, after)
  {
    forall d | d in after.readings ensures ReadingSound(p, after, after.readings[d]) {
      SameBatchesSound(p, w, after, after.readings[d]);
    }
    SameBatchesCleared(p, w, after);
  }

  lemma ReturnedVerdict(p: Setup, w: World, after: World, c: nat)
    requires p.Valid() && w.store.job.Some? && VerdictInv(p, w) && w.store.job.value.aggregate.Some?
    requires after == w.(returned := w.returned[c := w.store.job.value.aggregate.value])
    ensures VerdictInv(p, after)
  {
    forall d | d in after.readings ensures ReadingSound(p, after, after.readings[d]) {
      SameBatchesSound(p, w, after, after.readings[d]);
    }
    SameBatchesCleared(p, w, after);
  }

  lemma ReadJobVerdict(p: Setup, w: World, c: nat)
    requires p.Valid() && Inv(p, w) && VerdictInv(p, w)
    ensures VerdictInv(p, AfterReadJob(w, c))
  {
    if c !in w.readings && c !in w.returned {
      var job := w.store.job.value;
      if job.finalizedAt.Some? && job.aggregate.Some? {
        ReturnedVerdict(p, w, AfterReadJob(w, c), c);
      } else {
        NewReadingVerdict(p, w, AfterReadJob(w, c), c, job);
      }
    }
  }

  lemma ReadBatchesVerdict(p: Setup, w: World, c: nat)
    requires p.Valid() && Inv(p, w) && VerdictInv(p, w)
    ensures VerdictInv(p, AfterReadBatches(w, c))
  {
    var after := AfterReadBatches(w, c);
    if c in w.readings && w.readings[c].JobRead? {
      var list := ListOf(w.store.batches, w.readings[c].job.batchCount);
      ListOfBacked(p, w, w.readings[c].job.batchCount);
      forall i | 0 <= i < |list| ensures Listed(p, after, list[i]) {
        assert Faithful(p, list[i].batchNo, list[i], w.ledger[list[i].batchNo]);
        assert Condenses(p, list[i]);
      }
    }
    forall d | d in after.readings ensures ReadingSound(p, after, after.readings[d]) {
      if d in w.readings {
        SameBatchesSound(p, w, after, w.readings[d]);
      }
    }
    SameBatchesCleared(p, w, after);
  }

  lemma FinalizedVerdict(p: Setup, w: World, c: nat, agg: ImpactAggregate)
    requires p.Valid() && Inv(p, w) && VerdictInv(p, w)
    requires (exists list :: RestsOn(p, agg, list)) && (agg.decision == PassEligible ==> AllCleared(p, w))
    ensures w.store.job.Some? && Finalized(w, c, agg).store.job.Some? && VerdictInv(p, Finalized(w, c, agg))
  {
    var after := Finalized(w, c, agg);
    forall d | d in after.readings ensures ReadingSound(p, after, after.readings[d]) {
      SameBatchesSound(p, w, after, w.readings[d]);
    }
    SameBatchesCleared(p, w, after);
  }

  lemma FinishStepVerdict(p: Setup, w: World, c: nat)
    requires p.Valid() && Inv(p, w) && VerdictInv(p, w)
    ensures w.store.job.Some? && AfterFinish(w, c).store.job.Some? && VerdictInv(p, AfterFinish(w, c))
  {
    if c in w.readings && w.readings[c].BatchesRead? {
      var (job, list) := (w.readings[c].job, w.readings[c].list);
      assert ReadingSound(p, w, w.readings[c]);
      FinishVerdict(p, w, job, list);
      FinalizedVerdict(p, w, c, AggregateOf(job, list));
    }
  }

  lemma StepVerdict(p: Setup, w: World, step: Step)
    requires p.Valid() && Inv(p, w) && VerdictInv(p, w)
    ensures w.store.job.Some? && Apply(p, w, step).store.job.Some? && VerdictInv(p, Apply(p, w, step))
  {
    match step
    case ReadJob(c) => ReadJobVerdict(p, w, c);
    case ReadBatches(c) => ReadBatchesVerdict(p, w, c);
    case Finish(c) => FinishStepVerdict(p, w, c);
    case _ =>
      StepShape(p, w, step);
      OutsideCoordinators(p, w, step);
      UntouchedVerdict(p, w, step, Apply(p, w, step));
  }

  lemma {:induction false} RunVerdict(p: Setup, w: World, steps: seq<Step>)
    requires p.Valid() && Inv(p, w) && VerdictInv(p, w)
    ensures Inv(p, Run(p, w, steps)) && VerdictInv(p, Run(p, w, steps))
  {
    RunSound(p, w, steps);
    if steps != [] {
      RunVerdict(p, w, steps[..|steps| - 1]);
      StepVerdict(p, Run(p, w, steps[..|steps| - 1]), steps[|steps| - 1]);
    }
  }

  /** However coordinators race, every caller that returns has the one stored verdict. */
  lemma OneVerdictForAll(p: Setup, now: Time, steps: seq<Step>, c: nat)
    requires p.Valid() && c in Run(p, Init(p, now), steps).returned
    ensures var w := Run(p, Init(p, now), steps);
            && w.store.job.Some? && w.store.job.value.aggregate == Some(w.returned[c])
            && w.store.job.value.status == w.returned[c].status
            && exists list :: RestsOn(p, w.returned[c], list)
  {
    RunVerdict(p, Init(p, now), steps);
  }

  /** After finalization the status and the aggregate never change, whatever
      steps follow, and a cancel request is never withdrawn. */
  lemma {:induction false} VerdictIsWrittenOnce(p: Setup, w: World, steps: seq<Step>)
    requires p.Valid() && Inv(p, w)
    ensures JobKept(w, Run(p, w, steps))
  {
    if steps != [] {
      VerdictIsWrittenOnce(p, w, steps[..|steps| - 1]);
      StepKeepsJob(p, Run(p, w, steps[..|steps| - 1]), steps[|steps| - 1]);
    }
  }

  /** A coordinator that finds the job finalized answers at once with the stored
      verdict; any other reads the job as it is, and lists nothing yet. */
  lemma ReadJobExactly(p: Setup, w: World, c: nat)
    requires p.Valid() && Inv(p, w) && c !in w.readings && c !in w.returned
    ensures var (job, after) := (w.store.job.value, AfterReadJob(w, c));
            && after.store == w.store
            && (c in after.returned <==> job.finalizedAt.Some?)
            && (c in after.returned ==> Some(after.returned[c]) == job.aggregate && c !in after.readings)
            && (c !in after.returned ==> c in after.readings && after.readings[c] == JobRead(job))
  {
  }

  ghost predicate JobShut(w: World) {
    w.store.job.Some? && (w.store.job.value.finalizedAt.Some? || w.store.job.value.cancelRequested)
  }

  lemma ShutGrantsNothing(p: Setup, w: World, step: Step)
    requires p.Valid() && Inv(p, w) && JobShut(w)
    ensures Apply(p, w, step).leases == w.leases
  {
    match step
    case Deliver(task, no, owner) =>
      assert LeaseStep(w.store, no, owner, p.leaseTime, p.maxAttempts, w.now).result == JobClosed;
    case CreateBatches => CreateShape(p, w);
    case Write(task, replies) => if CanWrite(p, w, task, replies) { WriteShape(p, w, task, replies); }
    case Crash(task) => if task in w.tasks { CrashShape(p, w, task); }
    case _ => OtherShape(p, w, step);
  }

  /** After finalization or a cancel request no lease is ever granted again. */
  lemma {:induction false} ShutJobsGrantNoLease(p: Setup, w: World, steps: seq<Step>)
    requires p.Valid() && Inv(p, w) && JobShut(w)
    ensures Run(p, w, steps).leases == w.leases
  {
    if steps != [] {
      ShutJobsGrantNoLease(p, w, steps[..|steps| - 1]);
      RunSound(p, w, steps[..|steps| - 1]);
      VerdictIsWrittenOnce(p, w, steps[..|steps| - 1]);
      ShutGrantsNothing(p, Run(p, w, steps[..|steps| - 1]), steps[|steps| - 1]);
    }
  }

  ghost predicate HasPassed(w: World) {
    && w.store.job.Some? && w.store.job.value.aggregate.Some?
    && w.store.job.value.aggregate.value.decision == PassEligible
  }

  /** Whenever a scan has answered PASS_ELIGIBLE, on any run with any owners,
      every row of the whole portfolio is recorded, for good, as out of scope or
      priced within tolerance. */
  lemma ReleaseIsSound(p: Setup, now: Time, steps: seq<Step>)
    requires p.Valid()
    ensures var w := Run(p, Init(p, now), steps);
            && (HasPassed(w) ==> AllCleared(p, w))
            && (forall c | c in w.returned && w.returned[c].decision == PassEligible :: AllCleared(p, w))
  {
    RunVerdict(p, Init(p, now), steps);
  }

  /** So after a pass every policy that was in scope had its own premium
      calculated, and the candidate premium compared with it was within tolerance. */
  lemma PassedPolicies(p: Setup, now: Time, steps: seq<Step>, i: nat)
    requires p.Valid() && i < |p.snapshot| && HasPassed(Run(p, Init(p, now), steps))
    ensures var (w, no) := (Run(p, Init(p, now), steps), i / p.batchSize);
            && no in w.ledger && TileStart(no, p.batchSize) <= i < TileStart(no, p.batchSize) + |w.ledger[no]|
            && var policy := p.snapshot[i];
               var row := w.ledger[no][i - TileStart(no, p.batchSize)];
               && row.index == i
               && (row.detail.OutOfScope? <==>
                     !policy.productMatches || policy.calculation == DateRejected("CALCULATION_DATE_OUT_OF_PERIOD"))
               && (!row.detail.OutOfScope? ==>
                     && row.detail.Matched? && policy.calculation == Premium(row.detail.quote.expected)
                     && -p.tolerance <= row.detail.quote.candidate - row.detail.quote.expected <= p.tolerance)
  {
    ReleaseIsSound(p, now, steps);
    assert Cleared(p, Run(p, Init(p, now), steps), i);
  }

  // ---- Exactly when a listing passes -----------------------------------------------------

  lemma CoversConcat(a: Rows, b: Rows, lo: nat, mid: nat, hi: nat)
    requires Covers(a, lo, mid) && Covers(b, mid, hi)
    ensures Covers(a + b, lo, hi)
  {
  }

  lemma {:induction false} FullRows(p: Setup, ledger: map<nat, Rows>, list: seq<BatchRecord>)
    requires p.Valid() && Backed(p, ledger, list)
    requires forall i | 0 <= i < |list| :: list[i].batchNo == i && list[i].completedAt.Some?
    ensures Covers(RowsBehind(ledger, list), 0, EndOf(list))
    ensures |list| == p.Count() ==> EndOf(list) == p.rowsInScope
  {
    if list != [] {
      var (n, init, b) := (|list| - 1, list[..|list| - 1], list[|list| - 1]);
      FullRows(p, ledger, init);
      assert Faithful(p, n, b, ledger[n]);
      TileBounds(p.rowsInScope, p.batchSize, n);
      if n > 0 {
        assert Faithful(p, n - 1, list[n - 1], ledger[n - 1]);
        TileBounds(p.rowsInScope, p.batchSize, n - 1);
      }
      CoversConcat(RowsBehind(ledger, init), ledger[n], 0, b.rowStart, b.rowEnd);
    } else {
      TilesFit(p.rowsInScope, p.batchSize, 0);
    }
  }

  lemma {:induction false} ListOfAll(batches: map<nat, BatchRecord>, n: nat)
    requires forall no: nat | no < n :: no in batches
    ensures |ListOf(batches, n)| == n && forall no: nat | no < n :: ListOf(batches, n)[no] == batches[no]
  {
    if n > 0 {
      ListOfAll(batches, n - 1);
    }
  }

  lemma AllTilesDone(p: Setup, w: World)
    requires p.Valid() && AllCleared(p, w)
    ensures p.rowsInScope == |p.snapshot|
    ensures forall no: nat | no < p.Count() :: DoneIn(w, no)
  {
    if p.snapshot != [] {
      assert Cleared(p, w, |p.snapshot| - 1);
    }
    forall no: nat | no < p.Count() ensures DoneIn(w, no) {
      TileBounds(p.rowsInScope, p.batchSize, no);
      var i := TileStart(no, p.batchSize);
      TileOfRow(p.rowsInScope, p.batchSize, i, no);
      assert Cleared(p, w, i);
    }
  }

  /** The listing of a world whose batches are all done: every row in scope is behind it, in order. */
  lemma AllDoneListing(p: Setup, w: World)
    requires p.Valid() && Inv(p, w) && forall no: nat | no < p.Count() :: DoneIn(w, no)
    ensures var list := ListOf(w.store.batches, p.Count());
            && Backed(p, w.ledger, list) && |list| == p.Count() && CountState(list, Done) == p.Count()
            && Covers(RowsBehind(w.ledger, list), 0, p.rowsInScope)
  {
    var list := ListOf(w.store.batches, p.Count());
    forall no: nat | no < p.Count() ensures no in w.store.batches {
      assert DoneIn(w, no);
    }
    ListOfAll(w.store.batches, p.Count());
    ListOfBacked(p, w, p.Count());
    forall i | 0 <= i < |list| ensures list[i].batchNo == i && list[i].completedAt.Some? && list[i].state == Done {
      assert DoneIn(w, i) && Sound(p, i, w.store.batches[i], w.ledger[i]);
    }
    FullRows(p, w.ledger, list);
    AllInState(list, Done);
  }

  lemma ClearedMeansPass(p: Setup, w: World, job: ImpactJob)
    requires p.Valid() && Inv(p, w) && Plan(p, job) && AllCleared(p, w)
    requires !job.cancelRequested && job.budgetExhausted == [] && !Halts(job)
    ensures AggregateOf(job, ListOf(w.store.batches, p.Count())).decision == PassEligible
  {
    var list := ListOf(w.store.batches, p.Count());
    var rows := RowsBehind(w.ledger, list);
    AllTilesDone(p, w);
    AllDoneListing(p, w);
    AggregateReflectsRows(p, w.ledger, job, list);
    forall k | 0 <= k < |rows| ensures rows[k].detail.OutOfScope? || rows[k].detail.Matched? {
      RowClearedBehind(p, w, list, k);
    }
    NoneAmong(rows);
  }

  lemma ClearedOutcome(p: Setup, w: World, no: nat, b: BatchRecord, m: nat)
    requires p.Valid() && AllCleared(p, w) && no in w.ledger && Faithful(p, no, b, w.ledger[no]) && m < |w.ledger[no]|
    ensures w.ledger[no][m].detail.OutOfScope? || w.ledger[no][m].detail.Matched?
  {
    CoveredRowInTile(p, no, b, w.ledger[no], m);
    assert Cleared(p, w, w.ledger[no][m].index);
  }

  lemma RowClearedBehind(p: Setup, w: World, list: seq<BatchRecord>, k: nat)
    requires p.Valid() && AllCleared(p, w) && Backed(p, w.ledger, list)
    requires k < |RowsBehind(w.ledger, list)|
    ensures var row := RowsBehind(w.ledger, list)[k]; row.detail.OutOfScope? || row.detail.Matched?
  {
    var row := RowsBehind(w.ledger, list)[k];
    var j := BatchBehind(w.ledger, list, row);
    var no := list[j].batchNo;
    var m: nat :| m < |w.ledger[no]| && w.ledger[no][m] == row;
    ClearedOutcome(p, w, no, list[j], m);
  }

  lemma PassListingIsCurrent(p: Setup, w: World, job: ImpactJob)
    requires p.Valid() && Inv(p, w)
    requires AggregateOf(job, ListOf(w.store.batches, p.Count())).decision == PassEligible
    ensures Current(p, w, ListOf(w.store.batches, p.Count()))
  {
    var list := ListOf(w.store.batches, p.Count());
    ListOfBacked(p, w, p.Count());
    SortedAlready(list);
    AllInState(list, Done);
  }

  /** Aggregating the checkpoints as they stand passes if and only if every row
      is cleared and nothing has cancelled, halted or cut short the scan. */
  lemma PassExactlyWhenCleared(p: Setup, w: World, job: ImpactJob)
    requires p.Valid() && Inv(p, w) && Plan(p, job)
    ensures AggregateOf(job, ListOf(w.store.batches, p.Count())).decision == PassEligible
       <==> !job.cancelRequested && job.budgetExhausted == [] && !Halts(job) && AllCleared(p, w)
  {
    if AggregateOf(job, ListOf(w.store.batches, p.Count())).decision == PassEligible {
      PassListingIsCurrent(p, w, job);
      PassMeansCleared(p, w, job, ListOf(w.store.batches, p.Count()));
      BudgetsAsReasons(job.budgetExhausted);
    } else if !job.cancelRequested && job.budgetExhausted == [] && !Halts(job) && AllCleared(p, w) {
      ClearedMeansPass(p, w, job);
    }
  }
}
