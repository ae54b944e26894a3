/** With a connector that answers each row the same way whenever it answers at
    all, a scan amounts to one sequential pass over the portfolio. */
module Schedule {
  import opened Arithmetic
  import opened ImpactModels
  import opened RowOutcomes
  import opened Processor
  import opened Planning
  import opened Aggregation
  import opened Protocol
  import opened Fencing
  import opened Evidence
  import opened Release
  import RowPartition
  import R = RemotePricing
  import Resilience

  type Answers = nat -> RemoteOutcome

  /** Every exchange failed transiently or gave the row's answer. */
  ghost predicate Consistent(step: Step, answers: Answers) {
    step.Write? ==> forall i | i in step.replies :: Fleeting(step.replies[i]) || step.replies[i] == answers(i)
  }

  ghost predicate AllConsistent(steps: seq<Step>, answers: Answers) {
    forall k | 0 <= k < |steps| :: Consistent(steps[k], answers)
  }

  /** What an attempt collects from a connector with fixed answers is consistent
      with them, however its calls interleave. */
  lemma AttemptIsConsistent(
      answers: Answers, task: nat, pending: seq<nat>, size: nat, lim: Resilience.Limits, actions: seq<R.Action>)
    requires size > 0 && R.FaithfulActions(answers, R.Chunks(pending, size), actions)
    ensures Consistent(Write(task, R.PerformAll(R.Start(pending, size), lim, actions).results), answers)
  {
    R.FaithfulConnectorFilesAnswers(answers, pending, size, lim, actions);
  }

  function Answered(p: Setup, answers: Answers, i: nat): RowOutcome
    requires i < |p.snapshot|
  {
    var policy := p.snapshot[i];
    if !policy.productMatches then OutOfScope("PRODUCT_MISMATCH")
    else match policy.calculation
      case DateRejected(code) =>
        if code == "CALCULATION_DATE_OUT_OF_PERIOD" then OutOfScope("OUTSIDE_EFFECTIVE_PERIOD")
        else Inconclusive(Problem(code, false))
      case CalculationFailed => Inconclusive(Problem("LOCAL_CALCULATION_ERROR", false))
      case Premium(amount) =>
        match answers(i)
        case RemoteError(code, transient) => Inconclusive(Problem(code, transient))
        case Candidate(premium) =>
          var quote := Quote(amount, premium);
          if Within(p.tolerance, quote) then Matched(quote) else Affected(quote)
  }

  /** The reference: one pass over the first `n` rows, without batches, leases or retries. */
  function SequentialScan(p: Setup, answers: Answers, n: nat): BatchResult
    requires n <= |p.snapshot|
  {
    if n == 0 then NO_RESULT
    else
      var before := SequentialScan(p, answers, n - 1);
      match Answered(p, answers, n - 1)
      case Matched(_) => before.(matched := before.matched + 1)
      case OutOfScope(reason) => before.(outOfScope := before.outOfScope + [RowEntry(n - 1, reason)])
      case Affected(quote) => before.(affected := before.affected + [RowEntry(n - 1, quote)])
      case Inconclusive(problem) => before.(inconclusive := before.inconclusive + [RowEntry(n - 1, problem)])
  }

  // ---- Every recorded row is transient or has its answer ----------------------------------

  ghost predicate OnTrack(p: Setup, answers: Answers, rows: Rows) {
    forall k | 0 <= k < |rows| ::
      rows[k].index < |p.snapshot|
      && (Transient(rows[k]) || rows[k].detail == Answered(p, answers, rows[k].index))
  }

  ghost predicate WorldOnTrack(p: Setup, answers: Answers, w: World) {
    && (forall no | no in w.ledger :: OnTrack(p, answers, w.ledger[no]))
    && (forall t | t in w.tasks :: OnTrack(p, answers, w.tasks[t].rows))
  }

  lemma MergeOnTrack(p: Setup, answers: Answers, rows: Rows, replies: map<nat, RemoteOutcome>)
    requires OnTrack(p, answers, rows) && Answerable(p.snapshot, replies, TransientIndexes(rows))
    requires forall i | i in replies :: Fleeting(replies[i]) || replies[i] == answers(i)
    ensures OnTrack(p, answers, Merged(p.snapshot, replies, p.tolerance, rows))
  {
    var merged := Merged(p.snapshot, replies, p.tolerance, rows);
    forall k | 0 <= k < |merged|
      ensures merged[k].index < |p.snapshot|
      ensures Transient(merged[k]) || merged[k].detail == Answered(p, answers, merged[k].index)
    {
      MergedRow(p.snapshot, replies, p.tolerance, rows, k);
    }
  }

  lemma TileOnTrack(p: Setup, answers: Answers, no: nat)
    requires p.Valid() && no < p.Count()
    ensures OnTrack(p, answers, TileRows(p, no))
  {
    TileBounds(p.rowsInScope, p.batchSize, no);
    var (lo, hi) := (TileStart(no, p.batchSize), TileEnd(no, p.batchSize, p.rowsInScope));
    UnpricedFacts(lo, hi);
    forall k | 0 <= k < hi - lo ensures Transient(UnpricedRows(lo, hi)[k]) {
      UnpricedTransient(lo, hi, k);
    }
  }

  lemma WriteOnTrack(p: Setup, answers: Answers, w: World, task: nat, replies: map<nat, RemoteOutcome>)
    requires p.Valid() && WorldOnTrack(p, answers, w) && CanWrite(p, w, task, replies)
    requires Consistent(Write(task, replies), answers)
    ensures WorldOnTrack(p, answers, AfterWrite(p, w, task, replies))
  {
    WriteShape(p, w, task, replies);
    MergeOnTrack(p, answers, w.tasks[task].rows, replies);
  }

  lemma CreateOnTrack(p: Setup, answers: Answers, w: World, after: World)
    requires p.Valid() && Inv(p, after) && WorldOnTrack(p, answers, w) && Extended(p, w, after)
    requires w.store.batches.Keys == w.ledger.Keys
    ensures WorldOnTrack(p, answers, after)
  {
    forall no | no in after.ledger ensures OnTrack(p, answers, after.ledger[no]) {
      if no !in w.ledger {
        assert Sound(p, no, after.store.batches[no], after.ledger[no]);
        TileOnTrack(p, answers, no);
      }
    }
  }

  lemma StepOnTrack(p: Setup, answers: Answers, w: World, step: Step)
    requires p.Valid() && Inv(p, w) && WorldOnTrack(p, answers, w) && Consistent(step, answers)
    ensures WorldOnTrack(p, answers, Apply(p, w, step))
  {
    match step
    case CreateBatches =>
      CreateShape(p, w);
      CreateSound(p, w);
      CreateOnTrack(p, answers, w, AfterCreate(p, w));
    case Deliver(task, no, owner) => DeliverShape(p, w, task, no, owner);
    case Write(task, replies) =>
      if CanWrite(p, w, task, replies) { WriteOnTrack(p, answers, w, task, replies); }
    case Crash(task) =>
      if task in w.tasks { CrashShape(p, w, task); }
    case _ => OtherShape(p, w, step);
  }

  lemma {:induction false} RunOnTrack(p: Setup, answers: Answers, w: World, steps: seq<Step>)
    requires p.Valid() && Inv(p, w) && WorldOnTrack(p, answers, w) && AllConsistent(steps, answers)
    ensures WorldOnTrack(p, answers, Run(p, w, steps))
  {
    if steps != [] {
      var n := |steps| - 1;
      RunOnTrack(p, answers, w, steps[..n]);
      RunSound(p, w, steps[..n]);
      StepOnTrack(p, answers, Run(p, w, steps[..n]), steps[n]);
    }
  }

  // ---- So a finished scan is the sequential one ---------------------------------------------

  ghost function AnsweredRows(p: Setup, answers: Answers, lo: nat, hi: nat): (rows: Rows)
    requires lo <= hi <= |p.snapshot|
    ensures Covers(rows, lo, hi)
    ensures forall k | 0 <= k < |rows| :: rows[k].detail == Answered(p, answers, lo + k)
  {
    if lo == hi then [] else AnsweredRows(p, answers, lo, hi - 1) + [RowEntry(hi - 1, Answered(p, answers, hi - 1))]
  }

  lemma {:induction false} ScanSummarizes(p: Setup, answers: Answers, n: nat)
    requires n <= |p.snapshot|
    ensures Summarize(AnsweredRows(p, answers, 0, n)) == SequentialScan(p, answers, n)
  {
    if n > 0 {
      ScanSummarizes(p, answers, n - 1);
      assert AnsweredRows(p, answers, 0, n)[..n - 1] == AnsweredRows(p, answers, 0, n - 1);
    }
  }

  lemma {:induction false} BehindOnTrack(p: Setup, answers: Answers, ledger: map<nat, Rows>, list: seq<BatchRecord>)
    requires forall no | no in ledger :: OnTrack(p, answers, ledger[no])
    ensures OnTrack(p, answers, RowsBehind(ledger, list))
  {
    if list != [] {
      BehindOnTrack(p, answers, ledger, list[..|list| - 1]);
    }
  }

  lemma NothingTransient(p: Setup, w: World, k: nat)
    requires p.Valid() && Inv(p, w) && forall no: nat | no < p.Count() :: DoneIn(w, no)
    requires k < |RowsBehind(w.ledger, ListOf(w.store.batches, p.Count()))|
    ensures !Transient(RowsBehind(w.ledger, ListOf(w.store.batches, p.Count()))[k])
  {
    var list := ListOf(w.store.batches, p.Count());
    var row := RowsBehind(w.ledger, list)[k];
    ListOfBacked(p, w, p.Count());
    var j := BatchBehind(w.ledger, list, row);
    var no := list[j].batchNo;
    assert DoneIn(w, no) && Sound(p, no, w.store.batches[no], w.ledger[no]);
    RowPartition.TransientIsListed(w.store.batches[no], w.ledger[no]);
  }

  lemma FinishedRows(p: Setup, answers: Answers, w: World)
    requires p.Valid() && Inv(p, w) && WorldOnTrack(p, answers, w)
    requires forall no: nat | no < p.Count() :: DoneIn(w, no)
    ensures RowsBehind(w.ledger, ListOf(w.store.batches, p.Count())) == AnsweredRows(p, answers, 0, p.rowsInScope)
  {
    var rows := RowsBehind(w.ledger, ListOf(w.store.batches, p.Count()));
    AllDoneListing(p, w);
    BehindOnTrack(p, answers, w.ledger, ListOf(w.store.batches, p.Count()));
    forall k | 0 <= k < |rows| ensures rows[k] == AnsweredRows(p, answers, 0, p.rowsInScope)[k] {
      NothingTransient(p, w, k);
    }
  }

  lemma DoneCounts(p: Setup, w: World)
    requires p.Valid() && Inv(p, w) && forall no: nat | no < p.Count() :: DoneIn(w, no)
    ensures CountState(ListOf(w.store.batches, p.Count()), Incomplete) == 0
  {
    AllDoneListing(p, w);
    AllInState(ListOf(w.store.batches, p.Count()), Done);
    NoneInState(ListOf(w.store.batches, p.Count()), Incomplete);
  }

  lemma {:induction false} NoneInState(list: seq<BatchRecord>, state: BatchState)
    requires forall i | 0 <= i < |list| :: list[i].state != state
    ensures CountState(list, state) == 0
  {
    if list != [] {
      NoneInState(list[..|list| - 1], state);
    }
  }

  /** Any run that ends with every batch DONE, whatever its interleaving,
      duplicate deliveries, crashes, expiries and restarts, and whatever order
      its batches are then listed in, aggregates to exactly what one sequential
      pass over the rows in scope finds. */
  lemma ScheduleIndependence(
      p: Setup, now: Time, steps: seq<Step>, answers: Answers, job: ImpactJob, listing: seq<BatchRecord>)
    requires p.Valid() && AllConsistent(steps, answers)
    requires var w := Run(p, Init(p, now), steps);
             && (forall no: nat | no < p.Count() :: DoneIn(w, no))
             && multiset(listing) == multiset(ListOf(w.store.batches, p.Count()))
    ensures var scan := SequentialScan(p, answers, p.rowsInScope);
            AggregateOf(job, listing)
            == Verdict(job, p.rowsInScope, scan.matched, |scan.outOfScope|, scan.affected, scan.inconclusive,
                       BatchCounts(p.Count(), p.Count(), 0))
  {
    var w := Run(p, Init(p, now), steps);
    RunSound(p, Init(p, now), steps);
    RunOnTrack(p, answers, Init(p, now), steps);
    AllDoneListing(p, w);
    AggregateForgetsOrder(job, listing, ListOf(w.store.batches, p.Count()));
    AggregateReflectsRows(p, w.ledger, job, ListOf(w.store.batches, p.Count()));
    FinishedRows(p, answers, w);
    ScanSummarizes(p, answers, p.rowsInScope);
    DoneCounts(p, w);
  }

  // ---- And an unfinished one reports no more ------------------------------------------------

  lemma OnTrackKeeps(p: Setup, answers: Answers, rows: Rows, lo: nat, hi: nat)
    requires OnTrack(p, answers, rows) && Covers(rows, lo, hi) && hi <= |p.snapshot|
    ensures Keeps(rows, AnsweredRows(p, answers, lo, hi))
  {
  }

  lemma AnsweredSplit(p: Setup, answers: Answers, lo: nat, mid: nat, hi: nat)
    requires lo <= mid <= hi <= |p.snapshot|
    ensures AnsweredRows(p, answers, lo, hi) == AnsweredRows(p, answers, lo, mid) + AnsweredRows(p, answers, mid, hi)
  {
  }

  lemma AnsweredExposure(p: Setup, answers: Answers, mid: nat, hi: nat)
    requires mid <= hi <= |p.snapshot|
    ensures AbsoluteOf(AnsweredRows(p, answers, 0, hi))
         == AbsoluteOf(AnsweredRows(p, answers, 0, mid)) + AbsoluteOf(AnsweredRows(p, answers, mid, hi))
    ensures AbsoluteOf(AnsweredRows(p, answers, mid, hi)) >= 0.0
  {
    var (a, b) := (AnsweredRows(p, answers, 0, mid), AnsweredRows(p, answers, mid, hi));
    AnsweredSplit(p, answers, 0, mid, hi);
    SummarizeConcat(a, b);
    AbsoluteConcat(AffectedRows(a), AffectedRows(b));
  }

  ghost function EndOfTiles(p: Setup, n: nat): (end: nat)
    requires p.Valid()
    ensures end <= |p.snapshot|
  {
    Min(TileStart(n, p.batchSize), p.rowsInScope)
  }

  lemma TileEnds(p: Setup, n: nat)
    requires p.Valid() && n < p.Count()
    ensures EndOfTiles(p, n) == TileStart(n, p.batchSize) <= EndOfTiles(p, n + 1)
    ensures EndOfTiles(p, n + 1) == TileEnd(n, p.batchSize, p.rowsInScope)
  {
    TileBounds(p.rowsInScope, p.batchSize, n);
  }

  ghost function AnsweredUpTo(p: Setup, answers: Answers, n: nat): Money
    requires p.Valid()
  {
    AbsoluteOf(AnsweredRows(p, answers, 0, EndOfTiles(p, n)))
  }

  lemma TileBelowAnswers(p: Setup, answers: Answers, rows: Rows, lo: nat, hi: nat)
    requires OnTrack(p, answers, rows) && Covers(rows, lo, hi) && hi <= |p.snapshot|
    ensures AbsoluteOf(AnsweredRows(p, answers, 0, lo)) + AbsoluteOf(rows) <= AbsoluteOf(AnsweredRows(p, answers, 0, hi))
  {
    AnsweredExposure(p, answers, lo, hi);
    OnTrackKeeps(p, answers, rows, lo, hi);
    AbsoluteKept(rows, AnsweredRows(p, answers, lo, hi));
  }

  /** What one more batch adds to the ledger is within what its rows add to the answers. */
  lemma BatchBelowAnswers(p: Setup, answers: Answers, w: World, n: nat)
    requires p.Valid() && Inv(p, w) && WorldOnTrack(p, answers, w) && n < p.Count()
    ensures AnsweredUpTo(p, answers, n) + (if n in w.ledger then AbsoluteOf(w.ledger[n]) else 0.0)
         <= AnsweredUpTo(p, answers, n + 1)
  {
    TileEnds(p, n);
    if n in w.ledger {
      assert Sound(p, n, w.store.batches[n], w.ledger[n]);
      TileBelowAnswers(p, answers, w.ledger[n], EndOfTiles(p, n), EndOfTiles(p, n + 1));
    } else {
      AnsweredExposure(p, answers, EndOfTiles(p, n), EndOfTiles(p, n + 1));
    }
  }

  lemma {:induction false} LedgerBelowScan(p: Setup, answers: Answers, w: World, n: nat)
    requires p.Valid() && Inv(p, w) && WorldOnTrack(p, answers, w) && n <= p.Count()
    ensures LedgerExposure(w.ledger, n) <= AnsweredUpTo(p, answers, n)
  {
    if n > 0 {
      LedgerBelowScan(p, answers, w, n - 1);
      BatchBelowAnswers(p, answers, w, n - 1);
    }
  }

  /** At any point of such a run the reported absolute exposure is at most that of the full scan. */
  lemma PartialScanIsLowerBound(p: Setup, now: Time, steps: seq<Step>, answers: Answers, job: ImpactJob)
    requires p.Valid() && AllConsistent(steps, answers)
    ensures var w := Run(p, Init(p, now), steps);
            AggregateOf(job, ListOf(w.store.batches, p.Count())).exposure.absolute
            <= AbsoluteSum(SequentialScan(p, answers, p.rowsInScope).affected)
  {
    var w := Run(p, Init(p, now), steps);
    RunSound(p, Init(p, now), steps);
    RunOnTrack(p, answers, Init(p, now), steps);
    AggregateExposure(p, w, job);
    LedgerBelowScan(p, answers, w, p.Count());
    TilesFit(p.rowsInScope, p.batchSize, p.Count());
    ScanSummarizes(p, answers, p.rowsInScope);
  }
}
