/** The reasons a coordinator leaves on record, and which of them the verdict
    sees: each coordinator overwrites what the one before it wrote. */
module Reasons {
  import opened ImpactModels
  import opened ImpactStore
  import opened RowOutcomes
  import opened Processor
  import opened Planning
  import opened Aggregation
  import opened Coordinator
  import opened Protocol
  import opened Fencing
  import opened Release
  import RowPartition

  predicate CarriesReason(note: Verdicts) {
    note.budgets != [] || (note.halt.Some? && note.halt.value != "")
  }

  /** What the last coordinator to leave its loop wrote, if any has. */
  function LastNote(steps: seq<Step>): Verdicts {
    if steps == [] then Verdicts([], None)
    else if steps[|steps| - 1].Annotate? then Verdicts(steps[|steps| - 1].budgets, steps[|steps| - 1].halt)
    else LastNote(steps[..|steps| - 1])
  }

  predicate CancelAsked(steps: seq<Step>) {
    steps != [] && (steps[|steps| - 1].Cancel? || CancelAsked(steps[..|steps| - 1]))
  }

  /** The notes and the cancel flag a reader of the job would find. */
  ghost predicate OnRecord(w: World, note: Verdicts, cancelled: bool) {
    && w.store.job.Some?
    && w.store.job.value.budgetExhausted == note.budgets && w.store.job.value.haltReason == note.halt
    && w.store.job.value.cancelRequested == cancelled
  }

  ghost predicate SameRecord(w: World, after: World) {
    w.store.job.Some? && OnRecord(after, Verdicts(w.store.job.value.budgetExhausted, w.store.job.value.haltReason),
                                  w.store.job.value.cancelRequested)
  }

  lemma WorkersKeepRecord(p: Setup, w: World, step: Step)
    requires p.Valid() && w.store.job.Some? && (step.Deliver? || step.Write? || step.Crash? || step.CreateBatches?)
    ensures SameRecord(w, Apply(p, w, step))
  {
    match step
    case Deliver(task, no, owner) => assert AfterDeliver(p, w, task, no, owner).store.job == w.store.job;
    case Write(task, replies) => if CanWrite(p, w, task, replies) { WriteShape(p, w, task, replies); }
    case _ =>
  }

  lemma FinalizedKeepsRecord(w: World, c: nat, agg: ImpactAggregate)
    requires w.store.job.Some?
    ensures SameRecord(w, Finalized(w, c, agg))
  {
  }

  lemma OthersKeepRecord(p: Setup, w: World, step: Step)
    requires p.Valid() && w.store.job.Some? && !step.Annotate? && !step.Cancel?
    ensures SameRecord(w, Apply(p, w, step))
  {
    match step
    case Finish(c) =>
      if c in w.readings && w.readings[c].BatchesRead? {
        FinalizedKeepsRecord(w, c, AggregateOf(w.readings[c].job, w.readings[c].list));
      }
    case ReadJob(c) => assert AfterReadJob(w, c).store == w.store;
    case ReadBatches(c) => assert AfterReadBatches(w, c).store == w.store;
    case Die(task) =>
    case Tick(elapsed) =>
    case _ => WorkersKeepRecord(p, w, step);
  }

  lemma {:induction false} NoteOnRecord(p: Setup, now: Time, steps: seq<Step>)
    requires p.Valid()
    ensures OnRecord(Run(p, Init(p, now), steps), LastNote(steps), CancelAsked(steps))
  {
    if steps != [] {
      var (before, step) := (steps[..|steps| - 1], steps[|steps| - 1]);
      NoteOnRecord(p, now, before);
      if !step.Annotate? && !step.Cancel? {
        OthersKeepRecord(p, Run(p, Init(p, now), before), step);
      }
    }
  }

  // ---- A coordinator finalizes with the job as it read it -----------------------------------

  /** It may start finalizing: it has not begun, and no verdict is stored. */
  ghost predicate MayRead(w: World, c: nat) {
    c !in w.readings && c !in w.returned && w.store.job.Some? && w.store.job.value.finalizedAt.None?
  }

  /** Its reading is of this job, or it has already answered. */
  ghost predicate HasRead(w: World, c: nat, job: ImpactJob) {
    if c in w.readings then w.readings[c].job == job else c in w.returned
  }

  lemma CoordinatorsKeepReading(w: World, c: nat, job: ImpactJob, d: nat)
    requires HasRead(w, c, job)
    ensures HasRead(AfterReadJob(w, d), c, job) && HasRead(AfterReadBatches(w, d), c, job)
    ensures HasRead(AfterFinish(w, d), c, job)
  {
    if d in w.readings && w.readings[d].BatchesRead? {
      FinalizedKeepsReading(w, c, job, d, AggregateOf(w.readings[d].job, w.readings[d].list));
    }
  }

  lemma FinalizedKeepsReading(w: World, c: nat, job: ImpactJob, d: nat, agg: ImpactAggregate)
    requires HasRead(w, c, job)
    ensures HasRead(Finalized(w, d, agg), c, job)
  {
  }

  lemma StepKeepsReading(p: Setup, w: World, c: nat, job: ImpactJob, step: Step)
    requires p.Valid() && w.store.job.Some? && HasRead(w, c, job)
    ensures HasRead(Apply(p, w, step), c, job)
  {
    match step
    case ReadJob(d) => CoordinatorsKeepReading(w, c, job, d);
    case ReadBatches(d) => CoordinatorsKeepReading(w, c, job, d);
    case Finish(d) => CoordinatorsKeepReading(w, c, job, d);
    case _ => OutsideCoordinators(p, w, step);
  }

  lemma {:induction false} RunKeepsReading(p: Setup, w: World, c: nat, job: ImpactJob, steps: seq<Step>)
    requires p.Valid() && Inv(p, w) && HasRead(w, c, job)
    ensures HasRead(Run(p, w, steps), c, job)
  {
    if steps != [] {
      RunKeepsReading(p, w, c, job, steps[..|steps| - 1]);
      RunSound(p, w, steps[..|steps| - 1]);
      StepKeepsReading(p, Run(p, w, steps[..|steps| - 1]), c, job, steps[|steps| - 1]);
    }
  }

  /** After `before`, coordinator `c` reads the job; then `middle` happens. */
  ghost function Later(p: Setup, now: Time, before: seq<Step>, c: nat, middle: seq<Step>): World
    requires p.Valid()
  {
    Run(p, AfterReadJob(Run(p, Init(p, now), before), c), middle)
  }

  lemma LaterReads(p: Setup, now: Time, before: seq<Step>, c: nat, middle: seq<Step>)
    requires p.Valid() && MayRead(Run(p, Init(p, now), before), c)
    ensures var (w, later) := (Run(p, Init(p, now), before), Later(p, now, before, c, middle));
            w.store.job.Some? && Inv(p, w) && Inv(p, later) && HasRead(later, c, w.store.job.value)
  {
    var w := Run(p, Init(p, now), before);
    RunSound(p, Init(p, now), before);
    StepSound(p, w, ReadJob(c));
    RunSound(p, AfterReadJob(w, c), middle);
    RunKeepsReading(p, AfterReadJob(w, c), c, w.store.job.value, middle);
  }

  lemma ReasonRulesOutPass(job: ImpactJob, batches: seq<BatchRecord>)
    requires job.cancelRequested || job.budgetExhausted != [] || Halts(job)
    ensures AggregateOf(job, batches).decision != PassEligible
  {
    if job.cancelRequested {
      CancelledNeverPasses(job, batches);
    } else {
      BudgetsAsReasons(job.budgetExhausted);
    }
  }

  /** A cancel request, or a reason in the last note, that is on record when a
      coordinator reads the job rules out PASS_ELIGIBLE for the verdict it then
      computes, whatever happens meanwhile and however late it lists the batches. */
  lemma ReasonReadRulesOutPass(p: Setup, now: Time, before: seq<Step>, c: nat, middle: seq<Step>)
    requires p.Valid() && MayRead(Run(p, Init(p, now), before), c)
    requires CarriesReason(LastNote(before)) || CancelAsked(before)
    requires var w := Later(p, now, before, c, middle); c in w.readings && w.readings[c].BatchesRead?
    ensures var r := Later(p, now, before, c, middle).readings[c];
            AggregateOf(r.job, r.list).decision != PassEligible
  {
    NoteOnRecord(p, now, before);
    LaterReads(p, now, before, c, middle);
    var r := Later(p, now, before, c, middle).readings[c];
    ReasonRulesOutPass(r.job, r.list);
  }

  /** Exactly: a coordinator that goes on to list the batches and store its
      verdict answers PASS_ELIGIBLE if and only if no cancel request and no
      reason was on record when it read the job, and every row is cleared when it lists. */
  lemma PassesByLastNote(p: Setup, now: Time, before: seq<Step>, c: nat, middle: seq<Step>)
    requires p.Valid() && MayRead(Run(p, Init(p, now), before), c)
    requires var w := Later(p, now, before, c, middle);
             && c in w.readings && w.readings[c].JobRead?
             && w.store.job.Some? && w.store.job.value.finalizedAt.None?
    ensures var w := Later(p, now, before, c, middle);
            var after := AfterFinish(AfterReadBatches(w, c), c);
            && c in after.returned
            && (after.returned[c].decision == PassEligible
                <==> !CarriesReason(LastNote(before)) && !CancelAsked(before) && AllCleared(p, w))
  {
    var (w0, w) := (Run(p, Init(p, now), before), Later(p, now, before, c, middle));
    NoteOnRecord(p, now, before);
    LaterReads(p, now, before, c, middle);
    var job := w0.store.job.value;
    PassExactlyWhenCleared(p, w, job);
    FinishesWith(p, w, c, job);
  }

  lemma FinishesWith(p: Setup, w: World, c: nat, job: ImpactJob)
    requires p.Valid() && c in w.readings && w.readings[c] == JobRead(job) && job.batchCount == p.Count()
    requires w.store.job.Some? && w.store.job.value.finalizedAt.None?
    ensures var after := AfterFinish(AfterReadBatches(w, c), c);
            c in after.returned && after.returned[c] == AggregateOf(job, ListOf(w.store.batches, p.Count()))
  {
    var read := AfterReadBatches(w, c);
    assert read.readings[c] == BatchesRead(job, ListOf(w.store.batches, p.Count()));
    FinalizedFirst(read, c, AggregateOf(job, ListOf(w.store.batches, p.Count())));
  }

  lemma FinalizedFirst(w: World, c: nat, agg: ImpactAggregate)
    requires w.store.job.Some? && w.store.job.value.finalizedAt.None?
    ensures c in Finalized(w, c, agg).returned && Finalized(w, c, agg).returned[c] == agg
  {
  }

  // ---- So a reason can be lost -----------------------------------------------------------------

  ghost function Noted(steps: seq<Step>, note: Verdicts): seq<Step> { steps + [Annotate(note.budgets, note.halt)] }

  lemma NotesOverwrite(steps: seq<Step>, first: Verdicts, second: Verdicts)
    ensures LastNote(Noted(steps, first)) == first && LastNote(Noted(Noted(steps, first), second)) == second
    ensures CancelAsked(Noted(Noted(steps, first), second)) == CancelAsked(steps)
  {
    var one := Noted(steps, first);
    assert one[..|one| - 1] == steps;
    assert Noted(one, second)[..|one|] == one;
  }

  /** A portfolio of one batch in which every policy has a premium, all of it in scope. */
  ghost predicate OneBatch(p: Setup) {
    && p.Valid() && 0 < |p.snapshot| <= p.batchSize && p.rowsInScope == |p.snapshot|
    && p.leaseTime > 0 && p.maxAttempts > 0
    && forall i | 0 <= i < |p.snapshot| :: p.snapshot[i].productMatches && p.snapshot[i].calculation.Premium?
  }

  /** A connector that agrees with every premium. */
  ghost function Agreed(p: Setup): map<nat, RemoteOutcome>
    requires OneBatch(p)
  {
    map i: nat | i < |p.snapshot| :: Candidate(p.snapshot[i].calculation.amount)
  }

  /** The batch as leased, for its first attempt, at time `at`. */
  function FirstLease(p: Setup, owner: Owner, at: Time): BatchRecord {
    FreshBatch(0, 0, |p.snapshot|, 0).(state := Leased, attempts := 1, leaseOwner := Some(owner),
                                       leaseExpires := Some(at + p.leaseTime), updatedAt := at)
  }

  /** Nobody has begun to finalize, and the job is as planned, notes aside. */
  ghost predicate Unfinished(p: Setup, w: World)
    requires p.Valid()
  {
    && w.store.job.Some? && w.readings == map[] && w.returned == map[]
    && var job := w.store.job.value;
       job == PlannedJob(p).(budgetExhausted := job.budgetExhausted, haltReason := job.haltReason)
  }

  ghost predicate Unread(p: Setup, w: World)
    requires p.Valid()
  {
    w.store.job == Some(PlannedJob(p)) && w.readings == map[] && w.returned == map[]
  }

  lemma OneTile(p: Setup)
    requires OneBatch(p)
    ensures p.Count() == 1 && TileStart(0, p.batchSize) == 0 && TileEnd(0, p.batchSize, p.rowsInScope) == |p.snapshot|
    ensures forall i: nat | i < |p.snapshot| :: i / p.batchSize == 0
  {
    TilesFit(p.rowsInScope, p.batchSize, 0);
    TilesFit(p.rowsInScope, p.batchSize, 1);
  }

  /** The batch is leased only when `at` time units have passed. */
  ghost function LeasedLate(owner: Owner, at: nat): seq<Step> {
    [CreateBatches] + [Tick(at)] + [Deliver(0, 0, owner)]
  }

  lemma LeasedLateWorld(p: Setup, owner: Owner, at: nat)
    requires OneBatch(p)
    ensures var (w, b) := (Run(p, Init(p, 0), LeasedLate(owner, at)), FirstLease(p, owner, at));
            && Unread(p, w) && w.now == at && 0 in w.store.batches && w.store.batches[0] == b && 0 in w.ledger
            && w.tasks == map[0 := Task(owner, 0, b, UnpricedRows(0, |p.snapshot|))]
  {
    OneTile(p);
    FirstCreation(p, 0);
    var w := Apply(p, Init(p, 0), CreateBatches);
    assert [] + [CreateBatches] == [CreateBatches];
    RunSnoc(p, Init(p, 0), [], CreateBatches);
    RunSnoc(p, Init(p, 0), [CreateBatches], Tick(at));
    RunSnoc(p, Init(p, 0), [CreateBatches] + [Tick(at)], Deliver(0, 0, owner));
    LeasedAt(p, w.(now := at), owner, at);
  }

  lemma LeasedAt(p: Setup, w: World, owner: Owner, at: Time)
    requires OneBatch(p) && Unread(p, w) && w.now == at && w.tasks == map[]
    requires 0 in w.store.batches && w.store.batches[0] == FreshBatch(0, 0, |p.snapshot|, 0)
    requires 0 in w.ledger && w.ledger[0] == UnpricedRows(0, |p.snapshot|)
    ensures var (after, b) := (AfterDeliver(p, w, 0, 0, owner), FirstLease(p, owner, at));
            && Unread(p, after) && after.now == at && 0 in after.ledger
            && 0 in after.store.batches && after.store.batches[0] == b
            && after.tasks == map[0 := Task(owner, 0, b, UnpricedRows(0, |p.snapshot|))]
  {
  }

  lemma {:induction false} RangeBelow(n: nat)
    ensures forall k | 0 <= k < |Range(0, n)| :: Range(0, n)[k] < n
  {
    if n > 0 {
      RangeBelow(n - 1);
    }
  }

  /** What an attempt at the unpriced batch finds when the connector agrees. */
  lemma AgreedRows(p: Setup, b: BatchRecord)
    requires OneBatch(p) && b.rowStart == 0 && b.rowEnd == |p.snapshot| && b.completedAt == None
    ensures Answerable(p.snapshot, Agreed(p), Indexes(b))
    ensures Answerable(p.snapshot, Agreed(p), TransientIndexes(UnpricedRows(0, |p.snapshot|)))
    ensures forall i: nat | i < |p.snapshot| ::
              Agrees(p, Merged(p.snapshot, Agreed(p), p.tolerance, UnpricedRows(0, |p.snapshot|)), i)
  {
    var rows := UnpricedRows(0, |p.snapshot|);
    UnpricedFacts(0, |p.snapshot|);
    RangeBelow(|p.snapshot|);
    forall i: nat | i < |p.snapshot| ensures Agrees(p, Merged(p.snapshot, Agreed(p), p.tolerance, rows), i) {
      UnpricedTransient(0, |p.snapshot|, i);
      MergedRow(p.snapshot, Agreed(p), p.tolerance, rows, i);
    }
  }

  /** Row `i` was compared and its premiums are equal. */
  ghost predicate Agrees(p: Setup, rows: Rows, i: nat)
    requires OneBatch(p)
  {
    && i < |rows| && i < |p.snapshot|
    && var premium := p.snapshot[i].calculation.amount; rows[i] == RowEntry(i, Matched(Quote(premium, premium)))
  }

  /** So the attempt leaves no row for another one. */
  lemma AgreedResult(p: Setup, b: BatchRecord)
    requires OneBatch(p) && b.rowStart == 0 && b.rowEnd == |p.snapshot| && b.completedAt == None
    requires Answerable(p.snapshot, Agreed(p), Indexes(b))
    ensures ResultState(ExecuteResult(p.snapshot, b, Agreed(p), p.tolerance)) == Done
  {
    var rows := UnpricedRows(0, |p.snapshot|);
    UnpricedFacts(0, |p.snapshot|);
    AgreedRows(p, b);
    ExecuteMerges(p.snapshot, b, rows, Agreed(p), p.tolerance);
    var merged := Merged(p.snapshot, Agreed(p), p.tolerance, rows);
    forall k: nat | k < |merged| ensures !Transient(merged[k]) {
      assert Agrees(p, merged, k);
    }
    RowPartition.TransientIsListed(b.(result := Summarize(merged)), merged);
  }

  lemma WriteFinishes(p: Setup, w: World, task: nat, replies: map<nat, RemoteOutcome>)
    requires p.Valid() && CanWrite(p, w, task, replies)
    requires var t := w.tasks[task]; t.no in w.ledger && HoldsLease(w.store, t.no, t.owner)
    requires ResultState(ExecuteResult(p.snapshot, w.tasks[task].held, replies, p.tolerance)) == Done
    ensures DoneIn(AfterWrite(p, w, task, replies), w.tasks[task].no)
  {
  }

  lemma AgreedWrite(p: Setup, w: World, owner: Owner, at: Time)
    requires OneBatch(p) && 0 in w.ledger && 0 in w.store.batches && w.store.batches[0] == FirstLease(p, owner, at)
    requires w.tasks == map[0 := Task(owner, 0, FirstLease(p, owner, at), UnpricedRows(0, |p.snapshot|))]
    ensures CanWrite(p, w, 0, Agreed(p))
    ensures var after := AfterWrite(p, w, 0, Agreed(p));
            && DoneIn(after, 0) && after.store.job == w.store.job
            && forall i: nat | i < |p.snapshot| :: Agrees(p, after.ledger[0], i)
  {
    AgreedRows(p, FirstLease(p, owner, at));
    AgreedResult(p, FirstLease(p, owner, at));
    WriteFinishes(p, w, 0, Agreed(p));
    WriteShape(p, w, 0, Agreed(p));
  }

  lemma AgreedIsCleared(p: Setup, w: World)
    requires OneBatch(p) && DoneIn(w, 0) && forall i: nat | i < |p.snapshot| :: Agrees(p, w.ledger[0], i)
    ensures AllCleared(p, w)
  {
    OneTile(p);
    forall i: nat | i < |p.snapshot| ensures Cleared(p, w, i) {
      assert Agrees(p, w.ledger[0], i);
    }
  }

  /** What a coordinator polling in this world observes. */
  ghost function Observed(w: World, n: nat): Poll {
    Poll(false, ListOf(w.store.batches, n), w.now, w.now, (no: nat) => true, (no: nat) => 0, (b: BatchRecord) => 1)
  }

  lemma LiveLeaseWaits(cfg: Config, poll: Poll, b: BatchRecord)
    requires !poll.cancelled && poll.list == [b] && LeaseLive(b, poll.wall)
    ensures Leave(cfg, poll, poll.clock) == Some(Deadline)
  {
    assert !Settled(poll.list[0], cfg.maxBatchAttempts, poll.wall);
    assert [b][..0] == [] && CountFailed([]) == 0 && !FailedForGood(b);
    assert CountFailed([b]) == 0;
  }

  lemma ListOfOne(batches: map<nat, BatchRecord>)
    requires 0 in batches
    ensures ListOf(batches, 1) == [batches[0]]
  {
    assert ListOf(batches, 0) == [];
  }

  lemma LeavesAtDeadline(w: World, cfg: Config)
    requires 0 in w.store.batches && LeaseLive(w.store.batches[0], w.now) && w.now == cfg.maxMission
    ensures Leave(cfg, Observed(w, 1), cfg.maxMission) == Some(Deadline)
  {
    ListOfOne(w.store.batches);
    LiveLeaseWaits(cfg, Observed(w, 1), w.store.batches[0]);
  }

  lemma LeavesFinished(w: World, cfg: Config, deadline: Time)
    requires 0 in w.store.batches && w.store.batches[0].state == Done
    ensures Leave(cfg, Observed(w, 1), deadline) == Some(Finished)
  {
    ListOfOne(w.store.batches);
  }

  /** The delivery completes the batch. */
  ghost function Completed(p: Setup, owner: Owner, at: nat): seq<Step>
    requires OneBatch(p)
  {
    LeasedLate(owner, at) + [Write(0, Agreed(p))]
  }

  lemma CompletedWorld(p: Setup, owner: Owner, at: nat)
    requires OneBatch(p)
    ensures var w := Run(p, Init(p, 0), Completed(p, owner, at));
            Unread(p, w) && DoneIn(w, 0) && AllCleared(p, w)
  {
    var w := Run(p, Init(p, 0), LeasedLate(owner, at));
    LeasedLateWorld(p, owner, at);
    AgreedWrite(p, w, owner, at);
    RunSnoc(p, Init(p, 0), LeasedLate(owner, at), Write(0, Agreed(p)));
    WriteUntouched(p, w, 0, Agreed(p));
    AgreedIsCleared(p, AfterWrite(p, w, 0, Agreed(p)));
  }

  lemma PollsGiveExits(p: Setup, owner: Owner, cfg: Config, deadline: Time)
    requires OneBatch(p)
    ensures Leave(cfg, Observed(Run(p, Init(p, 0), LeasedLate(owner, cfg.maxMission)), p.Count()), cfg.maxMission)
         == Some(Deadline)
    ensures Leave(cfg, Observed(Run(p, Init(p, 0), Completed(p, owner, cfg.maxMission)), p.Count()), deadline)
         == Some(Finished)
  {
    var (init, at) := (Init(p, 0), cfg.maxMission);
    OneTile(p);
    LeasedLateWorld(p, owner, at);
    LeavesAtDeadline(Run(p, init, LeasedLate(owner, at)), cfg);
    CompletedWorld(p, owner, at);
    LeavesFinished(Run(p, init, Completed(p, owner, at)), cfg, deadline);
  }

  lemma StillCleared(p: Setup, w: World, note: Verdicts)
    requires p.Valid() && Unfinished(p, w) && AllCleared(p, w)
    ensures var after := Apply(p, w, Annotate(note.budgets, note.halt)); Unfinished(p, after) && AllCleared(p, after)
  {
    SameBatchesCleared(p, w, Apply(p, w, Annotate(note.budgets, note.halt)));
  }

  lemma StillClearedWhenRead(p: Setup, w: World, c: nat)
    requires p.Valid() && Unfinished(p, w) && AllCleared(p, w)
    ensures var after := AfterReadJob(w, c);
            && MayRead(w, c) && AllCleared(p, after)
            && c in after.readings && after.readings[c].JobRead?
            && after.store.job.Some? && after.store.job.value.finalizedAt.None?
  {
    SameBatchesCleared(p, w, AfterReadJob(w, c));
  }

  /** Once the batch is complete, a coordinator whose note clears the record passes whatever was on it before. */
  lemma PassesAfterNotes(p: Setup, owner: Owner, at: nat, first: Verdicts, second: Verdicts, c: nat)
    requires OneBatch(p) && !CarriesReason(second)
    ensures var both := Noted(Noted(Completed(p, owner, at), first), second);
            && LastNote(Noted(Completed(p, owner, at), first)) == first && LastNote(both) == second
            && MayRead(Run(p, Init(p, 0), both), c)
            && var after := AfterFinish(AfterReadBatches(Later(p, 0, both, c, []), c), c);
               c in after.returned && after.returned[c].decision == PassEligible
  {
    var (init, done) := (Init(p, 0), Completed(p, owner, at));
    CompletedWorld(p, owner, at);
    StillCleared(p, Run(p, init, done), first);
    RunSnoc(p, init, done, Annotate(first.budgets, first.halt));
    StillCleared(p, Run(p, init, Noted(done, first)), second);
    RunSnoc(p, init, Noted(done, first), Annotate(second.budgets, second.halt));
    StillClearedWhenRead(p, Run(p, init, Noted(Noted(done, first), second)), c);
    NotesOverwrite(done, first, second);
    CompletedQuietly(p, owner, at);
    PassesByLastNote(p, 0, Noted(Noted(done, first), second), c, []);
  }

  lemma ExitNotes(p: Setup)
    requires OneBatch(p)
    ensures CarriesReason(Recorded(PlannedJob(p), Deadline)) && !CarriesReason(Recorded(PlannedJob(p), Finished))
  {
  }

  /** Two coordinators of one job. The first polls the batch while it is leased
      and leaves at its deadline; then the batch completes, and the second, which
      started at `started`, polls it and leaves as finished. The first records the
      exhausted budget, the second overwrites it, and the verdict is PASS_ELIGIBLE. */
  lemma RecordedReasonIsLost(p: Setup, owner: Owner, cfg: Config, started: Time, c: nat)
    requires OneBatch(p)
    ensures var (first, second) := (Recorded(PlannedJob(p), Deadline), Recorded(PlannedJob(p), Finished));
            var (leased, done) := (LeasedLate(owner, cfg.maxMission), Completed(p, owner, cfg.maxMission));
            var both := Noted(Noted(done, first), second);
            && Leave(cfg, Observed(Run(p, Init(p, 0), leased), p.Count()), cfg.maxMission) == Some(Deadline)
            && Leave(cfg, Observed(Run(p, Init(p, 0), done), p.Count()), started + cfg.maxMission) == Some(Finished)
            && CarriesReason(LastNote(Noted(done, first))) && !CarriesReason(LastNote(both))
            && MayRead(Run(p, Init(p, 0), both), c)
            && var after := AfterFinish(AfterReadBatches(Later(p, 0, both, c, []), c), c);
               c in after.returned && after.returned[c].decision == PassEligible
  {
    var (first, second) := (Recorded(PlannedJob(p), Deadline), Recorded(PlannedJob(p), Finished));
    ExitNotes(p);
    PollsGiveExits(p, owner, cfg, started + cfg.maxMission);
    PassesAfterNotes(p, owner, cfg.maxMission, first, second, c);
  }

  lemma CompletedQuietly(p: Setup, owner: Owner, at: nat)
    requires OneBatch(p)
    ensures !CancelAsked(Completed(p, owner, at))
  {
    AskedSnoc([], CreateBatches);
    AskedSnoc([CreateBatches], Tick(at));
    AskedSnoc([CreateBatches] + [Tick(at)], Deliver(0, 0, owner));
    AskedSnoc(LeasedLate(owner, at), Write(0, Agreed(p)));
    assert [] + [CreateBatches] == [CreateBatches];
  }

  lemma AskedSnoc(steps: seq<Step>, step: Step)
    ensures CancelAsked(steps + [step]) == (step.Cancel? || CancelAsked(steps))
  {
    assert (steps + [step])[..|steps|] == steps;
  }
}
