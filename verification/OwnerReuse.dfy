/** Why evidence needs fresh owners: a redelivery that reuses its owner can
    overwrite what a later attempt found. */
module OwnerReuse {
  import opened ImpactModels
  import opened ImpactStore
  import opened RowOutcomes
  import opened Processor
  import opened Planning
  import opened Aggregation
  import opened Protocol
  import opened Evidence
  import RowPartition

  const TWO_ROWS := Setup([Policy(true, Premium(1.0)), Policy(true, Premium(1.0))], 2, 2, 0.0, 1, 3)

  function Failed(code: string): RemoteOutcome { RemoteError(code, true) }

  function OneMismatch(code: string): map<nat, RemoteOutcome> { map[0 := Candidate(3.0), 1 := Failed(code)] }

  function AllFailed(code: string): map<nat, RemoteOutcome> { map[0 := Failed(code), 1 := Failed(code)] }

  function Found(code: string): Rows {
    [RowEntry(0, Affected(Quote(1.0, 3.0))), RowEntry(1, Inconclusive(Problem(code, true)))]
  }

  function LeasedRecord(owner: Owner, attempts: nat, at: Time): BatchRecord {
    FreshBatch(0, 0, 2, 0).(state := Leased, attempts := attempts, leaseOwner := Some(owner),
                            leaseExpires := Some(at + 1), updatedAt := at)
  }

  /** One batch of two rows that nobody has priced yet. */
  ghost predicate Unpriced(w: World, b: BatchRecord) {
    && w.store == Checkpoint(Some(PlannedJob(TWO_ROWS)), map[0 := b])
    && w.ledger == map[0 := UnpricedRows(0, 2)]
  }

  lemma Created() returns (w: World)
    ensures w == Apply(TWO_ROWS, Init(TWO_ROWS, 0), CreateBatches)
    ensures Unpriced(w, FreshBatch(0, 0, 2, 0)) && w.now == 0 && w.tasks == map[]
  {
    w := AfterCreate(TWO_ROWS, Init(TWO_ROWS, 0));
    assert TWO_ROWS.Count() == 1;
    var specs := Specs(2, 2, 1);
    assert specs[..0] == [] && specs[0] == BatchSpec(0, 0, 2);
    assert w.store.batches == map[0 := FreshBatch(0, 0, 2, 0)];
    assert w.ledger.Keys == {0} && w.ledger[0] == UnpricedRows(0, 2);
  }

  /** The first delivery stalls past its lease; a redelivery with the same owner takes over. */
  function Takeover(owner: Owner): seq<Step> {
    [CreateBatches, Deliver(0, 0, owner), Tick(1), Deliver(1, 0, owner)]
  }

  lemma RunFour(p: Setup, w: World, a: Step, b: Step, c: Step, d: Step)
    requires p.Valid()
    ensures Run(p, w, [a, b, c, d]) == Apply(p, Apply(p, Apply(p, Apply(p, w, a), b), c), d)
  {
    assert [] + [a] == [a] && [a] + [b] == [a, b] && [a, b] + [c] == [a, b, c] && [a, b, c] + [d] == [a, b, c, d];
    RunSnoc(p, w, [], a);
    RunSnoc(p, w, [a], b);
    RunSnoc(p, w, [a, b], c);
    RunSnoc(p, w, [a, b, c], d);
  }

  lemma LeasedOnce(w: World, owner: Owner)
    requires Unpriced(w, FreshBatch(0, 0, 2, 0)) && w.now == 0 && w.tasks == map[]
    ensures var after := Apply(TWO_ROWS, w, Deliver(0, 0, owner));
            && Unpriced(after, LeasedRecord(owner, 1, 0)) && after.now == 0
            && after.tasks == map[0 := Task(owner, 0, LeasedRecord(owner, 1, 0), UnpricedRows(0, 2))]
  {
    assert Apply(TWO_ROWS, w, Deliver(0, 0, owner)) == AfterDeliver(TWO_ROWS, w, 0, 0, owner);
  }

  lemma LeaseTaken(w: World, owner: Owner)
    requires Unpriced(w, LeasedRecord(owner, 1, 0)) && w.now == 1
    requires w.tasks == map[0 := Task(owner, 0, LeasedRecord(owner, 1, 0), UnpricedRows(0, 2))]
    ensures var after := Apply(TWO_ROWS, w, Deliver(1, 0, owner));
            && Unpriced(after, LeasedRecord(owner, 2, 1)) && after.now == 1
            && after.tasks == w.tasks[1 := Task(owner, 0, LeasedRecord(owner, 2, 1), UnpricedRows(0, 2))]
  {
    assert Apply(TWO_ROWS, w, Deliver(1, 0, owner)) == AfterDeliver(TWO_ROWS, w, 1, 0, owner);
  }

  lemma LeasedTwice(owner: Owner) returns (w: World)
    ensures w == Run(TWO_ROWS, Init(TWO_ROWS, 0), Takeover(owner))
    ensures Unpriced(w, LeasedRecord(owner, 2, 1)) && w.now == 1
    ensures w.tasks == map[0 := Task(owner, 0, LeasedRecord(owner, 1, 0), UnpricedRows(0, 2)),
                           1 := Task(owner, 0, LeasedRecord(owner, 2, 1), UnpricedRows(0, 2))]
  {
    var w1 := Created();
    LeasedOnce(w1, owner);
    var w3 := Apply(TWO_ROWS, Apply(TWO_ROWS, w1, Deliver(0, 0, owner)), Tick(1));
    LeaseTaken(w3, owner);
    w := Apply(TWO_ROWS, w3, Deliver(1, 0, owner));
    RunFour(TWO_ROWS, Init(TWO_ROWS, 0), CreateBatches, Deliver(0, 0, owner), Tick(1), Deliver(1, 0, owner));
  }

  /** Any replies for both rows answer an unpriced slice, and decide both rows. */
  lemma UnpricedAnswered(replies: map<nat, RemoteOutcome>, b: BatchRecord)
    requires 0 in replies && 1 in replies && b.rowStart == 0 && b.rowEnd == 2 && b.completedAt == None
    ensures Answerable(TWO_ROWS.snapshot, replies, Indexes(b))
    ensures Answerable(TWO_ROWS.snapshot, replies, TransientIndexes(UnpricedRows(0, 2)))
    ensures var r := Merged(TWO_ROWS.snapshot, replies, TWO_ROWS.tolerance, UnpricedRows(0, 2));
            r == [RowEntry(0, Compare(1.0, replies[0], 0.0)), RowEntry(1, Compare(1.0, replies[1], 0.0))]
  {
    UnpricedFacts(0, 2);
    assert Range(0, 2) == [0, 1];
    UnpricedTransient(0, 2, 0);
    UnpricedTransient(0, 2, 1);
    MergedRow(TWO_ROWS.snapshot, replies, TWO_ROWS.tolerance, UnpricedRows(0, 2), 0);
    MergedRow(TWO_ROWS.snapshot, replies, TWO_ROWS.tolerance, UnpricedRows(0, 2), 1);
  }

  /** A holder that leased the unpriced record writes what its replies decide. */
  lemma UnpricedWrite(w: World, task: nat, replies: map<nat, RemoteOutcome>)
    requires 0 in replies && 1 in replies && task in w.tasks && w.tasks[task].no == 0
    requires w.tasks[task].rows == UnpricedRows(0, 2) && HoldsLease(w.store, 0, w.tasks[task].owner)
    requires var b := w.tasks[task].held; b.rowStart == 0 && b.rowEnd == 2 && b.completedAt == None
    ensures CanWrite(TWO_ROWS, w, task, replies)
    ensures var after := AfterWrite(TWO_ROWS, w, task, replies);
            && Released(w, after, task) && after.tasks == w.tasks - {task} && after.store.job == w.store.job
            && after.ledger[0] == [RowEntry(0, Compare(1.0, replies[0], 0.0)), RowEntry(1, Compare(1.0, replies[1], 0.0))]
  {
    UnpricedAnswered(replies, w.tasks[task].held);
    WriteShape(TWO_ROWS, w, task, replies);
  }

  lemma FoundIsIncomplete(w: World, code: string)
    requires Inv(TWO_ROWS, w) && 0 in w.store.batches && w.ledger[0] == Found(code)
    ensures w.store.batches[0].state != Done
  {
    assert Sound(TWO_ROWS, 0, w.store.batches[0], w.ledger[0]);
    RowPartition.TransientIsListed(w.store.batches[0], w.ledger[0]);
    assert Transient(w.ledger[0][1]);
  }

  lemma FirstFound(w: World, owner: Owner, code: string)
    requires Inv(TWO_ROWS, w) && Unpriced(w, LeasedRecord(owner, 2, 1)) && 1 in w.tasks
    requires w.tasks[1] == Task(owner, 0, LeasedRecord(owner, 2, 1), UnpricedRows(0, 2))
    ensures CanWrite(TWO_ROWS, w, 1, OneMismatch(code))
    ensures var after := AfterWrite(TWO_ROWS, w, 1, OneMismatch(code));
            && after.tasks == w.tasks - {1} && after.store.job == w.store.job
            && 0 in after.store.batches && 0 in after.ledger && after.ledger[0] == Found(code)
            && after.store.batches[0].attempts == 2 && after.store.batches[0].state == Incomplete
  {
    UnpricedWrite(w, 1, OneMismatch(code));
    WriteStepSound(TWO_ROWS, w, 1, OneMismatch(code));
    FoundIsIncomplete(AfterWrite(TWO_ROWS, w, 1, OneMismatch(code)), code);
  }

  lemma AlwaysSound(steps: seq<Step>)
    ensures Inv(TWO_ROWS, Run(TWO_ROWS, Init(TWO_ROWS, 0), steps))
  {
    RowPartition.InitSound(TWO_ROWS, 0);
    RunSound(TWO_ROWS, Init(TWO_ROWS, 0), steps);
  }

  lemma RunWrite(p: Setup, w: World, steps: seq<Step>, task: nat, replies: map<nat, RemoteOutcome>)
    requires p.Valid() && CanWrite(p, Run(p, w, steps), task, replies)
    ensures Run(p, w, steps + [Write(task, replies)]) == AfterWrite(p, Run(p, w, steps), task, replies)
  {
    RunSnoc(p, w, steps, Write(task, replies));
  }

  lemma RunDeliver(p: Setup, w: World, steps: seq<Step>, task: nat, no: nat, owner: Owner)
    requires p.Valid()
    ensures Run(p, w, steps + [Deliver(task, no, owner)]) == AfterDeliver(p, Run(p, w, steps), task, no, owner)
  {
    RunSnoc(p, w, steps, Deliver(task, no, owner));
  }

  /** The redelivery finds a mismatch; its other row still needs another attempt. */
  lemma MismatchWritten(owner: Owner, code: string) returns (w: World)
    ensures w == Run(TWO_ROWS, Init(TWO_ROWS, 0), Takeover(owner) + [Write(1, OneMismatch(code))])
    ensures 2 !in w.tasks && 0 in w.tasks && w.tasks[0] == Task(owner, 0, LeasedRecord(owner, 1, 0), UnpricedRows(0, 2))
    ensures w.store.job == Some(PlannedJob(TWO_ROWS)) && 0 in w.store.batches && 0 in w.ledger
    ensures w.store.batches[0].attempts == 2 && w.store.batches[0].state == Incomplete && w.ledger[0] == Found(code)
  {
    var w4 := LeasedTwice(owner);
    AlwaysSound(Takeover(owner));
    FirstFound(w4, owner, code);
    w := AfterWrite(TWO_ROWS, w4, 1, OneMismatch(code));
    RunWrite(TWO_ROWS, Init(TWO_ROWS, 0), Takeover(owner), 1, OneMismatch(code));
  }

  lemma LeasedAgain(w: World, owner: Owner)
    requires w.store.job == Some(PlannedJob(TWO_ROWS)) && 0 in w.store.batches && 0 in w.ledger && 2 !in w.tasks
    requires w.store.batches[0].attempts == 2 && w.store.batches[0].state == Incomplete
    ensures var after := AfterDeliver(TWO_ROWS, w, 2, 0, owner);
            && after.ledger == w.ledger && HoldsLease(after.store, 0, owner)
            && forall t | t in w.tasks :: t in after.tasks && after.tasks[t] == w.tasks[t]
  {
  }

  /** The redelivery's mismatch is on record and a third lease has just been granted. */
  function Steps(owner: Owner, code: string): seq<Step> {
    Takeover(owner) + [Write(1, OneMismatch(code))] + [Deliver(2, 0, owner)]
  }

  lemma MismatchRecorded(owner: Owner, code: string) returns (w: World)
    ensures w == Run(TWO_ROWS, Init(TWO_ROWS, 0), Steps(owner, code))
    ensures 0 in w.tasks && w.tasks[0] == Task(owner, 0, LeasedRecord(owner, 1, 0), UnpricedRows(0, 2))
    ensures HoldsLease(w.store, 0, owner) && 0 in w.ledger && w.ledger[0] == Found(code)
  {
    var w5 := MismatchWritten(owner, code);
    LeasedAgain(w5, owner);
    w := AfterDeliver(TWO_ROWS, w5, 2, 0, owner);
    RunDeliver(TWO_ROWS, Init(TWO_ROWS, 0), Takeover(owner) + [Write(1, OneMismatch(code))], 2, 0, owner);
  }

  lemma StaleWrite(w: World, owner: Owner, code: string)
    requires 0 in w.tasks && w.tasks[0] == Task(owner, 0, LeasedRecord(owner, 1, 0), UnpricedRows(0, 2))
    requires HoldsLease(w.store, 0, owner) && 0 in w.ledger && w.ledger[0] == Found(code)
    ensures CanWrite(TWO_ROWS, w, 0, AllFailed(code))
    ensures var after := AfterWrite(TWO_ROWS, w, 0, AllFailed(code));
            && after.writes == w.writes + 1 && !Grows(w, after)
            && LedgerExposure(w.ledger, 1) == 2.0 && LedgerExposure(after.ledger, 1) == 0.0
  {
    UnpricedWrite(w, 0, AllFailed(code));
    var after := AfterWrite(TWO_ROWS, w, 0, AllFailed(code));
    assert !Keeps(w.ledger[0], after.ledger[0]) by { assert !Transient(w.ledger[0][0]); }
    ExposureOfTwo(w.ledger[0]);
    ExposureOfTwo(after.ledger[0]);
  }

  /** Evidence is not monotone when an owner is reused: the stalled first
      delivery's completion is accepted, and the recorded mismatch is forgotten. */
  lemma ReusedOwnerLosesEvidence(owner: Owner, code: string)
    ensures var w := Run(TWO_ROWS, Init(TWO_ROWS, 0), Steps(owner, code));
            && Inv(TWO_ROWS, w)
            && CanWrite(TWO_ROWS, w, 0, AllFailed(code))
            && var after := AfterWrite(TWO_ROWS, w, 0, AllFailed(code));
               after.writes == w.writes + 1 && !Grows(w, after)
               && LedgerExposure(w.ledger, 1) == 2.0 && LedgerExposure(after.ledger, 1) == 0.0
  {
    var w := MismatchRecorded(owner, code);
    AlwaysSound(Steps(owner, code));
    StaleWrite(w, owner, code);
  }

  lemma ExposureOfTwo(rows: Rows)
    requires |rows| == 2
    ensures AbsoluteOf(rows) == ExposureOfRow(rows[0]) + ExposureOfRow(rows[1])
  {
    assert rows == [rows[0]] + [rows[1]];
    assert [rows[0]][..0] == [] && [rows[1]][..0] == [];
    SummarizeConcat([rows[0]], [rows[1]]);
    AbsoluteConcat(AffectedRows([rows[0]]), AffectedRows([rows[1]]));
    ExposureOfOne(rows[0]);
    ExposureOfOne(rows[1]);
  }

  function ExposureOfRow(row: RowEntry<RowOutcome>): Money {
    if row.detail.Affected? then Abs(Delta(row.detail.quote)) else 0.0
  }

  lemma ExposureOfOne(row: RowEntry<RowOutcome>)
    ensures AbsoluteOf([row]) == ExposureOfRow(row)
  {
    assert [row][..0] == [];
    if row.detail.Affected? {
      var e := RowEntry(row.index, row.detail.quote);
      assert AffectedRows([row]) == AffectedRows([row][..0]) + [e] == [e];
      assert AbsoluteSum([e]) == AbsoluteSum([e][..0]) + Abs(Delta(e.detail));
    }
  }
}
