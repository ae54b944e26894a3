/** The impact scan as a state machine: deliveries lease batches, price them and
    write back, in any interleaving with crashes, expiry, duplicate delivery,
    cancellation and racing coordinators. Each step is one atomic store
    operation together with the local work around it. */
module Protocol {
  import opened ImpactModels
  import opened ImpactStore
  import opened RowOutcomes
  import opened Processor
  import opened Planning
  import opened Aggregation
  import opened Coordinator

  /** What a job fixes for good: the pinned portfolio, the slicing and the budgets. */
  datatype Setup = Setup(
    snapshot: seq<Policy>, rowsInScope: nat, batchSize: nat,
    tolerance: Money, leaseTime: nat, maxAttempts: nat)
  {
    predicate Valid() { batchSize > 0 && rowsInScope <= |snapshot| && tolerance >= 0.0 }

    function Count(): nat
      requires Valid()
    {
      BatchCount(rowsInScope, batchSize)
    }
  }

  /** A delivery that holds the copy of the record it leased; `rows` is what was
      known of its rows at that moment. */
  datatype Task = Task(owner: Owner, no: nat, held: BatchRecord, rows: Rows)

  /** A coordinator part-way through finalizing. */
  datatype Reading = JobRead(job: ImpactJob) | BatchesRead(job: ImpactJob, list: seq<BatchRecord>)

  datatype World = World(
    store: Checkpoint,
    now: Time,
    tasks: map<nat, Task>,
    readings: map<nat, Reading>,
    returned: map<nat, ImpactAggregate>,
    // History: one outcome per row of every batch, the owners seen so far, and
    // how many leases were granted and completions accepted.
    ledger: map<nat, Rows>,
    owners: set<Owner>,
    leases: nat,
    writes: nat)

  /** `Annotate` stands for any note, also one no coordinator would write: what is
      proved of every run then holds whatever the coordinators decide. The notes
      a coordinator does write are `Coordinator.Recorded`. */
  datatype Step =
    | CreateBatches
    | Deliver(task: nat, no: nat, owner: Owner)
    | Write(task: nat, replies: map<nat, RemoteOutcome>)
    | Crash(task: nat)
    | Die(task: nat)
    | Tick(elapsed: nat)
    | Cancel
    | Annotate(budgets: seq<string>, halt: Option<string>)
    | ReadJob(coordinator: nat)
    | ReadBatches(coordinator: nat)
    | Finish(coordinator: nat)

  function PlannedJob(p: Setup): ImpactJob
    requires p.Valid()
  {
    ImpactJob(Running, p.batchSize, p.Count(), |p.snapshot|, p.rowsInScope, false, None, [], None, None)
  }

  function Init(p: Setup, now: Time): World
    requires p.Valid()
  {
    World(Checkpoint(Some(PlannedJob(p)), map[]), now, map[], map[], map[], map[], {}, 0, 0)
  }

  function ListOf(batches: map<nat, BatchRecord>, n: nat): seq<BatchRecord> {
    if n == 0 then []
    else if n - 1 in batches then ListOf(batches, n - 1) + [batches[n - 1]]
    else ListOf(batches, n - 1)
  }

  ghost function TileRows(p: Setup, no: nat): Rows
    requires p.Valid()
  {
    if no < p.Count() then
      TileBounds(p.rowsInScope, p.batchSize, no);
      UnpricedRows(TileStart(no, p.batchSize), TileEnd(no, p.batchSize, p.rowsInScope))
    else []
  }

  ghost function AfterCreate(p: Setup, w: World): World
    requires p.Valid()
  {
    w.(store := w.store.(batches := EnsureBatches(w.store.batches, Specs(p.batchSize, p.rowsInScope, p.Count()), w.now)),
       ledger := map no: nat | no < p.Count() :: if no in w.ledger then w.ledger[no] else TileRows(p, no))
  }

  ghost function AfterDeliver(p: Setup, w: World, task: nat, no: nat, owner: Owner): World {
    var reply := LeaseStep(w.store, no, owner, p.leaseTime, p.maxAttempts, w.now);
    if task in w.tasks || reply.result != Acquired || no !in w.ledger then w
    else
      w.(store := reply.after, tasks := w.tasks[task := Task(owner, no, reply.batch.value, w.ledger[no])],
         owners := w.owners + {owner}, leases := w.leases + 1)
  }

  /** Every row the attempt has to quote has been answered. */
  ghost predicate CanWrite(p: Setup, w: World, task: nat, replies: map<nat, RemoteOutcome>) {
    && task in w.tasks
    && var held := w.tasks[task].held;
       held.rowStart <= held.rowEnd && Answerable(p.snapshot, replies, Indexes(held))
       && Answerable(p.snapshot, replies, TransientIndexes(w.tasks[task].rows))
  }

  ghost function AfterWrite(p: Setup, w: World, task: nat, replies: map<nat, RemoteOutcome>): World
    requires CanWrite(p, w, task, replies)
  {
    var t := w.tasks[task];
    var result := ExecuteResult(p.snapshot, t.held, replies, p.tolerance);
    var (after, written) := CompleteStep(w.store, t.no, t.owner, Some(result), ResultState(result), w.now);
    var rest := w.(tasks := w.tasks - {task});
    if written then
      rest.(store := after, writes := w.writes + 1,
            ledger := w.ledger[t.no := Merged(p.snapshot, replies, p.tolerance, t.rows)])
    else rest
  }

  ghost function AfterCrash(w: World, task: nat): World
    requires task in w.tasks
  {
    var t := w.tasks[task];
    var (after, written) := CompleteStep(w.store, t.no, t.owner, None, Incomplete, w.now);
    w.(store := after, tasks := w.tasks - {task}, writes := if written then w.writes + 1 else w.writes)
  }

  function AfterReadJob(w: World, c: nat): World {
    if c in w.readings || c in w.returned || w.store.job.None? then w
    else
      var job := w.store.job.value;
      if job.finalizedAt.Some? && job.aggregate.Some? then w.(returned := w.returned[c := job.aggregate.value])
      else w.(readings := w.readings[c := JobRead(job)])
  }

  function AfterReadBatches(w: World, c: nat): World {
    if c in w.readings && w.readings[c].JobRead? then
      var job := w.readings[c].job;
      w.(readings := w.readings[c := BatchesRead(job, ListOf(w.store.batches, job.batchCount))])
    else w
  }

  function Finalized(w: World, c: nat, agg: ImpactAggregate): World {
    var reply := FinalizeStep(w.store, agg.status, agg, w.now);
    w.(store := reply.after, readings := w.readings - {c},
       returned := w.returned[c := WinningVerdict(reply.created, reply.job, agg)])
  }

  function AfterFinish(w: World, c: nat): World {
    if c in w.readings && w.readings[c].BatchesRead?
    then Finalized(w, c, AggregateOf(w.readings[c].job, w.readings[c].list))
    else w
  }

  /** A step that is not enabled changes nothing. */
  ghost function Apply(p: Setup, w: World, step: Step): World
    requires p.Valid()
  {
    match step
    case CreateBatches => AfterCreate(p, w)
    case Deliver(task, no, owner) => AfterDeliver(p, w, task, no, owner)
    case Write(task, replies) => if CanWrite(p, w, task, replies) then AfterWrite(p, w, task, replies) else w
    case Crash(task) => if task in w.tasks then AfterCrash(w, task) else w
    case Die(task) => w.(tasks := w.tasks - {task})
    case Tick(elapsed) => w.(now := w.now + elapsed)
    case Cancel => w.(store := UpdateJob(w.store, CancelRequested))
    case Annotate(budgets, halt) =>
      w.(store := UpdateJob(w.store, (j: ImpactJob) => j.(budgetExhausted := budgets, haltReason := halt)))
    case ReadJob(c) => AfterReadJob(w, c)
    case ReadBatches(c) => AfterReadBatches(w, c)
    case Finish(c) => AfterFinish(w, c)
  }

  ghost function Run(p: Setup, w: World, steps: seq<Step>): World
    requires p.Valid()
  {
    if steps == [] then w else Apply(p, Run(p, w, steps[..|steps| - 1]), steps[|steps| - 1])
  }

  lemma RunSnoc(p: Setup, w: World, steps: seq<Step>, step: Step)
    requires p.Valid()
    ensures Run(p, w, steps + [step]) == Apply(p, Run(p, w, steps), step)
  {
    assert (steps + [step])[..|steps|] == steps;
  }

  // ---- Invariants ------------------------------------------------------------------

  /** The record belongs to its tile and condenses exactly these row outcomes. */
  ghost predicate Faithful(p: Setup, no: nat, b: BatchRecord, rows: Rows)
    requires p.Valid()
  {
    && no < p.Count() && b.batchNo == no
    && b.rowStart == TileStart(no, p.batchSize) && b.rowEnd == TileEnd(no, p.batchSize, p.rowsInScope)
    && Records(p.snapshot, b, rows)
    && (b.completedAt.None? ==> b.result == NO_RESULT)
    && (b.completedAt.Some? ==> forall k | 0 <= k < |rows| :: Explained(p.snapshot, p.tolerance, rows[k]))
  }

  ghost predicate Sound(p: Setup, no: nat, b: BatchRecord, rows: Rows)
    requires p.Valid()
  {
    && Faithful(p, no, b, rows)
    && b.attempts <= p.maxAttempts
    && (b.state == Done ==> b.completedAt.Some? && !HasTransient(b.result.inconclusive))
  }

  ghost predicate JobSound(p: Setup, job: ImpactJob)
    requires p.Valid()
  {
    && job.batchCount == p.Count() && job.batchSize == p.batchSize
    && job.rowsTotal == |p.snapshot| && job.rowsInScope == p.rowsInScope
    && (job.finalizedAt.Some? <==> Terminal(job.status))
    && (job.finalizedAt.Some? <==> job.aggregate.Some?)
  }

  ghost predicate Inv(p: Setup, w: World)
    requires p.Valid()
  {
    && w.store.job.Some? && JobSound(p, w.store.job.value)
    && w.store.batches.Keys == w.ledger.Keys
    && (forall no | no in w.store.batches :: Sound(p, no, w.store.batches[no], w.ledger[no]))
    && (forall t | t in w.tasks :: w.tasks[t].no in w.store.batches
                                && Faithful(p, w.tasks[t].no, w.tasks[t].held, w.tasks[t].rows))
  }

  lemma OutcomeExplained(snapshot: seq<Policy>, replies: map<nat, RemoteOutcome>, tolerance: Money, i: nat)
    requires i < |snapshot| && (NeedsReply(snapshot, i) ==> i in replies)
    ensures Explained(snapshot, tolerance, RowEntry(i, Outcome(snapshot, replies, tolerance, i)))
  {
  }

  lemma ExplainedTransientPriced(snapshot: seq<Policy>, tolerance: Money, rows: Rows)
    requires forall k | 0 <= k < |rows| :: Explained(snapshot, tolerance, rows[k])
    ensures TransientRowsPriced(snapshot, rows)
  {
  }

  lemma {:induction false} UnpricedTransient(lo: nat, hi: nat, k: nat)
    requires lo <= hi && k < hi - lo
    ensures |UnpricedRows(lo, hi)| == hi - lo && Transient(UnpricedRows(lo, hi)[k])
  {
    UnpricedFacts(lo, hi);
    UnpricedFacts(lo, hi - 1);
    if k < hi - 1 - lo {
      UnpricedTransient(lo, hi - 1, k);
    }
  }

  lemma MergedExplained(
      p: Setup, no: nat, held: BatchRecord, rows: Rows, replies: map<nat, RemoteOutcome>, k: nat)
    requires p.Valid() && Faithful(p, no, held, rows) && k < |rows|
    requires Answerable(p.snapshot, replies, TransientIndexes(rows))
    ensures Explained(p.snapshot, p.tolerance, Merged(p.snapshot, replies, p.tolerance, rows)[k])
  {
    MergedRow(p.snapshot, replies, p.tolerance, rows, k);
    if Transient(rows[k]) {
      OutcomeExplained(p.snapshot, replies, p.tolerance, rows[k].index);
    } else if held.completedAt.None? {
      UnpricedTransient(held.rowStart, held.rowEnd, k);
      assert false;
    }
  }

  /** What a delivery writes is sound for its tile, whatever record it finds in the store. */
  lemma WriteSound(p: Setup, t: Task, b: BatchRecord, replies: map<nat, RemoteOutcome>, now: Time)
    requires p.Valid() && Faithful(p, t.no, t.held, t.rows)
    requires Answerable(p.snapshot, replies, Indexes(t.held))
    requires Answerable(p.snapshot, replies, TransientIndexes(t.rows))
    requires b.batchNo == t.no && b.rowStart == t.held.rowStart && b.rowEnd == t.held.rowEnd
    requires b.attempts <= p.maxAttempts
    ensures var result := ExecuteResult(p.snapshot, t.held, replies, p.tolerance);
            Sound(p, t.no, CompletedRecord(b, Some(result), ResultState(result), now),
                  Merged(p.snapshot, replies, p.tolerance, t.rows))
  {
    TileBounds(p.rowsInScope, p.batchSize, t.no);
    ExecuteMerges(p.snapshot, t.held, t.rows, replies, p.tolerance);
    var merged := Merged(p.snapshot, replies, p.tolerance, t.rows);
    forall k | 0 <= k < |merged| ensures Explained(p.snapshot, p.tolerance, merged[k]) {
      MergedExplained(p, t.no, t.held, t.rows, replies, k);
    }
    ExplainedTransientPriced(p.snapshot, p.tolerance, merged);
  }

  lemma FreshSound(p: Setup, no: nat, now: Time)
    requires p.Valid() && no < p.Count()
    ensures Sound(p, no, FreshBatch(no, TileStart(no, p.batchSize), TileEnd(no, p.batchSize, p.rowsInScope), now),
                  TileRows(p, no))
  {
    TileBounds(p.rowsInScope, p.batchSize, no);
    UnpricedFacts(TileStart(no, p.batchSize), TileEnd(no, p.batchSize, p.rowsInScope));
  }

  lemma CreateSound(p: Setup, w: World)
    requires p.Valid() && Inv(p, w)
    ensures Inv(p, AfterCreate(p, w))
  {
    var specs := Specs(p.batchSize, p.rowsInScope, p.Count());
    var (after, ledger) := (EnsureBatches(w.store.batches, specs, w.now), AfterCreate(p, w).ledger);
    EnsureBatchesKeepsRecords(w.store.batches, specs, w.now);
    forall no | no in after ensures no < p.Count() && Sound(p, no, after[no], ledger[no]) {
      if no in w.store.batches {
        assert Sound(p, no, w.store.batches[no], w.ledger[no]);
      } else {
        CreatedRecord(w.store.batches, specs, w.now, no);
        FreshSound(p, no, w.now);
      }
    }
    forall no: nat | no < p.Count() ensures no in after {
      assert specs[no] in specs;
    }
  }

  /** A batch that was not there before is the pending record of its spec. */
  lemma {:induction false} CreatedRecord(
      batches: map<nat, BatchRecord>, specs: seq<BatchSpec>, now: Time, no: nat)
    requires no !in batches && no in EnsureBatches(batches, specs, now)
    requires forall n | 0 <= n < |specs| :: specs[n].no == n
    ensures no < |specs|
    ensures EnsureBatches(batches, specs, now)[no] == FreshBatch(no, specs[no].start, specs[no].end, now)
  {
    var n := |specs| - 1;
    if no in EnsureBatches(batches, specs[..n], now) {
      CreatedRecord(batches, specs[..n], now, no);
    }
  }

  /** Creating the batches of a planned job: one pending record and one unpriced slice each. */
  lemma FirstCreation(p: Setup, now: Time)
    requires p.Valid()
    ensures var w := Apply(p, Init(p, now), CreateBatches);
            && (forall no: nat :: no in w.store.batches <==> no < p.Count())
            && (forall no: nat | no < p.Count() ::
                  && w.store.batches[no]
                     == FreshBatch(no, TileStart(no, p.batchSize), TileEnd(no, p.batchSize, p.rowsInScope), now)
                  && no in w.ledger && w.ledger[no] == TileRows(p, no))
            && w.store.job == Some(PlannedJob(p)) && w.now == now && w.tasks == map[]
            && w.readings == map[] && w.returned == map[]
  {
    var (specs, w) := (Specs(p.batchSize, p.rowsInScope, p.Count()), Init(p, now));
    EnsureBatchesKeepsRecords(w.store.batches, specs, now);
    forall no: nat | no in EnsureBatches(w.store.batches, specs, now) {
      CreatedRecord(w.store.batches, specs, now, no);
    }
    forall no: nat | no < p.Count() ensures no in EnsureBatches(w.store.batches, specs, now) {
      assert specs[no] in specs;
    }
  }

  lemma LeasedSound(p: Setup, no: nat, b: BatchRecord, rows: Rows, owner: Owner, now: Time)
    requires p.Valid() && Sound(p, no, b, rows)
    requires LeaseDecision(b, owner, p.leaseTime, p.maxAttempts, now).0 == Acquired
    ensures Sound(p, no, LeaseDecision(b, owner, p.leaseTime, p.maxAttempts, now).1, rows)
  {
  }

  lemma DeliverSound(p: Setup, w: World, task: nat, no: nat, owner: Owner)
    requires p.Valid() && Inv(p, w)
    ensures Inv(p, AfterDeliver(p, w, task, no, owner))
  {
    var reply := LeaseStep(w.store, no, owner, p.leaseTime, p.maxAttempts, w.now);
    if task !in w.tasks && reply.result == Acquired {
      LeasedSound(p, no, w.store.batches[no], w.ledger[no], owner, w.now);
      assert reply.after.batches.Keys == w.store.batches.Keys;
    }
  }

  /** Replacing one sound record, and forgetting deliveries, keeps the invariant. */
  lemma ReplaceSound(p: Setup, w: World, after: World, no: nat, b: BatchRecord, rows: Rows)
    requires p.Valid() && Inv(p, w) && no in w.store.batches && Sound(p, no, b, rows)
    requires after.store == w.store.(batches := w.store.batches[no := b]) && after.ledger == w.ledger[no := rows]
    requires after.tasks.Keys <= w.tasks.Keys && forall t | t in after.tasks :: after.tasks[t] == w.tasks[t]
    ensures Inv(p, after)
  {
    assert after.store.batches.Keys == w.store.batches.Keys;
  }

  lemma WriteStepSound(p: Setup, w: World, task: nat, replies: map<nat, RemoteOutcome>)
    requires p.Valid() && Inv(p, w) && CanWrite(p, w, task, replies)
    ensures Inv(p, AfterWrite(p, w, task, replies))
  {
    var t := w.tasks[task];
    var b := w.store.batches[t.no];
    var result := ExecuteResult(p.snapshot, t.held, replies, p.tolerance);
    if HoldsLease(w.store, t.no, t.owner) {
      assert Faithful(p, t.no, t.held, t.rows) && Sound(p, t.no, b, w.ledger[t.no]);
      WriteSound(p, t, b, replies, w.now);
      ReplaceSound(p, w, AfterWrite(p, w, task, replies), t.no,
                   CompletedRecord(b, Some(result), ResultState(result), w.now),
                   Merged(p.snapshot, replies, p.tolerance, t.rows));
    }
  }

  lemma CrashSound(p: Setup, w: World, task: nat)
    requires p.Valid() && Inv(p, w) && task in w.tasks
    ensures Inv(p, AfterCrash(w, task))
  {
    var t := w.tasks[task];
    var after := AfterCrash(w, task);
    assert Sound(p, t.no, w.store.batches[t.no], w.ledger[t.no]);
    assert Sound(p, t.no, after.store.batches[t.no], after.ledger[t.no]);
    assert after.store.batches.Keys == w.store.batches.Keys;
  }

  lemma FinishSound(p: Setup, w: World, c: nat)
    requires p.Valid() && w.store.job.Some? && JobSound(p, w.store.job.value)
    ensures var after := AfterFinish(w, c).store;
            after.batches == w.store.batches && after.job.Some? && JobSound(p, after.job.value)
  {
  }

  lemma JobStepSound(p: Setup, w: World, step: Step)
    requires p.Valid() && Inv(p, w)
    requires !step.CreateBatches? && !step.Deliver? && !step.Write? && !step.Crash?
    ensures Inv(p, Apply(p, w, step))
  {
    match step
    case Finish(c) => FinishSound(p, w, c);
    case _ =>
  }

  /** Every step keeps the invariant; owners may be reused freely. */
  lemma StepSound(p: Setup, w: World, step: Step)
    requires p.Valid() && Inv(p, w)
    ensures Inv(p, Apply(p, w, step))
  {
    match step
    case CreateBatches => CreateSound(p, w);
    case Deliver(task, no, owner) => DeliverSound(p, w, task, no, owner);
    case Write(task, replies) =>
      if CanWrite(p, w, task, replies) { WriteStepSound(p, w, task, replies); }
    case Crash(task) =>
      if task in w.tasks { CrashSound(p, w, task); }
    case _ => JobStepSound(p, w, step);
  }

  lemma {:induction false} RunSound(p: Setup, w: World, steps: seq<Step>)
    requires p.Valid() && Inv(p, w)
    ensures Inv(p, Run(p, w, steps))
  {
    if steps != [] {
      RunSound(p, w, steps[..|steps| - 1]);
      StepSound(p, Run(p, w, steps[..|steps| - 1]), steps[|steps| - 1]);
    }
  }

  // ---- What a step can do to the batches ---------------------------------------------

  ghost predicate FewerTasks(w: World, after: World) {
    after.tasks.Keys <= w.tasks.Keys && forall t | t in after.tasks :: after.tasks[t] == w.tasks[t]
  }

  /** Batches, outcomes and counters stay; deliveries may only disappear. */
  ghost predicate Idle(w: World, after: World) {
    && after.store.batches == w.store.batches && after.ledger == w.ledger && after.owners == w.owners
    && after.leases == w.leases && after.writes == w.writes && FewerTasks(w, after) && w.now <= after.now
  }

  /** One batch that could be leased is now leased to a new delivery. */
  ghost predicate Granted(p: Setup, w: World, after: World, task: nat, no: nat, owner: Owner) {
    && no in w.store.batches && no in w.ledger && task !in w.tasks
    && w.store.batches[no].state != Done && !LeaseLive(w.store.batches[no], w.now)
    && w.store.batches[no].attempts < p.maxAttempts
    && var b := w.store.batches[no].(
                  state := Leased, attempts := w.store.batches[no].attempts + 1, leaseOwner := Some(owner),
                  leaseExpires := Some(w.now + p.leaseTime), updatedAt := w.now);
       && after.store.batches == w.store.batches[no := b] && after.ledger == w.ledger
       && after.tasks == w.tasks[task := Task(owner, no, b, w.ledger[no])]
       && after.owners == w.owners + {owner} && after.leases == w.leases + 1 && after.writes == w.writes
       && after.now == w.now
  }

  ghost predicate LeaseDropped(b: BatchRecord, after: BatchRecord) {
    && after.leaseOwner == None && after.leaseExpires == None && after.attempts == b.attempts
    && (after.state == Done || after.state == Incomplete)
  }

  /** The holder of a lease gave it up, with or without a result. */
  ghost predicate Released(w: World, after: World, task: nat) {
    && task in w.tasks
    && var no := w.tasks[task].no;
       && HoldsLease(w.store, no, w.tasks[task].owner) && no in after.store.batches && no in after.ledger
       && LeaseDropped(w.store.batches[no], after.store.batches[no])
       && after.store.batches == w.store.batches[no := after.store.batches[no]]
       && after.ledger == w.ledger[no := after.ledger[no]]
       && after.owners == w.owners && after.leases == w.leases && after.writes == w.writes + 1
       && FewerTasks(w, after) && after.now == w.now
  }

  lemma DeliverShape(p: Setup, w: World, task: nat, no: nat, owner: Owner)
    requires p.Valid()
    ensures var after := AfterDeliver(p, w, task, no, owner);
            Idle(w, after) || Granted(p, w, after, task, no, owner)
  {
  }

  lemma WriteShape(p: Setup, w: World, task: nat, replies: map<nat, RemoteOutcome>)
    requires p.Valid() && CanWrite(p, w, task, replies)
    ensures var after := AfterWrite(p, w, task, replies);
            var t := w.tasks[task];
            && after.tasks == w.tasks - {task} && after.store.job == w.store.job
            && if HoldsLease(w.store, t.no, t.owner) then
                 && Released(w, after, task)
                 && after.ledger[t.no] == Merged(p.snapshot, replies, p.tolerance, t.rows)
               else Idle(w, after) && after.store == w.store
  {
  }

  lemma CrashShape(p: Setup, w: World, task: nat)
    requires p.Valid() && Inv(p, w) && task in w.tasks
    ensures var after := AfterCrash(w, task);
            var t := w.tasks[task];
            if HoldsLease(w.store, t.no, t.owner) then Released(w, after, task) && after.ledger == w.ledger
            else Idle(w, after)
  {
    var t := w.tasks[task];
    assert t.no in w.ledger && w.ledger == w.ledger[t.no := w.ledger[t.no]];
  }

  lemma OtherShape(p: Setup, w: World, step: Step)
    requires p.Valid() && !step.CreateBatches? && !step.Deliver? && !step.Write? && !step.Crash?
    ensures Idle(w, Apply(p, w, step))
  {
    match step
    case Die(task) =>
    case Tick(elapsed) =>
    case Cancel =>
    case Annotate(budgets, halt) =>
    case ReadJob(c) => ReadJobShape(w, c);
    case ReadBatches(c) => ReadBatchesShape(w, c);
    case Finish(c) => FinishShape(w, c);
  }

  lemma ReadJobShape(w: World, c: nat)
    ensures Idle(w, AfterReadJob(w, c))
  {
  }

  lemma ReadBatchesShape(w: World, c: nat)
    ensures Idle(w, AfterReadBatches(w, c))
  {
  }

  lemma FinalizedShape(w: World, c: nat, agg: ImpactAggregate)
    ensures Idle(w, Finalized(w, c, agg))
  {
  }

  lemma FinishShape(w: World, c: nat)
    ensures Idle(w, AfterFinish(w, c))
  {
    if c in w.readings && w.readings[c].BatchesRead? {
      FinalizedShape(w, c, AggregateOf(w.readings[c].job, w.readings[c].list));
    }
  }

  /** Creation adds pending records to untouched ones. */
  ghost predicate Extended(p: Setup, w: World, after: World)
    requires p.Valid()
  {
    && (forall no | no in w.store.batches && no in w.ledger ::
          && no in after.store.batches && after.store.batches[no] == w.store.batches[no]
          && no in after.ledger && after.ledger[no] == w.ledger[no])
    && (forall no | no in after.store.batches && no !in w.store.batches ::
          && after.store.batches[no].state == Pending && after.store.batches[no].attempts == 0
          && after.store.batches[no].leaseOwner == None && after.store.batches[no].leaseExpires == None
          && after.store.batches[no].completedAt == None && after.store.batches[no].updatedAt == w.now
          && no in after.ledger && after.ledger[no] == TileRows(p, no))
    && after.store.batches.Keys == after.ledger.Keys && after.store.job == w.store.job
    && after.tasks == w.tasks && after.owners == w.owners && after.leases == w.leases && after.writes == w.writes
    && after.now == w.now
  }

  lemma CreateShape(p: Setup, w: World)
    requires p.Valid() && Inv(p, w)
    ensures Extended(p, w, AfterCreate(p, w))
  {
    var specs := Specs(p.batchSize, p.rowsInScope, p.Count());
    CreateSound(p, w);
    EnsureBatchesKeepsRecords(w.store.batches, specs, w.now);
    forall no | no in w.store.batches ensures no in AfterCreate(p, w).ledger {
      assert Sound(p, no, w.store.batches[no], w.ledger[no]);
    }
    forall no | no in AfterCreate(p, w).store.batches && no !in w.store.batches
      ensures AfterCreate(p, w).store.batches[no].state == Pending
      ensures AfterCreate(p, w).store.batches[no].attempts == 0
      ensures AfterCreate(p, w).store.batches[no].leaseOwner == None
      ensures AfterCreate(p, w).store.batches[no].leaseExpires == None
      ensures AfterCreate(p, w).store.batches[no].completedAt == None
      ensures AfterCreate(p, w).store.batches[no].updatedAt == w.now
    {
      CreatedRecord(w.store.batches, specs, w.now, no);
    }
  }

  /** The only ways a step touches batches: it creates them, one lease is
      granted, or one lease is given up. */
  ghost predicate Shaped(p: Setup, w: World, step: Step, after: World)
    requires p.Valid()
  {
    || Idle(w, after)
    || (step.CreateBatches? && Extended(p, w, after))
    || (step.Deliver? && Granted(p, w, after, step.task, step.no, step.owner))
    || ((step.Write? || step.Crash?) && Released(w, after, step.task))
  }

  lemma StepShape(p: Setup, w: World, step: Step)
    requires p.Valid() && Inv(p, w)
    ensures Shaped(p, w, step, Apply(p, w, step))
  {
    match step
    case CreateBatches => CreateShape(p, w);
    case Deliver(task, no, owner) => DeliverShape(p, w, task, no, owner);
    case Write(task, replies) => if CanWrite(p, w, task, replies) { WriteShape(p, w, task, replies); }
    case Crash(task) => if task in w.tasks { CrashShape(p, w, task); }
    case _ => OtherShape(p, w, step);
  }
}
