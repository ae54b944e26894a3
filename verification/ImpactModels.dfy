/** Records of a connector-backed portfolio impact scan (`backend/app/impact/models.py`). */
module ImpactModels {

  datatype Option<+T> = None | Some(value: T)

  type Time = int
  type Money = real
  type Owner = string

  datatype ImpactStatus = NotRun | Queued | Running | Complete | Partial | Cancelled | Failed
  datatype BatchState = Pending | Leased | Done | Incomplete
  datatype LeaseResult = Acquired | AlreadyDone | LeasedElsewhere | AttemptsExhausted | NotFound | JobClosed

  predicate Terminal(status: ImpactStatus) {
    status in {Complete, Partial, ImpactStatus.Cancelled, Failed}
  }

  /** One stored row reference: the snapshot index and what was recorded about it. */
  datatype RowEntry<+T> = RowEntry(index: nat, detail: T)
  datatype Quote = Quote(expected: Money, candidate: Money)
  datatype Problem = Problem(code: string, transient: bool)

  predicate IndexLeq<T>(a: RowEntry<T>, b: RowEntry<T>) {
    a.index <= b.index
  }

  /** The part of a batch record that a completed attempt overwrites. Matched
      rows leave only a count behind. */
  datatype BatchResult = BatchResult(
    matched: nat,
    outOfScope: seq<RowEntry<string>>,
    affected: seq<RowEntry<Quote>>,
    inconclusive: seq<RowEntry<Problem>>)

  const NO_RESULT := BatchResult(0, [], [], [])

  datatype BatchRecord = BatchRecord(
    batchNo: nat,
    rowStart: nat,
    rowEnd: nat,
    state: BatchState,
    attempts: nat,
    leaseOwner: Option<Owner>,
    leaseExpires: Option<Time>,
    result: BatchResult,
    completedAt: Option<Time>,
    updatedAt: Time)
  {
    function Rows(): int { rowEnd - rowStart }
  }

  predicate BatchLeq(a: BatchRecord, b: BatchRecord) {
    a.batchNo <= b.batchNo
  }

  predicate HasTransient(inconclusive: seq<RowEntry<Problem>>) {
    exists i | 0 <= i < |inconclusive| :: inconclusive[i].detail.transient
  }

  datatype Decision = Block | PassEligible | ReviewRequired | DecisionCancelled
  datatype Completeness = CompleteScan | PartialScan | CancelledScan
  datatype Reason =
    | RowBudget(rows: int)
    | BatchesNotCompleted
    | InconclusiveRows(count: nat)
    | BudgetExhausted(budget: string)
    | Halted(reason: string)

  /** Exact totals; the source rounds each to cents when it renders them. */
  datatype Exposure = Exposure(
    overCount: nat, overTotal: Money, underCount: nat, underTotal: Money,
    signedNet: Money, absolute: Money)

  datatype ImpactAggregate = ImpactAggregate(
    status: ImpactStatus,
    decision: Decision,
    completeness: Completeness,
    reasons: seq<Reason>,
    exposureIsLowerBound: bool,
    rowsTotal: int,
    rowsInScope: int,
    processed: int,
    eligible: int,
    outOfScope: nat,
    compared: nat,
    mismatches: nat,
    inconclusive: nat,
    inconclusiveTransient: nat,
    unprocessed: int,
    exposure: Exposure,
    batchesDone: nat,
    batchesIncomplete: nat,
    batchesPending: int)

  datatype ImpactJob = ImpactJob(
    status: ImpactStatus,
    batchSize: nat,
    batchCount: nat,
    rowsTotal: nat,
    rowsInScope: nat,
    cancelRequested: bool,
    haltReason: Option<string>,
    budgetExhausted: seq<string>,
    aggregate: Option<ImpactAggregate>,
    finalizedAt: Option<Time>)

  /** An empty halt reason is no reason. */
  predicate Halts(job: ImpactJob) { job.haltReason.Some? && job.haltReason.value != "" }
}
