/** The durable checkpoint store of an impact job (`backend/app/impact/store.py`):
    each operation as an atomic step on one job's documents, and the in-memory
    store that performs it. */
module ImpactStore {
  import opened ImpactModels
  import opened Sorting

  /** The documents of one job: the job record and its batches by number. */
  datatype Checkpoint = Checkpoint(job: Option<ImpactJob>, batches: map<nat, BatchRecord>)

  datatype LeaseReply = LeaseReply(after: Checkpoint, result: LeaseResult, batch: Option<BatchRecord>)
  datatype FinalizeReply = FinalizeReply(after: Checkpoint, job: Option<ImpactJob>, created: bool)

  predicate LeaseLive(b: BatchRecord, now: Time) {
    b.state == Leased && b.leaseExpires.Some? && b.leaseExpires.value > now
  }

  function LeaseDecision(b: BatchRecord, owner: Owner, leaseTime: nat, maxAttempts: nat, now: Time)
    : (LeaseResult, BatchRecord)
  {
    if b.state == Done then (AlreadyDone, b)
    else if LeaseLive(b, now) then (LeasedElsewhere, b)
    else if b.attempts >= maxAttempts then (AttemptsExhausted, b)
    else (Acquired, b.(state := Leased, attempts := b.attempts + 1, leaseOwner := Some(owner),
                       leaseExpires := Some(now + leaseTime), updatedAt := now))
  }

  function LeaseStep(s: Checkpoint, no: nat, owner: Owner, leaseTime: nat, maxAttempts: nat, now: Time): LeaseReply {
    if s.job.None? then LeaseReply(s, NotFound, None)
    else if Terminal(s.job.value.status) || s.job.value.cancelRequested then LeaseReply(s, JobClosed, None)
    else if no !in s.batches then LeaseReply(s, NotFound, None)
    else
      var (outcome, updated) := LeaseDecision(s.batches[no], owner, leaseTime, maxAttempts, now);
      if outcome == Acquired
      then LeaseReply(s.(batches := s.batches[no := updated]), outcome, Some(updated))
      else LeaseReply(s, outcome, Some(s.batches[no]))
  }

  /** A completion names a result, or nothing when a crashed attempt only gives its lease back. */
  function CompletedRecord(b: BatchRecord, result: Option<BatchResult>, state: BatchState, now: Time): BatchRecord {
    var released := b.(state := state, leaseOwner := None, leaseExpires := None, updatedAt := now);
    if result.Some? then released.(result := result.value, completedAt := Some(now)) else released
  }

  predicate HoldsLease(s: Checkpoint, no: nat, owner: Owner) {
    no in s.batches && s.batches[no].state == Leased && s.batches[no].leaseOwner == Some(owner)
  }

  function CompleteStep(s: Checkpoint, no: nat, owner: Owner, result: Option<BatchResult>, state: BatchState, now: Time)
    : (Checkpoint, bool)
  {
    if HoldsLease(s, no, owner)
    then (s.(batches := s.batches[no := CompletedRecord(s.batches[no], result, state, now)]), true)
    else (s, false)
  }

  function FinalizeStep(s: Checkpoint, status: ImpactStatus, agg: ImpactAggregate, now: Time): FinalizeReply {
    if s.job.None? then FinalizeReply(s, None, false)
    else if s.job.value.finalizedAt.Some? then FinalizeReply(s, s.job, false)
    else
      var job := s.job.value.(status := status, aggregate := Some(agg), finalizedAt := Some(now));
      FinalizeReply(s.(job := Some(job)), Some(job), true)
  }

  function UpdateJob(s: Checkpoint, update: ImpactJob -> ImpactJob): Checkpoint {
    if s.job.None? then s else s.(job := Some(update(s.job.value)))
  }

  function CancelRequested(job: ImpactJob): ImpactJob {
    job.(cancelRequested := true)
  }

  /** A job that may still be worked on. */
  predicate IsOpen(s: Checkpoint) {
    && s.job.Some? && (s.job.value.status.NotRun? || s.job.value.status.Queued? || s.job.value.status.Running?)
    && !s.job.value.cancelRequested
  }

  /** Which stored job and record draw which answer to a delivery, and what a granted lease writes. */
  lemma LeaseAnswersExactly(s: Checkpoint, no: nat, owner: Owner, leaseTime: nat, maxAttempts: nat, now: Time)
    ensures var reply := LeaseStep(s, no, owner, leaseTime, maxAttempts, now);
            var open := IsOpen(s);
            && (reply.result == NotFound <==> s.job.None? || (open && no !in s.batches))
            && (reply.result == JobClosed <==> s.job.Some? && !open)
            && (reply.result != Acquired ==> reply.after == s)
            && (open && no in s.batches ==>
                  var b := s.batches[no];
                  var live := b.state == Leased && b.leaseExpires.Some? && now < b.leaseExpires.value;
                  && (reply.result == AlreadyDone <==> b.state == Done)
                  && (reply.result == LeasedElsewhere <==> live)
                  && (reply.result == AttemptsExhausted <==> b.state != Done && !live && maxAttempts <= b.attempts)
                  && (reply.result == Acquired <==> b.state != Done && !live && b.attempts < maxAttempts)
                  && (reply.result != Acquired ==> reply.batch == Some(b)))
    ensures var reply := LeaseStep(s, no, owner, leaseTime, maxAttempts, now);
            reply.result == Acquired ==>
              && no in s.batches && reply.batch.Some? && reply.after == s.(batches := s.batches[no := reply.batch.value])
              && var (b, leased) := (s.batches[no], reply.batch.value);
                 && leased.state == Leased && leased.attempts == b.attempts + 1 && leased.leaseOwner == Some(owner)
                 && leased.leaseExpires == Some(now + leaseTime) && leased.updatedAt == now
                 && leased.batchNo == b.batchNo && leased.rowStart == b.rowStart && leased.rowEnd == b.rowEnd
                 && leased.result == b.result && leased.completedAt == b.completedAt
  {
  }

  /** Who may complete a batch, and what a completion, with a result or as a mere release, writes. */
  lemma CompletionExactly(
      s: Checkpoint, no: nat, owner: Owner, result: Option<BatchResult>, state: BatchState, now: Time)
    ensures var (after, written) := CompleteStep(s, no, owner, result, state, now);
            && (written <==> no in s.batches && s.batches[no].state == Leased && s.batches[no].leaseOwner == Some(owner))
            && (!written ==> after == s)
            && (written ==>
                  && after.job == s.job && no in after.batches && after.batches == s.batches[no := after.batches[no]]
                  && var (b, done) := (s.batches[no], after.batches[no]);
                     && done.state == state && done.leaseOwner == None && done.leaseExpires == None && done.updatedAt == now
                     && done.batchNo == b.batchNo && done.rowStart == b.rowStart && done.rowEnd == b.rowEnd
                     && done.attempts == b.attempts
                     && done.result == (if result.Some? then result.value else b.result)
                     && done.completedAt == (if result.Some? then Some(now) else b.completedAt))
  {
  }

  /** The first verdict is stored with its status; a later one changes nothing and gets the stored job back. */
  lemma FinalizationExactly(s: Checkpoint, status: ImpactStatus, agg: ImpactAggregate, now: Time)
    ensures var reply := FinalizeStep(s, status, agg, now);
            && (reply.created <==> s.job.Some? && s.job.value.finalizedAt == None)
            && (!reply.created ==> reply.after == s && reply.job == s.job)
            && (reply.created ==>
                  && reply.job.Some? && reply.after == Checkpoint(reply.job, s.batches)
                  && var (j, done) := (s.job.value, reply.job.value);
                     && done.status == status && done.aggregate == Some(agg) && done.finalizedAt == Some(now)
                     && done.batchSize == j.batchSize && done.batchCount == j.batchCount && done.rowsTotal == j.rowsTotal
                     && done.rowsInScope == j.rowsInScope && done.cancelRequested == j.cancelRequested
                     && done.haltReason == j.haltReason && done.budgetExhausted == j.budgetExhausted)
  {
  }

  function FreshBatch(no: nat, start: nat, end: nat, now: Time): BatchRecord {
    BatchRecord(no, start, end, Pending, 0, None, None, NO_RESULT, None, now)
  }

  datatype BatchSpec = BatchSpec(no: nat, start: nat, end: nat)

  function EnsureBatches(batches: map<nat, BatchRecord>, specs: seq<BatchSpec>, now: Time): map<nat, BatchRecord> {
    if specs == [] then batches
    else
      var before := EnsureBatches(batches, specs[..|specs| - 1], now);
      var spec := specs[|specs| - 1];
      if spec.no in before then before else before[spec.no := FreshBatch(spec.no, spec.start, spec.end, now)]
  }

  /** `list` holds every record of the bucket once, by increasing batch number. */
  ghost predicate Listing(batches: map<nat, BatchRecord>, list: seq<BatchRecord>) {
    && |list| == |batches|
    && (forall i | 0 <= i < |list| :: list[i].batchNo in batches && batches[list[i].batchNo] == list[i])
    && (forall i, j | 0 <= i < j < |list| :: list[i].batchNo < list[j].batchNo)
  }

  /** Records are filed under their own number. */
  ghost predicate Filed(batches: map<nat, BatchRecord>) {
    forall no | no in batches :: batches[no].batchNo == no
  }

  /** Creating batches twice is the same as creating them once, and never touches a stored record. */
  lemma {:induction false} EnsureBatchesKeepsRecords(
      batches: map<nat, BatchRecord>, specs: seq<BatchSpec>, now: Time)
    ensures forall no | no in batches ::
              no in EnsureBatches(batches, specs, now) && EnsureBatches(batches, specs, now)[no] == batches[no]
    ensures EnsureBatches(batches, specs, now).Keys == batches.Keys + set s <- specs :: s.no
  {
    if specs != [] {
      var n := |specs| - 1;
      EnsureBatchesKeepsRecords(batches, specs[..n], now);
      assert specs == specs[..n] + [specs[n]];
    }
  }

  datatype JobKey = JobKey(tenant: string, jobId: string)

  class InMemoryImpactStore {
    var jobs: map<JobKey, ImpactJob>
    var batches: map<JobKey, map<nat, BatchRecord>>

    /** What one tenant's job looks like; every other key, and so every other tenant, has its own. */
    ghost function View(key: JobKey): Checkpoint
      reads this
    {
      Checkpoint(if key in jobs then Some(jobs[key]) else None, if key in batches then batches[key] else map[])
    }

    ghost predicate Valid()
      reads this
    {
      forall key | key in batches :: Filed(batches[key])
    }

    constructor ()
      ensures Valid() && forall key :: View(key) == Checkpoint(None, map[])
    {
      jobs := map[];
      batches := map[];
    }

    method CreateJob(key: JobKey, job: ImpactJob) returns (stored: ImpactJob)
      modifies this`jobs
      ensures View(key).job == Some(stored) && View(key).batches == old(View(key).batches)
      ensures stored == if old(View(key).job.Some?) then old(View(key).job.value) else job
      ensures forall other | other != key :: View(other) == old(View(other))
    {
      if key !in jobs {
        jobs := jobs[key := job];
      }
      stored := jobs[key];
    }

    method Update(key: JobKey, update: ImpactJob -> ImpactJob) returns (stored: Option<ImpactJob>)
      modifies this`jobs
      ensures View(key) == UpdateJob(old(View(key)), update) && stored == View(key).job
      ensures forall other | other != key :: View(other) == old(View(other))
    {
      if key !in jobs {
        return None;
      }
      jobs := jobs[key := update(jobs[key])];
      stored := Some(jobs[key]);
    }

    method CreateBatches(key: JobKey, specs: seq<BatchSpec>, now: Time)
      requires Valid()
      modifies this`batches
      ensures Valid()
      ensures View(key) == old(View(key)).(batches := EnsureBatches(old(View(key).batches), specs, now))
      ensures forall other | other != key :: View(other) == old(View(other))
    {
      var bucket: map<nat, BatchRecord> := if key in batches then batches[key] else map[];
      var i := 0;
      while i < |specs|
        invariant 0 <= i <= |specs|
        invariant bucket == EnsureBatches(View(key).batches, specs[..i], now)
        invariant Filed(bucket)
      {
        assert specs[..i + 1][..i] == specs[..i];
        if specs[i].no !in bucket {
          bucket := bucket[specs[i].no := FreshBatch(specs[i].no, specs[i].start, specs[i].end, now)];
        }
        i := i + 1;
      }
      assert specs[..i] == specs;
      batches := batches[key := bucket];
    }

    method ListBatches(key: JobKey) returns (list: seq<BatchRecord>)
      requires Valid()
      ensures Listing(View(key).batches, list)
    {
      var bucket: map<nat, BatchRecord> := if key in batches then batches[key] else map[];
      var todo := bucket.Keys;
      list := [];
      while todo != {}
        invariant todo <= bucket.Keys && |list| + |todo| == |bucket|
        invariant forall i | 0 <= i < |list| ::
                    list[i].batchNo in bucket && list[i].batchNo !in todo && bucket[list[i].batchNo] == list[i]
        invariant forall i, j | 0 <= i < j < |list| :: list[i].batchNo != list[j].batchNo
        decreases todo
      {
        var no :| no in todo;
        assert bucket[no].batchNo == no;
        list := list + [bucket[no]];
        todo := todo - {no};
      }
      SortedListing(bucket, list);
      list := SortBy(BatchLeq, list);
    }

    method LeaseBatch(key: JobKey, no: nat, owner: Owner, leaseTime: nat, maxAttempts: nat, now: Time)
      returns (result: LeaseResult, batch: Option<BatchRecord>)
      requires Valid()
      modifies this`batches
      ensures Valid()
      ensures LeaseReply(View(key), result, batch)
           == LeaseStep(old(View(key)), no, owner, leaseTime, maxAttempts, now)
      ensures forall other | other != key :: View(other) == old(View(other))
    {
      if key !in jobs {
        return NotFound, None;
      }
      if Terminal(jobs[key].status) || jobs[key].cancelRequested {
        return JobClosed, None;
      }
      var bucket: map<nat, BatchRecord> := if key in batches then batches[key] else map[];
      if no !in bucket {
        return NotFound, None;
      }
      var (outcome, updated) := LeaseDecision(bucket[no], owner, leaseTime, maxAttempts, now);
      if outcome == Acquired {
        batches := batches[key := bucket[no := updated]];
        return outcome, Some(updated);
      }
      return outcome, Some(bucket[no]);
    }

    method CompleteBatch(
        key: JobKey, no: nat, owner: Owner, result: Option<BatchResult>, state: BatchState, now: Time)
      returns (written: bool)
      requires Valid()
      modifies this`batches
      ensures Valid()
      ensures (View(key), written) == CompleteStep(old(View(key)), no, owner, result, state, now)
      ensures forall other | other != key :: View(other) == old(View(other))
    {
      if key !in batches || no !in batches[key] {
        return false;
      }
      var b := batches[key][no];
      if b.state != Leased || b.leaseOwner != Some(owner) {
        return false;
      }
      var update := b.(state := state, leaseOwner := None, leaseExpires := None, updatedAt := now);
      if result.Some? {
        update := update.(result := result.value, completedAt := Some(now));
      }
      var bucket: map<nat, BatchRecord> := batches[key];
      batches := batches[key := bucket[no := update]];
      return true;
    }

    method FinalizeJob(key: JobKey, status: ImpactStatus, agg: ImpactAggregate, now: Time)
      returns (job: Option<ImpactJob>, created: bool)
      modifies this`jobs
      ensures FinalizeReply(View(key), job, created) == FinalizeStep(old(View(key)), status, agg, now)
      ensures forall other | other != key :: View(other) == old(View(other))
    {
      if key !in jobs {
        return None, false;
      }
      if jobs[key].finalizedAt.Some? {
        return Some(jobs[key]), false;
      }
      jobs := jobs[key := jobs[key].(status := status, aggregate := Some(agg), finalizedAt := Some(now))];
      return Some(jobs[key]), true;
    }
  }

  lemma BatchOrder()
    ensures TotalPreorder(BatchLeq)
  {
  }

  lemma SortedListing(batches: map<nat, BatchRecord>, list: seq<BatchRecord>)
    requires |list| == |batches|
    requires forall i | 0 <= i < |list| :: list[i].batchNo in batches && batches[list[i].batchNo] == list[i]
    requires forall i, j | 0 <= i < j < |list| :: list[i].batchNo != list[j].batchNo
    ensures Listing(batches, SortBy(BatchLeq, list))
  {
    BatchOrder();
    var sorted := SortBy(BatchLeq, list);
    SortBySorts(BatchLeq, list);
    assert |sorted| == |multiset(sorted)| == |multiset(list)| == |list|;
    DistinctRearranged(list, sorted);
    forall i | 0 <= i < |sorted| ensures sorted[i] in list {
      assert sorted[i] in multiset(sorted);
    }
    forall i, j | 0 <= i < j < |sorted| ensures sorted[i].batchNo < sorted[j].batchNo {
      assert BatchLeq(sorted[i], sorted[j]);
      assert sorted[i] != sorted[j];
      assert sorted[i] == batches[sorted[i].batchNo] && sorted[j] == batches[sorted[j].batchNo];
    }
  }
}
