/** The polling loop that drives a scan to its verdict (`backend/app/impact/coordinator.py`). */
module Coordinator {
  import opened Arithmetic
  import opened ImpactModels
  import opened ImpactStore
  import opened Aggregation

  /** Durations share the unit of `Time`. */
  datatype Config = Config(
    maxBatchAttempts: nat, maxInflight: nat, stall: Time, maxMission: nat, pollInterval: nat)

  const HALT_AFTER_PERMANENT_FAILED_BATCHES := 3
  const ROW_BUDGET := "ROW_BUDGET"
  const MAX_MISSION := "MAX_MISSION_SECONDS"
  const PERMANENT_FAILURE := "CONNECTOR_PERMANENT_FAILURE"

  /** Nothing more will come of this batch: it is done, or out of attempts with no live lease. */
  predicate Settled(b: BatchRecord, maxAttempts: nat, now: Time) {
    b.state == Done || (b.attempts >= maxAttempts && !LeaseLive(b, now))
  }

  predicate InFlight(b: BatchRecord, dispatched: map<nat, Time>, now: Time, stall: Time) {
    if b.state == Leased then LeaseLive(b, now)
    else
      && b.batchNo in dispatched && b.updatedAt <= dispatched[b.batchNo]
      && now - dispatched[b.batchNo] < stall && b.state != Done
  }

  /** `backoff` is the jittered wait between re-attempts of a batch. */
  predicate Dispatchable(
      b: BatchRecord, dispatched: map<nat, Time>, now: Time, cfg: Config, backoff: BatchRecord -> Time)
  {
    && !Settled(b, cfg.maxBatchAttempts, now) && !InFlight(b, dispatched, now, cfg.stall)
    && !(b.state == Incomplete && b.completedAt.Some? && now - b.completedAt.value < backoff(b))
  }

  predicate Productive(b: BatchRecord) { b.result.matched > 0 || b.result.affected != [] }

  predicate FailedForGood(b: BatchRecord) {
    && b.state == Done && b.completedAt.Some? && b.result.inconclusive != []
    && |b.result.inconclusive| + |b.result.outOfScope| >= b.Rows()
  }

  function CountFailed(list: seq<BatchRecord>): nat {
    if list == [] then 0
    else CountFailed(list[..|list| - 1]) + if FailedForGood(list[|list| - 1]) then 1 else 0
  }

  predicate SystemicPermanentFailure(list: seq<BatchRecord>) {
    && (forall i | 0 <= i < |list| :: !Productive(list[i]))
    && CountFailed(list) >= HALT_AFTER_PERMANENT_FAILED_BATCHES
  }

  predicate AllSettled(list: seq<BatchRecord>, maxAttempts: nat, now: Time) {
    forall i | 0 <= i < |list| :: Settled(list[i], maxAttempts, now)
  }

  function CountInFlight(list: seq<BatchRecord>, dispatched: map<nat, Time>, now: Time, stall: Time): nat {
    if list == [] then 0
    else CountInFlight(list[..|list| - 1], dispatched, now, stall)
         + if InFlight(list[|list| - 1], dispatched, now, stall) then 1 else 0
  }

  function Room(maxInflight: nat, inflight: nat): nat { if inflight >= maxInflight then 0 else maxInflight - inflight }

  ghost predicate InBatchOrder(list: seq<BatchRecord>) {
    forall i, j | 0 <= i < j < |list| :: list[i].batchNo < list[j].batchNo
  }

  /** The batches a round would dispatch with unlimited room, in listing order.
      `accepts(no)` says whether the dispatcher takes the message; a refused
      batch is skipped and tried again on a later poll. */
  function Wanted(
      list: seq<BatchRecord>, dispatched: map<nat, Time>, now: Time, cfg: Config, backoff: BatchRecord -> Time,
      accepts: nat -> bool): seq<BatchRecord>
  {
    if list == [] then []
    else
      var (rest, b) := (Wanted(list[..|list| - 1], dispatched, now, cfg, backoff, accepts), list[|list| - 1]);
      if Dispatchable(b, dispatched, now, cfg, backoff) && accepts(b.batchNo) then rest + [b] else rest
  }

  function First(n: nat, list: seq<BatchRecord>): seq<BatchRecord> { if |list| <= n then list else list[..n] }

  /** What a round sends: the first wanted batches that fit beside those in flight. */
  function RoundFor(
      list: seq<BatchRecord>, dispatched: map<nat, Time>, now: Time, cfg: Config, backoff: BatchRecord -> Time,
      accepts: nat -> bool): seq<BatchRecord>
  {
    First(Room(cfg.maxInflight, CountInFlight(list, dispatched, now, cfg.stall)),
          Wanted(list, dispatched, now, cfg, backoff, accepts))
  }

  function Stamped(dispatched: map<nat, Time>, sent: seq<BatchRecord>, sentAt: nat -> Time): map<nat, Time> {
    if sent == [] then dispatched
    else
      var no := sent[|sent| - 1].batchNo;
      Stamped(dispatched, sent[..|sent| - 1], sentAt)[no := sentAt(no)]
  }

  predicate SameEntry(a: map<nat, Time>, b: map<nat, Time>, no: nat) {
    if no in a then no in b && a[no] == b[no] else no !in b
  }

  /** One round of dispatching: the batches already in flight bound what is sent. */
  method DispatchRound(
      list: seq<BatchRecord>, before: map<nat, Time>, now: Time, cfg: Config, backoff: BatchRecord -> Time,
      accepts: nat -> bool, sentAt: nat -> Time)
    returns (dispatched: map<nat, Time>, sent: seq<BatchRecord>)
    requires InBatchOrder(list)
    ensures sent == RoundFor(list, before, now, cfg, backoff, accepts)
    ensures dispatched == Stamped(before, sent, sentAt)
  {
    var inflight := CountInFlight(list, before, now, cfg.stall);
    ghost var room := Room(cfg.maxInflight, inflight);
    dispatched, sent := before, [];
    var n := 0;
    while n < |list|
      invariant 0 <= n <= |list|
      invariant inflight == CountInFlight(list, before, now, cfg.stall) + |sent|
      invariant sent == Wanted(list[..n], before, now, cfg, backoff, accepts) && |sent| <= room
      invariant dispatched == Stamped(before, sent, sentAt)
    {
      if inflight >= cfg.maxInflight {
        WantedGrows(list, n, before, now, cfg, backoff, accepts);
        return;
      }
      RoundStep(list, n, before, dispatched, now, cfg, backoff, accepts, sentAt);
      var b := list[n];
      n := n + 1;
      if Dispatchable(b, dispatched, now, cfg, backoff) {
        if !accepts(b.batchNo) {
          continue;
        }
        dispatched := dispatched[b.batchNo := sentAt(b.batchNo)];
        sent := sent + [b];
        inflight := inflight + 1;
      }
    }
    assert list[..n] == list;
  }

  lemma {:induction false} WantedGrows(
      list: seq<BatchRecord>, n: nat, dispatched: map<nat, Time>, now: Time, cfg: Config,
      backoff: BatchRecord -> Time, accepts: nat -> bool)
    requires n <= |list|
    ensures Wanted(list[..n], dispatched, now, cfg, backoff, accepts)
         <= Wanted(list, dispatched, now, cfg, backoff, accepts)
  {
    if n == |list| {
      assert list[..n] == list;
    } else {
      var m := |list| - 1;
      WantedGrows(list[..m], n, dispatched, now, cfg, backoff, accepts);
      assert list[..m][..n] == list[..n];
    }
  }

  /** A round sends no more than the room left by the batches in flight, sends
      only dispatchable batches, none twice, and passes none over while there is room. */
  lemma RoundIsBounded(
      list: seq<BatchRecord>, before: map<nat, Time>, now: Time, cfg: Config, backoff: BatchRecord -> Time,
      accepts: nat -> bool)
    requires InBatchOrder(list)
    ensures var room := Room(cfg.maxInflight, CountInFlight(list, before, now, cfg.stall));
            var sent := RoundFor(list, before, now, cfg, backoff, accepts);
            && |sent| <= room
            && InBatchOrder(sent)
            && (forall b | b in sent :: b in list && Dispatchable(b, before, now, cfg, backoff) && accepts(b.batchNo))
            && (|sent| < room ==>
                  forall b | b in list && Dispatchable(b, before, now, cfg, backoff) && accepts(b.batchNo) :: b in sent)
            && (forall b | b in list && Dispatchable(b, before, now, cfg, backoff) && accepts(b.batchNo) && b !in sent ::
                  forall other | other in sent :: other.batchNo < b.batchNo)
  {
    WantedInOrder(list, before, now, cfg, backoff, accepts);
    forall b ensures b in Wanted(list, before, now, cfg, backoff, accepts)
                <==> b in list && Dispatchable(b, before, now, cfg, backoff) && accepts(b.batchNo) {
      WantedMember(list, before, now, cfg, backoff, accepts, b);
    }
  }

  lemma {:induction false} StampedAt(before: map<nat, Time>, sent: seq<BatchRecord>, sentAt: nat -> Time, k: nat)
    requires k < |sent|
    ensures sent[k].batchNo in Stamped(before, sent, sentAt)
    ensures Stamped(before, sent, sentAt)[sent[k].batchNo] == sentAt(sent[k].batchNo)
  {
    if k < |sent| - 1 {
      StampedAt(before, sent[..|sent| - 1], sentAt, k);
    }
  }

  lemma {:induction false} StampedElsewhere(before: map<nat, Time>, sent: seq<BatchRecord>, sentAt: nat -> Time, no: nat)
    requires forall b | b in sent :: b.batchNo != no
    ensures SameEntry(Stamped(before, sent, sentAt), before, no)
  {
    if sent != [] {
      StampedElsewhere(before, sent[..|sent| - 1], sentAt, no);
      assert sent[|sent| - 1] in sent;
    }
  }

  /** When a round comes to a batch, it has not sent it before. */
  lemma NotYetSent(
      list: seq<BatchRecord>, n: nat, before: map<nat, Time>, now: Time, cfg: Config, backoff: BatchRecord -> Time,
      accepts: nat -> bool, sentAt: nat -> Time)
    requires InBatchOrder(list) && n < |list|
    ensures var sent := Wanted(list[..n], before, now, cfg, backoff, accepts);
            SameEntry(Stamped(before, sent, sentAt), before, list[n].batchNo)
  {
    var w := Wanted(list[..n], before, now, cfg, backoff, accepts);
    forall b | b in w ensures b.batchNo != list[n].batchNo {
      WantedMember(list[..n], before, now, cfg, backoff, accepts, b);
    }
    StampedElsewhere(before, w, sentAt, list[n].batchNo);
  }

  /** What coming to the next batch adds to a round. */
  lemma RoundStep(
      list: seq<BatchRecord>, n: nat, before: map<nat, Time>, dispatched: map<nat, Time>, now: Time, cfg: Config,
      backoff: BatchRecord -> Time, accepts: nat -> bool, sentAt: nat -> Time)
    requires InBatchOrder(list) && n < |list|
    requires dispatched == Stamped(before, Wanted(list[..n], before, now, cfg, backoff, accepts), sentAt)
    ensures var (w, b) := (Wanted(list[..n], before, now, cfg, backoff, accepts), list[n]);
            && Wanted(list[..n + 1], before, now, cfg, backoff, accepts)
               == (if Dispatchable(b, dispatched, now, cfg, backoff) && accepts(b.batchNo) then w + [b] else w)
            && Stamped(before, w + [b], sentAt) == dispatched[b.batchNo := sentAt(b.batchNo)]
  {
    var (w, b) := (Wanted(list[..n], before, now, cfg, backoff, accepts), list[n]);
    NotYetSent(list, n, before, now, cfg, backoff, accepts, sentAt);
    SameDispatchable(b, dispatched, before, now, cfg, backoff);
    WantedSnoc(list, n, before, now, cfg, backoff, accepts);
    StampedSnoc(before, w, b, sentAt);
  }

  lemma SameDispatchable(
      b: BatchRecord, a: map<nat, Time>, before: map<nat, Time>, now: Time, cfg: Config, backoff: BatchRecord -> Time)
    requires SameEntry(a, before, b.batchNo)
    ensures Dispatchable(b, a, now, cfg, backoff) == Dispatchable(b, before, now, cfg, backoff)
  {
  }

  lemma WantedSnoc(
      list: seq<BatchRecord>, n: nat, before: map<nat, Time>, now: Time, cfg: Config, backoff: BatchRecord -> Time,
      accepts: nat -> bool)
    requires n < |list|
    ensures var w := Wanted(list[..n], before, now, cfg, backoff, accepts);
            Wanted(list[..n + 1], before, now, cfg, backoff, accepts)
            == if Dispatchable(list[n], before, now, cfg, backoff) && accepts(list[n].batchNo) then w + [list[n]] else w
  {
    assert list[..n + 1][..n] == list[..n];
  }

  lemma StampedSnoc(before: map<nat, Time>, sent: seq<BatchRecord>, b: BatchRecord, sentAt: nat -> Time)
    ensures Stamped(before, sent + [b], sentAt) == Stamped(before, sent, sentAt)[b.batchNo := sentAt(b.batchNo)]
  {
    assert (sent + [b])[..|sent|] == sent;
  }

  /** A batch that a round sent counts as in flight on a later poll, its record
      unchanged, exactly when it was not sent over an expired lease, its record
      is no newer than the send, and the stall time has not passed. So there is
      no bound across polls: a batch with an expired lease is sent on every one. */
  lemma SentCountsAsInFlight(
      before: map<nat, Time>, sent: seq<BatchRecord>, k: nat, now: Time, later: Time, cfg: Config,
      backoff: BatchRecord -> Time, sentAt: nat -> Time)
    requires k < |sent| && now <= later && Dispatchable(sent[k], before, now, cfg, backoff)
    ensures InFlight(sent[k], Stamped(before, sent, sentAt), later, cfg.stall) <==>
              && sent[k].state != Leased
              && sent[k].updatedAt <= sentAt(sent[k].batchNo)
              && later - sentAt(sent[k].batchNo) < cfg.stall
  {
    StampedAt(before, sent, sentAt, k);
  }

  lemma {:induction false} WantedMember(
      list: seq<BatchRecord>, before: map<nat, Time>, now: Time, cfg: Config, backoff: BatchRecord -> Time,
      accepts: nat -> bool, b: BatchRecord)
    ensures b in Wanted(list, before, now, cfg, backoff, accepts)
       <==> b in list && Dispatchable(b, before, now, cfg, backoff) && accepts(b.batchNo)
  {
    if list != [] {
      var n := |list| - 1;
      WantedMember(list[..n], before, now, cfg, backoff, accepts, b);
      assert list == list[..n] + [list[n]];
      assert b in list <==> b in list[..n] || b == list[n];
    }
  }

  lemma {:induction false} WantedInOrder(
      list: seq<BatchRecord>, before: map<nat, Time>, now: Time, cfg: Config, backoff: BatchRecord -> Time,
      accepts: nat -> bool)
    requires InBatchOrder(list)
    ensures InBatchOrder(Wanted(list, before, now, cfg, backoff, accepts))
  {
    if list != [] {
      var n := |list| - 1;
      WantedInOrder(list[..n], before, now, cfg, backoff, accepts);
      var w := Wanted(list[..n], before, now, cfg, backoff, accepts);
      forall i | 0 <= i < |w| ensures w[i].batchNo < list[n].batchNo {
        WantedMember(list[..n], before, now, cfg, backoff, accepts, w[i]);
      }
    }
  }

  // ---- What settlement means for the store -------------------------------------------

  /** From `now` on no delivery, whoever sends it and however late, is granted a lease of this batch. */
  ghost predicate NeverGranted(s: Checkpoint, no: nat, leaseTime: nat, maxAttempts: nat, now: Time) {
    forall owner: Owner, later: Time | now <= later ::
      LeaseStep(s, no, owner, leaseTime, maxAttempts, later).result != Acquired
  }

  ghost predicate HeldAt(b: BatchRecord, now: Time) {
    b.state == Leased && b.leaseExpires.Some? && now < b.leaseExpires.value
  }

  /** The job is open and the listing is that of its batches. */
  ghost predicate OpenListing(s: Checkpoint, list: seq<BatchRecord>) {
    && IsOpen(s)
    && forall i | 0 <= i < |list| :: list[i].batchNo in s.batches && s.batches[list[i].batchNo] == list[i]
  }

  /** A batch of an open job is settled exactly when it is DONE, or nobody holds
      it and no delivery will be granted a lease of it. */
  lemma SettledExactlyWhen(s: Checkpoint, b: BatchRecord, owner: Owner, leaseTime: nat, maxAttempts: nat, now: Time)
    requires OpenListing(s, [b])
    ensures Settled(b, maxAttempts, now) <==>
              b.state == Done || (!HeldAt(b, now) && NeverGranted(s, b.batchNo, leaseTime, maxAttempts, now))
  {
    assert [b][0] == b && s.batches[b.batchNo] == b;
    LeaseAnswersExactly(s, b.batchNo, owner, leaseTime, maxAttempts, now);
    if b.state == Done || (!HeldAt(b, now) && b.attempts >= maxAttempts) {
      forall someone: Owner, later: Time | now <= later
        ensures LeaseStep(s, b.batchNo, someone, leaseTime, maxAttempts, later).result != Acquired
      {
        LeaseAnswersExactly(s, b.batchNo, someone, leaseTime, maxAttempts, later);
      }
    }
  }

  /** The loop ends as finished exactly when it is not cancelled and every listed
      batch is DONE, or held by nobody and never to be leased again. */
  lemma FinishedExactlyWhen(
      cfg: Config, poll: Poll, deadline: Time, s: Checkpoint, leaseTime: nat, owner: Owner)
    requires OpenListing(s, poll.list)
    ensures Leave(cfg, poll, deadline) == Some(Finished) <==>
              && !poll.cancelled
              && forall i | 0 <= i < |poll.list| ::
                   var b := poll.list[i];
                   || b.state == Done
                   || (!HeldAt(b, poll.wall) && NeverGranted(s, b.batchNo, leaseTime, cfg.maxBatchAttempts, poll.wall))
  {
    forall i | 0 <= i < |poll.list|
      ensures var b := poll.list[i];
              Settled(b, cfg.maxBatchAttempts, poll.wall) <==>
                || b.state == Done
                || (!HeldAt(b, poll.wall) && NeverGranted(s, b.batchNo, leaseTime, cfg.maxBatchAttempts, poll.wall))
    {
      SettledExactlyWhen(s, poll.list[i], owner, leaseTime, cfg.maxBatchAttempts, poll.wall);
    }
  }

  /** Which batches a round wants: those the store would lease at once, that
      nobody is known to be about to take, and that have rested long enough. */
  lemma DispatchableExactlyWhen(
      s: Checkpoint, b: BatchRecord, dispatched: map<nat, Time>, now: Time, cfg: Config, backoff: BatchRecord -> Time,
      owner: Owner, leaseTime: nat)
    requires OpenListing(s, [b])
    ensures Dispatchable(b, dispatched, now, cfg, backoff) <==>
              && LeaseStep(s, b.batchNo, owner, leaseTime, cfg.maxBatchAttempts, now).result == Acquired
              && !(b.state != Leased && b.batchNo in dispatched && b.updatedAt <= dispatched[b.batchNo]
                   && now < dispatched[b.batchNo] + cfg.stall)
              && !(b.state == Incomplete && b.completedAt.Some? && now < b.completedAt.value + backoff(b))
  {
    assert [b][0] == b && s.batches[b.batchNo] == b;
    LeaseAnswersExactly(s, b.batchNo, owner, leaseTime, cfg.maxBatchAttempts, now);
  }

  /** So a round sends only batches that a delivery would be leased at once. */
  lemma SentCanBeLeased(
      s: Checkpoint, list: seq<BatchRecord>, before: map<nat, Time>, now: Time, cfg: Config,
      backoff: BatchRecord -> Time, accepts: nat -> bool, owner: Owner, leaseTime: nat)
    requires OpenListing(s, list) && InBatchOrder(list)
    ensures forall b | b in RoundFor(list, before, now, cfg, backoff, accepts) ::
              LeaseStep(s, b.batchNo, owner, leaseTime, cfg.maxBatchAttempts, now).result == Acquired
  {
    RoundIsBounded(list, before, now, cfg, backoff, accepts);
    forall b | b in RoundFor(list, before, now, cfg, backoff, accepts)
      ensures LeaseStep(s, b.batchNo, owner, leaseTime, cfg.maxBatchAttempts, now).result == Acquired
    {
      assert b in list;
      DispatchableExactlyWhen(s, b, before, now, cfg, backoff, owner, leaseTime);
    }
  }

  // ---- The loop -------------------------------------------------------------------

  datatype Exit = CancelRequest | Finished | Systemic | Deadline

  /** What one turn of the loop observes. */
  datatype Poll = Poll(cancelled: bool, list: seq<BatchRecord>, wall: Time, clock: Time,
                       accepts: nat -> bool, sentAt: nat -> Time, backoff: BatchRecord -> Time)

  datatype Verdicts = Verdicts(budgets: seq<string>, halt: Option<string>)

  /** Why the loop leaves at this poll, if it does. */
  function Leave(cfg: Config, poll: Poll, deadline: Time): Option<Exit> {
    if poll.cancelled then Some(CancelRequest)
    else if AllSettled(poll.list, cfg.maxBatchAttempts, poll.wall) then Some(Finished)
    else if SystemicPermanentFailure(poll.list) then Some(Systemic)
    else if poll.clock >= deadline then Some(Deadline)
    else None
  }

  function StartingBudgets(job: ImpactJob): seq<string> {
    if job.rowsInScope < job.rowsTotal && ROW_BUDGET !in job.budgetExhausted then job.budgetExhausted + [ROW_BUDGET]
    else job.budgetExhausted
  }

  function Recorded(job: ImpactJob, exit: Exit): Verdicts {
    match exit
    case Deadline => Verdicts(StartingBudgets(job) + [MAX_MISSION], job.haltReason)
    case Systemic => Verdicts(StartingBudgets(job), Some(PERMANENT_FAILURE))
    case _ => Verdicts(StartingBudgets(job), job.haltReason)
  }

  /** Which observation ends the loop, and with which of the reasons that hold. */
  lemma LeaveExactly(cfg: Config, poll: Poll, deadline: Time)
    ensures var leave := Leave(cfg, poll, deadline);
            var settled := forall i | 0 <= i < |poll.list| :: Settled(poll.list[i], cfg.maxBatchAttempts, poll.wall);
            && (leave == Some(CancelRequest) <==> poll.cancelled)
            && (leave == Some(Finished) <==> !poll.cancelled && settled)
            && (leave == Some(Systemic) <==> !poll.cancelled && !settled && SystemicPermanentFailure(poll.list))
            && (leave == Some(Deadline) <==>
                  !poll.cancelled && !settled && !SystemicPermanentFailure(poll.list) && deadline <= poll.clock)
  {
  }

  /** What each exit leaves on record: earlier reasons stay, rows outside the
      budget are always noted, the deadline is noted exactly by those that leave
      by it, and the halt reason is replaced exactly by a systemic failure. */
  lemma RecordedExactly(job: ImpactJob, exit: Exit)
    ensures var r := Recorded(job, exit);
            && (forall b :: b in r.budgets <==>
                  || b in job.budgetExhausted
                  || (b == "ROW_BUDGET" && job.rowsInScope < job.rowsTotal)
                  || (b == "MAX_MISSION_SECONDS" && exit == Deadline))
            && job.budgetExhausted <= r.budgets
            && |r.budgets| == |job.budgetExhausted|
                 + (if job.rowsInScope < job.rowsTotal && "ROW_BUDGET" !in job.budgetExhausted then 1 else 0)
                 + (if exit == Deadline then 1 else 0)
            && r.halt == if exit == Systemic then Some("CONNECTOR_PERMANENT_FAILURE") else job.haltReason
  {
  }

  function PollBound(maxMission: nat, pollInterval: nat): nat
    requires pollInterval > 0
  {
    (maxMission + pollInterval - 1) / pollInterval + 1
  }

  /** The bound is the number of intervals that fit the mission time, rounded up, and one poll more. */
  lemma PollBoundExactly(maxMission: nat, pollInterval: nat)
    requires pollInterval > 0
    ensures (PollBound(maxMission, pollInterval) - 1) * pollInterval >= maxMission
    ensures (PollBound(maxMission, pollInterval) - 1) * pollInterval < maxMission + pollInterval
  {
    var q := Quotient(maxMission + pollInterval - 1, pollInterval);
  }

  /** What the coordinator has on record as sent when poll `k` starts, and what it then sends. */
  function DispatchedAt(cfg: Config, polls: nat -> Poll, k: nat): map<nat, Time>
    decreases k, 0
  {
    if k == 0 then map[]
    else Stamped(DispatchedAt(cfg, polls, k - 1), RoundAt(cfg, polls, k - 1), polls(k - 1).sentAt)
  }

  function RoundAt(cfg: Config, polls: nat -> Poll, k: nat): seq<BatchRecord>
    decreases k, 1
  {
    var (poll, before) := (polls(k), DispatchedAt(cfg, polls, k));
    RoundFor(poll.list, before, poll.wall, cfg, poll.backoff, poll.accepts)
  }

  ghost predicate SleptAfter(polls: nat -> Poll, k: nat, interval: nat) {
    polls(k + 1).clock >= polls(k).clock + interval
  }

  /** Sleeping moves the clock on by at least the poll interval. */
  ghost predicate ClockAdvances(polls: nat -> Poll, started: Time, interval: nat) {
    && polls(0).clock >= started
    && forall k: nat :: SleptAfter(polls, k, interval)
  }

  /** None of the first `k` polls gave a reason to leave. */
  ghost predicate Uneventful(cfg: Config, polls: nat -> Poll, deadline: Time, k: nat) {
    k == 0 || (Uneventful(cfg, polls, deadline, k - 1) && Leave(cfg, polls(k - 1), deadline) == None)
  }

  /** `rounds` are the batches sent after each of the first polls. */
  ghost predicate SentBy(cfg: Config, polls: nat -> Poll, rounds: seq<seq<BatchRecord>>) {
    rounds == [] ||
    (SentBy(cfg, polls, rounds[..|rounds| - 1]) && rounds[|rounds| - 1] == RoundAt(cfg, polls, |rounds| - 1))
  }

  method CheckExit(cfg: Config, poll: Poll, deadline: Time) returns (leave: Option<Exit>)
    ensures leave == Leave(cfg, poll, deadline) && (leave.None? ==> poll.clock < deadline)
  {
    if poll.cancelled {
      return Some(CancelRequest);
    }
    if AllSettled(poll.list, cfg.maxBatchAttempts, poll.wall) {
      return Some(Finished);
    }
    if SystemicPermanentFailure(poll.list) {
      return Some(Systemic);
    }
    if poll.clock >= deadline {
      return Some(Deadline);
    }
    return None;
  }

  method SendAt(cfg: Config, polls: nat -> Poll, k: nat, before: map<nat, Time>)
    returns (dispatched: map<nat, Time>, sent: seq<BatchRecord>)
    requires InBatchOrder(polls(k).list) && before == DispatchedAt(cfg, polls, k)
    ensures sent == RoundAt(cfg, polls, k) && dispatched == DispatchedAt(cfg, polls, k + 1)
  {
    var poll := polls(k);
    dispatched, sent := DispatchRound(poll.list, before, poll.wall, cfg, poll.backoff, poll.accepts, poll.sentAt);
  }

  /** The loop leaves at the first poll that gives a reason to, and the deadline
      gives one within `PollBound` polls. `rounds` are the batches sent after
      each earlier poll. */
  method PollUntilExit(cfg: Config, polls: nat -> Poll, started: Time)
    returns (exit: Exit, count: nat, rounds: seq<seq<BatchRecord>>)
    requires cfg.pollInterval > 0 && ClockAdvances(polls, started, cfg.pollInterval)
    requires forall k: nat :: InBatchOrder(polls(k).list)
    ensures 1 <= count <= PollBound(cfg.maxMission, cfg.pollInterval)
    ensures Leave(cfg, polls(count - 1), started + cfg.maxMission) == Some(exit)
    ensures Uneventful(cfg, polls, started + cfg.maxMission, count - 1)
    ensures |rounds| == count - 1 && SentBy(cfg, polls, rounds)
  {
    var deadline := started + cfg.maxMission;
    var dispatched: map<nat, Time> := map[];
    rounds := [];
    while true
      invariant SentBy(cfg, polls, rounds) && dispatched == DispatchedAt(cfg, polls, |rounds|)
      invariant Uneventful(cfg, polls, deadline, |rounds|)
      decreases deadline - polls(|rounds|).clock
    {
      var k := |rounds|;
      var leave := CheckExit(cfg, polls(k), deadline);
      if leave.Some? {
        PollsAreBounded(cfg, polls, started, k);
        return leave.value, k + 1, rounds;
      }
      var sent;
      dispatched, sent := SendAt(cfg, polls, k, dispatched);
      TurnStep(cfg, polls, deadline, rounds, sent);
      assert SleptAfter(polls, k, cfg.pollInterval);
      rounds := rounds + [sent];
    }
  }

  /** A whole run of the coordinator up to finalizing, with the reasons it leaves on record. */
  method RunLoop(job: ImpactJob, cfg: Config, polls: nat -> Poll, started: Time)
    returns (exit: Exit, recorded: Verdicts, count: nat, rounds: seq<seq<BatchRecord>>)
    requires cfg.pollInterval > 0 && ClockAdvances(polls, started, cfg.pollInterval)
    requires forall k: nat :: InBatchOrder(polls(k).list)
    ensures 1 <= count <= PollBound(cfg.maxMission, cfg.pollInterval)
    ensures Leave(cfg, polls(count - 1), started + cfg.maxMission) == Some(exit)
    ensures Uneventful(cfg, polls, started + cfg.maxMission, count - 1)
    ensures |rounds| == count - 1 && SentBy(cfg, polls, rounds)
    ensures recorded == Recorded(job, exit)
    ensures var poll := polls(count - 1);
            exit == Finished <==>
              !poll.cancelled && forall i | 0 <= i < |poll.list| ::
                var b := poll.list[i];
                b.state == Done || (cfg.maxBatchAttempts <= b.attempts && !HeldAt(b, poll.wall))
  {
    var budgets, halt := job.budgetExhausted, job.haltReason;
    if job.rowsInScope < job.rowsTotal && ROW_BUDGET !in budgets {
      budgets := budgets + [ROW_BUDGET];
    }
    exit, count, rounds := PollUntilExit(cfg, polls, started);
    match exit {
      case Systemic => halt := Some(PERMANENT_FAILURE);
      case Deadline => budgets := budgets + [MAX_MISSION];
      case _ =>
    }
    recorded := Verdicts(budgets, halt);
  }

  /** A coordinator that lost the race to finalize answers with the winner's verdict. */
  function WinningVerdict(created: bool, stored: Option<ImpactJob>, computed: ImpactAggregate): ImpactAggregate {
    if !created && stored.Some? && stored.value.aggregate.Some? then stored.value.aggregate.value else computed
  }

  /** Storing a verdict, whatever has happened since it was computed: the first
      one stored is everybody's answer. */
  method StoreVerdict(store: InMemoryImpactStore, key: JobKey, computed: ImpactAggregate, now: Time)
    returns (agg: ImpactAggregate)
    modifies store
    ensures forall other | other != key :: store.View(other) == old(store.View(other))
    ensures store.View(key) == FinalizeStep(old(store.View(key)), computed.status, computed, now).after
    ensures var job := old(store.View(key)).job;
            agg == if job.Some? && job.value.finalizedAt.Some? && job.value.aggregate.Some?
                   then job.value.aggregate.value else computed
  {
    var stored, created := store.FinalizeJob(key, computed.status, computed, now);
    agg := WinningVerdict(created, stored, computed);
  }

  /** Finalizing without interference: a finalized job answers with its stored
      verdict, any other is aggregated from its batches and finalized with the result. */
  method FinishJob(store: InMemoryImpactStore, key: JobKey, now: Time)
    returns (agg: Option<ImpactAggregate>, ghost list: seq<BatchRecord>)
    requires store.Valid()
    modifies store
    ensures forall other | other != key :: store.View(other) == old(store.View(other))
    ensures var job := old(store.View(key).job);
            if job.None? then agg == None && store.View(key) == old(store.View(key))
            else if job.value.finalizedAt.Some? && job.value.aggregate.Some? then
              agg == job.value.aggregate && store.View(key) == old(store.View(key))
            else
              && Listing(old(store.View(key).batches), list)
              && agg == Some(AggregateOf(job.value, list))
              && store.View(key) == FinalizeStep(old(store.View(key)), agg.value.status, agg.value, now).after
  {
    list := [];
    if key !in store.jobs {
      return None, list;
    }
    var job := store.jobs[key];
    if job.finalizedAt.Some? && job.aggregate.Some? {
      return job.aggregate, list;
    }
    var batches := store.ListBatches(key);
    list := batches;
    var computed := AggregateJob(job, batches);
    var answer := StoreVerdict(store, key, computed, now);
    return Some(answer), list;
  }

  lemma NextMultiple(k: nat, c: nat)
    ensures (k + 1) * c == k * c + c
  {
  }

  lemma {:induction false} ClockAt(polls: nat -> Poll, started: Time, interval: nat, k: nat)
    requires ClockAdvances(polls, started, interval)
    ensures polls(k).clock >= started + k * interval
  {
    if k > 0 {
      ClockAt(polls, started, interval, k - 1);
      NextMultiple(k - 1, interval);
      assert SleptAfter(polls, k - 1, interval);
    }
  }

  lemma TurnStep(cfg: Config, polls: nat -> Poll, deadline: Time, rounds: seq<seq<BatchRecord>>, sent: seq<BatchRecord>)
    requires SentBy(cfg, polls, rounds) && sent == RoundAt(cfg, polls, |rounds|)
    requires Uneventful(cfg, polls, deadline, |rounds|) && Leave(cfg, polls(|rounds|), deadline) == None
    ensures SentBy(cfg, polls, rounds + [sent]) && Uneventful(cfg, polls, deadline, |rounds| + 1)
  {
    assert (rounds + [sent])[..|rounds|] == rounds;
  }

  /** Polls that gave no reason to leave came before the deadline, and so were few. */
  lemma PollsAreBounded(cfg: Config, polls: nat -> Poll, started: Time, k: nat)
    requires cfg.pollInterval > 0 && ClockAdvances(polls, started, cfg.pollInterval)
    requires Uneventful(cfg, polls, started + cfg.maxMission, k)
    ensures k + 1 <= PollBound(cfg.maxMission, cfg.pollInterval)
  {
    if k > 0 {
      ClockAt(polls, started, cfg.pollInterval, k - 1);
    }
    EnoughPolls(k, cfg.maxMission, cfg.pollInterval);
  }

  lemma EnoughPolls(k: nat, maxMission: nat, interval: nat)
    requires interval > 0 && (k > 0 ==> (k - 1) * interval < maxMission)
    ensures k + 1 <= PollBound(maxMission, interval)
  {
    var q := (maxMission + interval - 1) / interval;
    assert q * interval <= maxMission + interval - 1 < q * interval + interval;
    if k > q {
      MulMono(q, k - 1, interval);
    }
  }

  /** Leaving by the deadline, by a systemic failure, or with rows outside the
      budget records a reason that no aggregate of the job can pass over. */
  lemma ExitRulesOutPass(job: ImpactJob, exit: Exit, batches: seq<BatchRecord>)
    requires exit == Deadline || exit == Systemic || job.rowsInScope < job.rowsTotal
    ensures var r := Recorded(job, exit);
            var agg := AggregateOf(job.(budgetExhausted := r.budgets, haltReason := r.halt), batches);
            agg.decision != PassEligible && agg.completeness != CompleteScan && agg.reasons != []
  {
    var r := Recorded(job, exit);
    if exit == Deadline {
      BudgetsAsReasons(r.budgets);
    }
  }
}
