/** What the coordinator's in-flight count bounds across polls
    (`backend/app/impact/coordinator.py`), and what it misses. */
module Backpressure {
  import opened ImpactModels
  import opened ImpactStore
  import opened Planning
  import opened Coordinator
  import opened Protocol

  /** Sent and not heard of since, or held by a worker, however late that worker is. */
  predicate Outstanding(b: BatchRecord, dispatched: map<nat, Time>) {
    || b.state == Leased
    || (b.state != Done && b.batchNo in dispatched && b.updatedAt <= dispatched[b.batchNo])
  }

  /** Outstanding, but no longer counted as in flight. */
  predicate Overdue(b: BatchRecord, dispatched: map<nat, Time>, now: Time, stall: Time) {
    Outstanding(b, dispatched) && !InFlight(b, dispatched, now, stall)
  }

  /** A batch in flight is outstanding; it is missed exactly when its lease has
      expired, or it was sent and the stall time has passed. */
  lemma OverdueExactly(b: BatchRecord, dispatched: map<nat, Time>, now: Time, stall: Time)
    ensures InFlight(b, dispatched, now, stall) ==> Outstanding(b, dispatched)
    ensures Overdue(b, dispatched, now, stall) <==>
              if b.state == Leased then !LeaseLive(b, now)
              else Outstanding(b, dispatched) && now - dispatched[b.batchNo] >= stall
  {
  }

  function CountOutstanding(list: seq<BatchRecord>, dispatched: map<nat, Time>): nat {
    if list == [] then 0
    else CountOutstanding(list[..|list| - 1], dispatched)
         + if Outstanding(list[|list| - 1], dispatched) then 1 else 0
  }

  function CountMembers(list: seq<BatchRecord>, sent: seq<BatchRecord>): nat {
    if list == [] then 0
    else CountMembers(list[..|list| - 1], sent) + if list[|list| - 1] in sent then 1 else 0
  }

  /** Overdue batches that a round did not send again. */
  function LeftOverdue(
      list: seq<BatchRecord>, dispatched: map<nat, Time>, now: Time, stall: Time, sent: seq<BatchRecord>): nat
  {
    if list == [] then 0
    else LeftOverdue(list[..|list| - 1], dispatched, now, stall, sent)
         + if Overdue(list[|list| - 1], dispatched, now, stall) && list[|list| - 1] !in sent then 1 else 0
  }

  lemma {:induction false} SameMembers(list: seq<BatchRecord>, a: seq<BatchRecord>, b: seq<BatchRecord>)
    requires forall x | x in list :: x in a <==> x in b
    ensures CountMembers(list, a) == CountMembers(list, b)
  {
    if list != [] {
      SameMembers(list[..|list| - 1], a, b);
    }
  }

  lemma LastOfBoth(list: seq<BatchRecord>, sent: seq<BatchRecord>)
    requires InBatchOrder(list) && InBatchOrder(sent) && (forall b | b in sent :: b in list)
    requires list != [] && list[|list| - 1] in sent
    ensures sent[|sent| - 1] == list[|list| - 1]
    ensures forall j | 0 <= j < |sent| - 1 :: sent[j] in list[..|list| - 1]
  {
    var (n, m) := (|list| - 1, |sent| - 1);
    var k :| 0 <= k <= m && sent[k] == list[n];
    assert sent[m] in list;
    var i :| 0 <= i <= n && list[i] == sent[m];
    forall j | 0 <= j < m ensures sent[j] in list[..n] {
      assert sent[j] in list && sent[j].batchNo < sent[m].batchNo;
    }
  }

  lemma AllButLast(list: seq<BatchRecord>, sent: seq<BatchRecord>)
    requires InBatchOrder(list) && list != [] && sent != [] && sent[|sent| - 1] == list[|list| - 1]
    ensures forall x | x in list[..|list| - 1] :: x in sent <==> x in sent[..|sent| - 1]
  {
    var (n, m) := (|list| - 1, |sent| - 1);
    assert sent == sent[..m] + [sent[m]];
    forall x | x in list[..n] ensures x != list[n] {
      var j :| 0 <= j < n && list[..n][j] == x;
      assert list[j].batchNo < list[n].batchNo;
    }
  }

  lemma AllInRest(list: seq<BatchRecord>, sent: seq<BatchRecord>)
    requires list != [] && list[|list| - 1] !in sent && forall b | b in sent :: b in list
    ensures forall b | b in sent :: b in list[..|list| - 1]
  {
    assert list == list[..|list| - 1] + [list[|list| - 1]];
  }

  lemma {:induction false} NoMembers(list: seq<BatchRecord>)
    ensures CountMembers(list, []) == 0
  {
    if list != [] {
      NoMembers(list[..|list| - 1]);
    }
  }

  lemma {:induction false} AllSentAreListed(list: seq<BatchRecord>, sent: seq<BatchRecord>)
    requires InBatchOrder(list) && InBatchOrder(sent) && forall b | b in sent :: b in list
    ensures CountMembers(list, sent) == |sent|
    decreases |list|
  {
    if sent == [] {
      NoMembers(list);
    } else {
      assert sent[0] in list;
      var (n, m) := (|list| - 1, |sent| - 1);
      if list[n] in sent {
        LastOfBoth(list, sent);
        AllSentAreListed(list[..n], sent[..m]);
        AllButLast(list, sent);
        SameMembers(list[..n], sent, sent[..m]);
      } else {
        AllInRest(list, sent);
        AllSentAreListed(list[..n], sent);
      }
    }
  }

  /** Sending a batch that was not in flight makes it outstanding; the others are as they were. */
  ghost predicate Sends(
      list: seq<BatchRecord>, before: map<nat, Time>, after: map<nat, Time>, now: Time, stall: Time, sent: seq<BatchRecord>)
  {
    forall b | b in list ::
      if b in sent then !InFlight(b, before, now, stall) && Outstanding(b, after) else SameEntry(after, before, b.batchNo)
  }

  lemma {:induction false} SentAccounts(
      list: seq<BatchRecord>, before: map<nat, Time>, after: map<nat, Time>, now: Time, stall: Time, sent: seq<BatchRecord>)
    requires Sends(list, before, after, now, stall, sent)
    ensures CountOutstanding(list, after)
         == CountInFlight(list, before, now, stall) + CountMembers(list, sent) + LeftOverdue(list, before, now, stall, sent)
  {
    if list != [] {
      var b := list[|list| - 1];
      assert forall x | x in list[..|list| - 1] :: x in list;
      SentAccounts(list[..|list| - 1], before, after, now, stall, sent);
      assert b in list;
      OverdueExactly(b, before, now, stall);
    }
  }

  /** No record of a sent batch is newer than its send. */
  ghost predicate StampsAreFresh(sent: seq<BatchRecord>, sentAt: nat -> Time) {
    forall b | b in sent :: b.updatedAt <= sentAt(b.batchNo)
  }

  lemma RoundSends(
      list: seq<BatchRecord>, before: map<nat, Time>, now: Time, cfg: Config, backoff: BatchRecord -> Time,
      accepts: nat -> bool, sentAt: nat -> Time)
    requires InBatchOrder(list) && StampsAreFresh(RoundFor(list, before, now, cfg, backoff, accepts), sentAt)
    ensures var sent := RoundFor(list, before, now, cfg, backoff, accepts);
            Sends(list, before, Stamped(before, sent, sentAt), now, cfg.stall, sent)
  {
    var sent := RoundFor(list, before, now, cfg, backoff, accepts);
    RoundIsBounded(list, before, now, cfg, backoff, accepts);
    forall b | b in list
      ensures if b in sent
              then !InFlight(b, before, now, cfg.stall) && Outstanding(b, Stamped(before, sent, sentAt))
              else SameEntry(Stamped(before, sent, sentAt), before, b.batchNo)
    {
      if b in sent {
        var k: nat :| k < |sent| && sent[k] == b;
        StampedAt(before, sent, sentAt, k);
      } else {
        forall x | x in sent ensures x.batchNo != b.batchNo {
          assert x in list;
        }
        StampedElsewhere(before, sent, sentAt, b.batchNo);
      }
    }
  }

  /** After a round, the batches outstanding are those in flight before it, those
      it sent, and the overdue ones it did not send again. */
  lemma RoundAccounts(
      list: seq<BatchRecord>, before: map<nat, Time>, now: Time, cfg: Config, backoff: BatchRecord -> Time,
      accepts: nat -> bool, sentAt: nat -> Time)
    requires InBatchOrder(list) && StampsAreFresh(RoundFor(list, before, now, cfg, backoff, accepts), sentAt)
    ensures var sent := RoundFor(list, before, now, cfg, backoff, accepts);
            var inflight := CountInFlight(list, before, now, cfg.stall);
            var left := LeftOverdue(list, before, now, cfg.stall, sent);
            CountOutstanding(list, Stamped(before, sent, sentAt)) == inflight + |sent| + left
  {
    var sent := RoundFor(list, before, now, cfg, backoff, accepts);
    RoundIsBounded(list, before, now, cfg, backoff, accepts);
    RoundSends(list, before, now, cfg, backoff, accepts, sentAt);
    SentAccounts(list, before, Stamped(before, sent, sentAt), now, cfg.stall, sent);
    AllSentAreListed(list, sent);
  }

  lemma {:induction false} NoneLeftOut(
      list: seq<BatchRecord>, dispatched: map<nat, Time>, now: Time, stall: Time, sent: seq<BatchRecord>)
    ensures LeftOverdue(list, dispatched, now, stall, sent) == 0
       <==> forall k | 0 <= k < |list| && Overdue(list[k], dispatched, now, stall) :: list[k] in sent
  {
    if list != [] {
      var n := |list| - 1;
      NoneLeftOut(list[..n], dispatched, now, stall, sent);
      assert forall k | 0 <= k < n :: list[..n][k] == list[k];
    }
  }

  /** Whether the limit will hold after a round can be told before it: no more
      than the limit is in flight, and either the wanted batches fill the room
      and every overdue batch is among the first of them, or they leave room
      enough for the overdue batches nobody wants. */
  ghost predicate LimitWillHold(
      list: seq<BatchRecord>, before: map<nat, Time>, now: Time, cfg: Config, backoff: BatchRecord -> Time,
      accepts: nat -> bool)
  {
    var inflight := CountInFlight(list, before, now, cfg.stall);
    var wanted := Wanted(list, before, now, cfg, backoff, accepts);
    inflight <= cfg.maxInflight &&
    var room := cfg.maxInflight - inflight;
    if room <= |wanted|
    then forall k | 0 <= k < |list| && Overdue(list[k], before, now, cfg.stall) :: list[k] in wanted[..room]
    else LeftOverdue(list, before, now, cfg.stall, wanted) <= room - |wanted|
  }

  lemma LimitHoldsExactlyWhen(
      list: seq<BatchRecord>, before: map<nat, Time>, now: Time, cfg: Config, backoff: BatchRecord -> Time,
      accepts: nat -> bool, sentAt: nat -> Time)
    requires InBatchOrder(list) && StampsAreFresh(RoundFor(list, before, now, cfg, backoff, accepts), sentAt)
    ensures CountOutstanding(list, Stamped(before, RoundFor(list, before, now, cfg, backoff, accepts), sentAt))
            <= cfg.maxInflight
       <==> LimitWillHold(list, before, now, cfg, backoff, accepts)
  {
    var inflight := CountInFlight(list, before, now, cfg.stall);
    var wanted := Wanted(list, before, now, cfg, backoff, accepts);
    var sent := RoundFor(list, before, now, cfg, backoff, accepts);
    RoundAccounts(list, before, now, cfg, backoff, accepts, sentAt);
    if inflight <= cfg.maxInflight && cfg.maxInflight - inflight <= |wanted| {
      assert sent == wanted[..cfg.maxInflight - inflight];
      NoneLeftOut(list, before, now, cfg.stall, sent);
    }
  }

  // ---- Across polls ----------------------------------------------------------------------

  /** Nothing the coordinator still waits for is late: no lease has expired and nothing sent has stalled. */
  ghost predicate OnTime(cfg: Config, polls: nat -> Poll, k: nat) {
    forall b | b in polls(k).list :: !Overdue(b, DispatchedAt(cfg, polls, k), polls(k).wall, cfg.stall)
  }

  /** Between two polls no batch becomes outstanding that this coordinator did not send. */
  ghost predicate OnlySentStart(cfg: Config, polls: nat -> Poll, k: nat) {
    var (a, b, sent) := (polls(k).list, polls(k + 1).list, DispatchedAt(cfg, polls, k + 1));
    |a| == |b| && forall i | 0 <= i < |a| :: Outstanding(b[i], sent) ==> Outstanding(a[i], sent)
  }

  ghost predicate Undisturbed(cfg: Config, polls: nat -> Poll, k: nat) {
    && InBatchOrder(polls(k).list) && OnTime(cfg, polls, k)
    && StampsAreFresh(RoundAt(cfg, polls, k), polls(k).sentAt)
  }

  lemma {:induction false} FewerOutstanding(a: seq<BatchRecord>, b: seq<BatchRecord>, dispatched: map<nat, Time>)
    requires |a| == |b| && forall i | 0 <= i < |a| :: Outstanding(b[i], dispatched) ==> Outstanding(a[i], dispatched)
    ensures CountOutstanding(b, dispatched) <= CountOutstanding(a, dispatched)
  {
    if a != [] {
      FewerOutstanding(a[..|a| - 1], b[..|b| - 1], dispatched);
    }
  }

  lemma {:induction false} NoneLeft(
      list: seq<BatchRecord>, dispatched: map<nat, Time>, now: Time, stall: Time, sent: seq<BatchRecord>)
    requires forall b | b in list :: !Overdue(b, dispatched, now, stall)
    ensures LeftOverdue(list, dispatched, now, stall, sent) == 0
    ensures CountInFlight(list, dispatched, now, stall) == CountOutstanding(list, dispatched)
  {
    if list != [] {
      var b := list[|list| - 1];
      NoneLeft(list[..|list| - 1], dispatched, now, stall, sent);
      assert b in list;
      OverdueExactly(b, dispatched, now, stall);
    }
  }

  lemma RoundKeepsLimit(cfg: Config, polls: nat -> Poll, k: nat)
    requires Undisturbed(cfg, polls, k)
    requires CountOutstanding(polls(k).list, DispatchedAt(cfg, polls, k)) <= cfg.maxInflight
    ensures CountOutstanding(polls(k).list, DispatchedAt(cfg, polls, k + 1)) <= cfg.maxInflight
  {
    var (poll, before, sent) := (polls(k), DispatchedAt(cfg, polls, k), RoundAt(cfg, polls, k));
    RoundAccounts(poll.list, before, poll.wall, cfg, poll.backoff, poll.accepts, poll.sentAt);
    RoundIsBounded(poll.list, before, poll.wall, cfg, poll.backoff, poll.accepts);
    NoneLeft(poll.list, before, poll.wall, cfg.stall, sent);
  }

  /** As long as no lease expires, nothing sent stalls, and nobody else starts a
      batch, the batches outstanding after every round stay within the limit. */
  lemma {:induction false} LimitHoldsWhileOnTime(cfg: Config, polls: nat -> Poll, n: nat)
    requires CountOutstanding(polls(0).list, map[]) <= cfg.maxInflight
    requires forall k: nat | k <= n :: Undisturbed(cfg, polls, k)
    requires forall k: nat | k < n :: OnlySentStart(cfg, polls, k)
    ensures CountOutstanding(polls(n).list, DispatchedAt(cfg, polls, n + 1)) <= cfg.maxInflight
  {
    if n > 0 {
      LimitHoldsWhileOnTime(cfg, polls, n - 1);
      assert OnlySentStart(cfg, polls, n - 1);
      FewerOutstanding(polls(n - 1).list, polls(n).list, DispatchedAt(cfg, polls, n));
    }
    assert Undisturbed(cfg, polls, n);
    RoundKeepsLimit(cfg, polls, n);
  }

  // ---- And when one lease expires -----------------------------------------------------------

  /** Two batches; a lease lasts a minute longer than the shortest batch timeout of thirty seconds. */
  ghost predicate TwoBatches(p: Setup) {
    p.Valid() && p.Count() == 2 && p.leaseTime == 90 && p.maxAttempts > 0
  }

  /** One batch at a time, and polls thirty seconds apart. */
  function OneAtATime(p: Setup): Config { Config(p.maxAttempts, 1, p.leaseTime + 30, 540, 30) }

  function FreshTile(p: Setup, no: nat): BatchRecord {
    FreshBatch(no, TileStart(no, p.batchSize), TileEnd(no, p.batchSize, p.rowsInScope), 0)
  }

  /** The first batch, leased at once for its first attempt. */
  function HeldTile(p: Setup, owner: Owner): BatchRecord {
    FreshTile(p, 0).(state := Leased, attempts := 1, leaseOwner := Some(owner),
                     leaseExpires := Some(p.leaseTime), updatedAt := 0)
  }

  /** Only the first poll gets the first batch through to the dispatcher. */
  function LatePoll(p: Setup, owner: Owner, backoff: BatchRecord -> Time, k: nat): Poll {
    Poll(false, [if k == 0 then FreshTile(p, 0) else HeldTile(p, owner), FreshTile(p, 1)], 30 * k, 30 * k,
         (no: nat) => no != 0 || k == 0, (no: nat) => 30 * k, backoff)
  }

  function LatePolls(p: Setup, owner: Owner, backoff: BatchRecord -> Time): nat -> Poll {
    (k: nat) => LatePoll(p, owner, backoff, k)
  }

  /** What has happened when poll `k` lists the batches: after the first poll a
      worker leases the first batch, and is still at it ever after. */
  ghost function LateRun(owner: Owner, k: nat): seq<Step> {
    if k == 0 then [CreateBatches]
    else if k == 1 then [CreateBatches] + [Deliver(0, 0, owner)] + [Tick(30)]
    else LateRun(owner, k - 1) + [Tick(30)]
  }

  /** The poll sees the batches of this world as they are, and the worker may still complete its batch. */
  ghost predicate SeenBy(w: World, owner: Owner, poll: Poll, k: nat) {
    && ListOf(w.store.batches, 2) == poll.list && w.now == poll.wall == poll.clock
    && (k > 0 ==> 0 in w.tasks && w.tasks[0].owner == owner && HoldsLease(w.store, 0, owner))
  }

  lemma ListOfTwo(batches: map<nat, BatchRecord>)
    requires 0 in batches && 1 in batches
    ensures ListOf(batches, 2) == [batches[0], batches[1]]
  {
    assert ListOf(batches, 0) == [] && ListOf(batches, 1) == [] + [batches[0]] == [batches[0]];
  }

  lemma HeldAt(p: Setup, w: World, owner: Owner)
    requires TwoBatches(p) && JustCreated(p, w)
    ensures var after := AfterDeliver(p, w, 0, 0, owner);
            && 0 in after.store.batches && after.store.batches[0] == HeldTile(p, owner)
            && 1 in after.store.batches && after.store.batches[1] == FreshTile(p, 1)
            && 0 in after.tasks && after.tasks[0].owner == owner && HoldsLease(after.store, 0, owner) && after.now == 0
  {
  }

  ghost predicate JustCreated(p: Setup, w: World)
    requires TwoBatches(p)
  {
    && w.store.job == Some(PlannedJob(p)) && w.now == 0 && w.tasks == map[] && 0 in w.ledger
    && 0 in w.store.batches && w.store.batches[0] == FreshTile(p, 0)
    && 1 in w.store.batches && w.store.batches[1] == FreshTile(p, 1)
  }

  lemma Creation(p: Setup)
    requires TwoBatches(p)
    ensures JustCreated(p, Run(p, Init(p, 0), [CreateBatches]))
  {
    FirstCreation(p, 0);
    assert [] + [CreateBatches] == [CreateBatches];
    RunSnoc(p, Init(p, 0), [], CreateBatches);
  }

  lemma HeldSeen(p: Setup, w: World, owner: Owner, backoff: BatchRecord -> Time)
    requires TwoBatches(p) && JustCreated(p, w)
    ensures SeenBy(Apply(p, AfterDeliver(p, w, 0, 0, owner), Tick(30)), owner, LatePoll(p, owner, backoff, 1), 1)
  {
    HeldAt(p, w, owner);
    ListOfTwo(AfterDeliver(p, w, 0, 0, owner).store.batches);
  }

  lemma FirstRunSeen(p: Setup, owner: Owner, backoff: BatchRecord -> Time, k: nat)
    requires TwoBatches(p) && k <= 1
    ensures SeenBy(Run(p, Init(p, 0), LateRun(owner, k)), owner, LatePoll(p, owner, backoff, k), k)
  {
    var (init, w) := (Init(p, 0), Run(p, Init(p, 0), [CreateBatches]));
    Creation(p);
    if k == 0 {
      ListOfTwo(w.store.batches);
    } else {
      HeldSeen(p, w, owner, backoff);
      RunSnoc(p, init, [CreateBatches], Deliver(0, 0, owner));
      RunSnoc(p, init, [CreateBatches] + [Deliver(0, 0, owner)], Tick(30));
    }
  }

  lemma StaysSeen(p: Setup, w: World, owner: Owner, backoff: BatchRecord -> Time, k: nat)
    requires TwoBatches(p) && k > 0 && SeenBy(w, owner, LatePoll(p, owner, backoff, k), k)
    ensures SeenBy(Apply(p, w, Tick(30)), owner, LatePoll(p, owner, backoff, k + 1), k + 1)
  {
  }

  lemma {:induction false} LateRunSeen(p: Setup, owner: Owner, backoff: BatchRecord -> Time, k: nat)
    requires TwoBatches(p)
    ensures SeenBy(Run(p, Init(p, 0), LateRun(owner, k)), owner, LatePoll(p, owner, backoff, k), k)
  {
    if k > 1 {
      LateRunSeen(p, owner, backoff, k - 1);
      RunSnoc(p, Init(p, 0), LateRun(owner, k - 1), Tick(30));
      StaysSeen(p, Run(p, Init(p, 0), LateRun(owner, k - 1)), owner, backoff, k - 1);
    } else {
      FirstRunSeen(p, owner, backoff, k);
    }
  }

  lemma PairCounts(a: BatchRecord, b: BatchRecord, before: map<nat, Time>, now: Time, stall: Time)
    ensures CountInFlight([a, b], before, now, stall)
         == (if InFlight(a, before, now, stall) then 1 else 0) + (if InFlight(b, before, now, stall) then 1 else 0)
    ensures CountOutstanding([a, b], before)
         == (if Outstanding(a, before) then 1 else 0) + (if Outstanding(b, before) then 1 else 0)
  {
    assert [a, b][..1] == [a] && [a][..0] == [];
    assert CountInFlight([a], before, now, stall) == if InFlight(a, before, now, stall) then 1 else 0;
    assert CountOutstanding([a], before) == if Outstanding(a, before) then 1 else 0;
  }

  lemma PairWanted(a: BatchRecord, b: BatchRecord, before: map<nat, Time>, now: Time, cfg: Config,
                   backoff: BatchRecord -> Time, accepts: nat -> bool)
    requires cfg.maxInflight == 1
    ensures RoundFor([a, b], before, now, cfg, backoff, accepts)
         == if InFlight(a, before, now, cfg.stall) || InFlight(b, before, now, cfg.stall) then []
            else if Dispatchable(a, before, now, cfg, backoff) && accepts(a.batchNo) then [a]
            else if Dispatchable(b, before, now, cfg, backoff) && accepts(b.batchNo) then [b]
            else []
  {
    PairCounts(a, b, before, now, cfg.stall);
    assert [a, b][..1] == [a] && [a][..0] == [];
    assert Wanted([a], before, now, cfg, backoff, accepts)
        == if Dispatchable(a, before, now, cfg, backoff) && accepts(a.batchNo) then [a] else [];
  }

  /** What the coordinator has on record before each of the later polls: the first batch, sent at the start. */
  lemma {:induction false} QuietRounds(p: Setup, owner: Owner, backoff: BatchRecord -> Time, k: nat)
    requires TwoBatches(p) && 1 <= k <= 3
    ensures var (cfg, polls) := (OneAtATime(p), LatePolls(p, owner, backoff));
            && RoundAt(cfg, polls, 0) == [FreshTile(p, 0)] && DispatchedAt(cfg, polls, k) == map[0 := 0]
            && RoundAt(cfg, polls, k) == if k == 3 then [FreshTile(p, 1)] else []
  {
    var (cfg, polls, held, rest) := (OneAtATime(p), LatePolls(p, owner, backoff), HeldTile(p, owner), FreshTile(p, 1));
    if k > 1 {
      QuietRounds(p, owner, backoff, k - 1);
      assert DispatchedAt(cfg, polls, k) == Stamped(map[0 := 0], [], polls(k - 1).sentAt);
    } else {
      var first := FreshTile(p, 0);
      PairWanted(first, rest, map[], 0, cfg, backoff, polls(0).accepts);
      assert RoundAt(cfg, polls, 0) == [first];
      StampedSnoc(map[], [], first, polls(0).sentAt);
      assert [] + [first] == [first] && DispatchedAt(cfg, polls, 0) == map[];
    }
    PairWanted(held, rest, map[0 := 0], 30 * k, cfg, backoff, polls(k).accepts);
  }

  lemma NoReasonToLeave(p: Setup, owner: Owner, backoff: BatchRecord -> Time, k: nat)
    requires TwoBatches(p) && k < 4
    ensures Leave(OneAtATime(p), LatePoll(p, owner, backoff, k), 540) == None
  {
    var (a, b) := (if k == 0 then FreshTile(p, 0) else HeldTile(p, owner), FreshTile(p, 1));
    var list := [a, b];
    assert !Settled(list[1], p.maxAttempts, 30 * k);
    assert !FailedForGood(a) && !FailedForGood(b);
    assert [a][..0] == [] && CountFailed([a]) == 0;
    assert list[..1] == [a] && list[1] == b && CountFailed(list) == 0;
  }

  lemma {:induction false} LatePollsAreLegal(p: Setup, owner: Owner, backoff: BatchRecord -> Time, k: nat)
    requires TwoBatches(p) && k <= 4
    ensures var (cfg, polls) := (OneAtATime(p), LatePolls(p, owner, backoff));
            && ClockAdvances(polls, 0, cfg.pollInterval)
            && Uneventful(cfg, polls, cfg.maxMission, k)
  {
    if k > 0 {
      LatePollsAreLegal(p, owner, backoff, k - 1);
      NoReasonToLeave(p, owner, backoff, k - 1);
    }
  }

  /** Poll `k` lists the batches of a world that the protocol reaches, so every record is sound. */
  ghost predicate LateSeen(p: Setup, owner: Owner, backoff: BatchRecord -> Time, k: nat)
    requires TwoBatches(p)
  {
    var w := Run(p, Init(p, 0), LateRun(owner, k));
    Inv(p, w) && SeenBy(w, owner, LatePolls(p, owner, backoff)(k), k)
  }

  /** Two batches, one allowed at a time. The first is sent and leased, and for two
      polls nothing is sent. At the fourth poll its lease has run out while its
      worker is still at it; the dispatcher does not take it again, and the second
      is sent. Every poll lists the batches of a run, the clocks advance as the
      loop demands, and no poll gives a reason to leave. */
  lemma ExpiredLeaseExceedsLimit(p: Setup, owner: Owner, backoff: BatchRecord -> Time)
    requires TwoBatches(p)
    ensures var (cfg, polls) := (OneAtATime(p), LatePolls(p, owner, backoff));
            && ClockAdvances(polls, 0, cfg.pollInterval) && Uneventful(cfg, polls, cfg.maxMission, 4)
            && (forall k: nat :: LateSeen(p, owner, backoff, k))
            && RoundAt(cfg, polls, 0) == [FreshTile(p, 0)]
            && RoundAt(cfg, polls, 1) == [] && RoundAt(cfg, polls, 2) == []
            && RoundAt(cfg, polls, 3) == [FreshTile(p, 1)]
            && CountOutstanding(polls(3).list, DispatchedAt(cfg, polls, 4)) == 2 > cfg.maxInflight
  {
    var (cfg, polls) := (OneAtATime(p), LatePolls(p, owner, backoff));
    LatePollsAreLegal(p, owner, backoff, 4);
    forall k: nat ensures LateSeen(p, owner, backoff, k) {
      LateRunSeen(p, owner, backoff, k);
      RunSound(p, Init(p, 0), LateRun(owner, k));
    }
    QuietRounds(p, owner, backoff, 1);
    QuietRounds(p, owner, backoff, 2);
    QuietRounds(p, owner, backoff, 3);
    StampedAt(map[0 := 0], [FreshTile(p, 1)], polls(3).sentAt, 0);
    PairCounts(HeldTile(p, owner), FreshTile(p, 1), DispatchedAt(cfg, polls, 4), 90, cfg.stall);
  }
}
