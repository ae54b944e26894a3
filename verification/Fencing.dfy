/** Leases: bounded, fenced, and final once a batch is done. */
module Fencing {
  import opened ImpactModels
  import opened ImpactStore
  import opened RowOutcomes
  import opened Coordinator
  import opened Protocol

  // ---- A finished batch is immutable -------------------------------------------------

  ghost predicate DoneIn(w: World, no: nat) {
    no in w.store.batches && w.store.batches[no].state == Done && no in w.ledger
  }

  ghost predicate SameBatch(w: World, after: World, no: nat)
    requires no in w.store.batches && no in w.ledger
  {
    && no in after.store.batches && after.store.batches[no] == w.store.batches[no]
    && no in after.ledger && after.ledger[no] == w.ledger[no]
  }

  lemma DoneStays(p: Setup, w: World, step: Step, after: World, no: nat)
    requires p.Valid() && Shaped(p, w, step, after) && DoneIn(w, no)
    ensures SameBatch(w, after, no)
  {
  }

  /** Nothing that happens later changes a DONE batch or what is recorded about its rows. */
  lemma {:induction false} DoneForever(p: Setup, w: World, steps: seq<Step>, no: nat)
    requires p.Valid() && Inv(p, w) && DoneIn(w, no)
    ensures SameBatch(w, Run(p, w, steps), no)
  {
    if steps != [] {
      var (before, step) := (Run(p, w, steps[..|steps| - 1]), steps[|steps| - 1]);
      DoneForever(p, w, steps[..|steps| - 1], no);
      RunSound(p, w, steps[..|steps| - 1]);
      StepShape(p, before, step);
      DoneStays(p, before, step, Apply(p, before, step), no);
    }
  }

  // ---- Fencing -------------------------------------------------------------------------

  /** Each delivery presents an owner no earlier lease has used. */
  ghost predicate FreshOwner(w: World, step: Step) {
    step.Deliver? ==> step.owner !in w.owners
  }

  ghost predicate FreshOwners(p: Setup, w: World, steps: seq<Step>)
    requires p.Valid()
  {
    steps == [] ||
    (FreshOwners(p, w, steps[..|steps| - 1])
     && FreshOwner(Run(p, w, steps[..|steps| - 1]), steps[|steps| - 1]))
  }

  /** Owners are told apart, and each was seen when its lease was granted. */
  ghost predicate OwnersKnown(w: World) {
    && (forall t | t in w.tasks :: w.tasks[t].owner in w.owners)
    && (forall t, u | t in w.tasks && u in w.tasks && t != u :: w.tasks[t].owner != w.tasks[u].owner)
    && (forall no | no in w.store.batches && w.store.batches[no].leaseOwner.Some? ::
          w.store.batches[no].leaseOwner.value in w.owners)
  }

  /** The record and the row outcomes are those the delivery received with its lease. */
  ghost predicate AsLeased(w: World, t: Task) {
    && t.no in w.store.batches && w.store.batches[t.no] == t.held
    && t.no in w.ledger && w.ledger[t.no] == t.rows
  }

  /** Whoever still holds a lease sees the record exactly as it was leased. */
  ghost predicate Fenced(w: World) {
    && OwnersKnown(w)
    && (forall t | t in w.tasks :: HoldsLease(w.store, w.tasks[t].no, w.tasks[t].owner) ==> AsLeased(w, w.tasks[t]))
  }

  lemma FencedIdle(w: World, after: World)
    requires Fenced(w) && Idle(w, after)
    ensures Fenced(after)
  {
    forall t | t in after.tasks && HoldsLease(after.store, after.tasks[t].no, after.tasks[t].owner)
      ensures AsLeased(after, after.tasks[t])
    {
      assert HoldsLease(w.store, w.tasks[t].no, w.tasks[t].owner);
    }
  }

  lemma FencedExtended(p: Setup, w: World, after: World)
    requires p.Valid() && Fenced(w) && Extended(p, w, after) && w.store.batches.Keys == w.ledger.Keys
    ensures Fenced(after)
  {
    forall t | t in after.tasks && HoldsLease(after.store, after.tasks[t].no, after.tasks[t].owner)
      ensures AsLeased(after, after.tasks[t])
    {
      assert w.tasks[t].no in w.store.batches;
      assert HoldsLease(w.store, w.tasks[t].no, w.tasks[t].owner);
    }
  }

  lemma FencedGranted(p: Setup, w: World, after: World, task: nat, no: nat, owner: Owner)
    requires Fenced(w) && Granted(p, w, after, task, no, owner) && owner !in w.owners
    ensures Fenced(after)
  {
    forall t | t in after.tasks && HoldsLease(after.store, after.tasks[t].no, after.tasks[t].owner)
      ensures AsLeased(after, after.tasks[t])
    {
      if t != task {
        assert w.tasks[t].owner in w.owners;
        assert HoldsLease(w.store, w.tasks[t].no, w.tasks[t].owner);
      }
    }
  }

  lemma FencedReleased(w: World, after: World, task: nat)
    requires Fenced(w) && Released(w, after, task)
    ensures Fenced(after)
  {
    forall t | t in after.tasks && HoldsLease(after.store, after.tasks[t].no, after.tasks[t].owner)
      ensures AsLeased(after, after.tasks[t])
    {
      assert after.tasks[t].no != w.tasks[task].no;
      assert HoldsLease(w.store, w.tasks[t].no, w.tasks[t].owner);
    }
  }

  lemma StepFenced(p: Setup, w: World, step: Step, after: World)
    requires p.Valid() && Shaped(p, w, step, after) && w.store.batches.Keys == w.ledger.Keys
    requires Fenced(w) && FreshOwner(w, step)
    ensures Fenced(after)
  {
    if Idle(w, after) {
      FencedIdle(w, after);
    } else if step.CreateBatches? {
      FencedExtended(p, w, after);
    } else if step.Deliver? {
      FencedGranted(p, w, after, step.task, step.no, step.owner);
    } else {
      FencedReleased(w, after, step.task);
    }
  }

  lemma {:induction false} RunFenced(p: Setup, w: World, steps: seq<Step>)
    requires p.Valid() && Inv(p, w) && Fenced(w) && FreshOwners(p, w, steps)
    ensures Inv(p, Run(p, w, steps)) && Fenced(Run(p, w, steps))
  {
    RunSound(p, w, steps);
    if steps != [] {
      var (before, step) := (Run(p, w, steps[..|steps| - 1]), steps[|steps| - 1]);
      RunFenced(p, w, steps[..|steps| - 1]);
      StepShape(p, before, step);
      StepFenced(p, before, step, Apply(p, before, step));
    }
  }

  lemma FencedWrite(p: Setup, w: World, task: nat, replies: map<nat, RemoteOutcome>)
    requires p.Valid() && Inv(p, w) && Fenced(w) && CanWrite(p, w, task, replies)
    ensures var t := w.tasks[task];
            var after := AfterWrite(p, w, task, replies);
            && (after.writes == w.writes + 1 <==> HoldsLease(w.store, t.no, t.owner))
            && (after.writes == w.writes + 1 ==> AsLeased(w, t))
            && (after.writes != w.writes + 1 ==> after.store == w.store)
  {
    WriteShape(p, w, task, replies);
  }

  /** With fresh owners, a completion is accepted only while the record is still
      the one its owner leased, so what it merges into is what is stored; an
      owner whose batch has been leased again, finished or released writes nothing. */
  lemma WritesAreFenced(p: Setup, now: Time, steps: seq<Step>, task: nat, replies: map<nat, RemoteOutcome>)
    requires p.Valid() && FreshOwners(p, Init(p, now), steps)
    requires CanWrite(p, Run(p, Init(p, now), steps), task, replies)
    ensures var w := Run(p, Init(p, now), steps);
            var t := w.tasks[task];
            var after := AfterWrite(p, w, task, replies);
            && (after.writes == w.writes + 1 <==> HoldsLease(w.store, t.no, t.owner))
            && (after.writes == w.writes + 1 ==> AsLeased(w, t))
            && (after.writes != w.writes + 1 ==> after.store == w.store)
            && (t.no in w.store.batches && w.store.batches[t.no].attempts > t.held.attempts ==> after.store == w.store)
  {
    RunFenced(p, Init(p, now), steps);
    FencedWrite(p, Run(p, Init(p, now), steps), task, replies);
  }

  // ---- Without fresh owners: exactly when a completion is fenced ----------------------------

  /** A delivery whose lease has the number on record sees the record as leased. */
  ghost predicate NumberedTask(w: World, t: Task) {
    && t.no in w.store.batches
    && t.held.attempts <= w.store.batches[t.no].attempts
    && (HoldsNumber(w, t) ==> AsLeased(w, t))
  }

  ghost predicate HoldsNumber(w: World, t: Task) {
    t.no in w.store.batches && w.store.batches[t.no].state == Leased && w.store.batches[t.no].attempts == t.held.attempts
  }

  ghost predicate Numbered(w: World) {
    forall t | t in w.tasks :: NumberedTask(w, w.tasks[t])
  }

  lemma StepNumbered(p: Setup, w: World, step: Step, after: World)
    requires p.Valid() && Shaped(p, w, step, after) && w.store.batches.Keys == w.ledger.Keys && Numbered(w)
    ensures Numbered(after)
  {
    forall t | t in after.tasks ensures NumberedTask(after, after.tasks[t]) {
      if t in w.tasks && after.tasks[t] == w.tasks[t] {
        assert NumberedTask(w, w.tasks[t]) && w.tasks[t].no in w.ledger;
      }
    }
  }

  lemma {:induction false} RunNumbered(p: Setup, w: World, steps: seq<Step>)
    requires p.Valid() && Inv(p, w) && Numbered(w)
    ensures Inv(p, Run(p, w, steps)) && Numbered(Run(p, w, steps))
  {
    RunSound(p, w, steps);
    if steps != [] {
      var (before, step) := (Run(p, w, steps[..|steps| - 1]), steps[|steps| - 1]);
      RunNumbered(p, w, steps[..|steps| - 1]);
      StepShape(p, before, step);
      StepNumbered(p, before, step, Apply(p, before, step));
    }
  }

  /** With owners reused at will, an accepted completion merges into what its
      delivery leased if and only if no further lease was granted meanwhile. */
  lemma FencedExactlyByAttempt(p: Setup, now: Time, steps: seq<Step>, task: nat)
    requires p.Valid() && task in Run(p, Init(p, now), steps).tasks
    requires var w := Run(p, Init(p, now), steps); HoldsLease(w.store, w.tasks[task].no, w.tasks[task].owner)
    ensures var w := Run(p, Init(p, now), steps);
            var t := w.tasks[task];
            AsLeased(w, t) <==> w.store.batches[t.no].attempts == t.held.attempts
  {
    RunNumbered(p, Init(p, now), steps);
  }

  // ---- Bounded leasing -----------------------------------------------------------------

  ghost function Attempts(batches: map<nat, BatchRecord>, n: nat): nat {
    if n == 0 then 0
    else Attempts(batches, n - 1) + if n - 1 in batches then batches[n - 1].attempts else 0
  }

  /** The attempts that may have written: the one still holding its lease has not. */
  ghost function Spent(batches: map<nat, BatchRecord>, n: nat): int {
    if n == 0 then 0
    else Spent(batches, n - 1) + if n - 1 in batches then SpentOn(batches[n - 1]) else 0
  }

  ghost function SpentOn(b: BatchRecord): int { if b.state == Leased then b.attempts - 1 else b.attempts }

  lemma {:induction false} SumsAfterUpdate(batches: map<nat, BatchRecord>, no: nat, b: BatchRecord, n: nat)
    requires no in batches
    ensures var next := batches[no := b];
            && Attempts(next, n) - Attempts(batches, n) == (if no < n then b.attempts - batches[no].attempts else 0)
            && Spent(next, n) - Spent(batches, n) == (if no < n then SpentOn(b) - SpentOn(batches[no]) else 0)
  {
    if n > 0 {
      SumsAfterUpdate(batches, no, b, n - 1);
    }
  }

  lemma {:induction false} SumsAfterCreate(p: Setup, w: World, after: World, n: nat)
    requires p.Valid() && Extended(p, w, after) && w.store.batches.Keys == w.ledger.Keys
    ensures Attempts(w.store.batches, n) == Attempts(after.store.batches, n)
    ensures Spent(w.store.batches, n) == Spent(after.store.batches, n)
  {
    if n > 0 {
      SumsAfterCreate(p, w, after, n - 1);
    }
  }

  lemma {:induction false} AttemptsBounded(p: Setup, w: World, n: nat)
    requires p.Valid() && Inv(p, w)
    ensures Spent(w.store.batches, n) <= Attempts(w.store.batches, n) <= n * p.maxAttempts
  {
    if n > 0 {
      AttemptsBounded(p, w, n - 1);
      if n - 1 in w.store.batches {
        assert Sound(p, n - 1, w.store.batches[n - 1], w.ledger[n - 1]);
      }
      assert n * p.maxAttempts == (n - 1) * p.maxAttempts + p.maxAttempts;
    }
  }

  /** Every lease is an attempt on record, and every accepted completion used one up. */
  ghost predicate Counted(p: Setup, w: World)
    requires p.Valid()
  {
    w.leases == Attempts(w.store.batches, p.Count()) && w.writes <= Spent(w.store.batches, p.Count())
  }

  lemma GrantCounted(p: Setup, w: World, after: World, task: nat, no: nat, owner: Owner)
    requires p.Valid() && Inv(p, w) && Granted(p, w, after, task, no, owner) && Counted(p, w)
    ensures Counted(p, after)
  {
    assert Sound(p, no, w.store.batches[no], w.ledger[no]);
    SumsAfterUpdate(w.store.batches, no, after.store.batches[no], p.Count());
  }

  lemma ReleaseCounted(p: Setup, w: World, after: World, task: nat)
    requires p.Valid() && Inv(p, w) && Released(w, after, task) && Counted(p, w)
    ensures Counted(p, after)
  {
    var no := w.tasks[task].no;
    assert Sound(p, no, w.store.batches[no], w.ledger[no]);
    SumsAfterUpdate(w.store.batches, no, after.store.batches[no], p.Count());
  }

  lemma StepCounted(p: Setup, w: World, step: Step, after: World)
    requires p.Valid() && Inv(p, w) && Shaped(p, w, step, after) && Counted(p, w)
    ensures Counted(p, after)
  {
    if Idle(w, after) {
    } else if step.CreateBatches? {
      SumsAfterCreate(p, w, after, p.Count());
    } else if step.Deliver? {
      GrantCounted(p, w, after, step.task, step.no, step.owner);
    } else {
      ReleaseCounted(p, w, after, step.task);
    }
  }

  lemma {:induction false} RunCounted(p: Setup, w: World, steps: seq<Step>)
    requires p.Valid() && Inv(p, w) && Counted(p, w)
    ensures Inv(p, Run(p, w, steps)) && Counted(p, Run(p, w, steps))
  {
    RunSound(p, w, steps);
    if steps != [] {
      var (before, step) := (Run(p, w, steps[..|steps| - 1]), steps[|steps| - 1]);
      RunCounted(p, w, steps[..|steps| - 1]);
      StepShape(p, before, step);
      StepCounted(p, before, step, Apply(p, before, step));
    }
  }

  lemma {:induction false} NoBatches(n: nat)
    ensures Attempts(map[], n) == 0 && Spent(map[], n) == 0
  {
    if n > 0 { NoBatches(n - 1); }
  }

  /** Over any run, with owners reused at will: accepted completions never
      exceed the leases granted, and the leases never exceed the attempts the
      batches are allowed. */
  lemma LeasesAreBounded(p: Setup, now: Time, steps: seq<Step>)
    requires p.Valid()
    ensures var w := Run(p, Init(p, now), steps);
            w.writes <= w.leases <= p.Count() * p.maxAttempts
  {
    NoBatches(p.Count());
    RunCounted(p, Init(p, now), steps);
    AttemptsBounded(p, Run(p, Init(p, now), steps), p.Count());
  }

  // ---- Settlement ------------------------------------------------------------------------

  ghost predicate SettledIn(p: Setup, w: World, no: nat)
    requires p.Valid()
  {
    no in w.store.batches && no in w.ledger && Settled(w.store.batches[no], p.maxAttempts, w.now)
  }

  /** Even a late completion by the last owner leaves a settled batch settled. */
  lemma StepSettled(p: Setup, w: World, step: Step, after: World, no: nat)
    requires p.Valid() && Shaped(p, w, step, after) && SettledIn(p, w, no)
    ensures SettledIn(p, after, no)
  {
  }

  /** Once settled, a batch stays settled in every later state and at every later time. */
  lemma {:induction false} SettledForever(p: Setup, w: World, steps: seq<Step>, no: nat)
    requires p.Valid() && Inv(p, w) && SettledIn(p, w, no)
    ensures SettledIn(p, Run(p, w, steps), no)
  {
    if steps != [] {
      var (before, step) := (Run(p, w, steps[..|steps| - 1]), steps[|steps| - 1]);
      SettledForever(p, w, steps[..|steps| - 1], no);
      RunSound(p, w, steps[..|steps| - 1]);
      StepShape(p, before, step);
      StepSettled(p, before, step, Apply(p, before, step), no);
    }
  }
}
