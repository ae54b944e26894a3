/** A mission's release decision and the model's part in it
    (`backend/app/agents/supervisor.py`): what the model answers steers which
    probes run and what is explained, never the decision. */
module Supervisor {
  import opened ImpactModels
  import opened Sorting
  import Protocol
  import Release

  type ScenarioId = string

  datatype ReleaseStatus = Pass | Review | BlockDeployment

  /** `Raised` stands for an exception out of the mission. */
  datatype MissionOutcome = Decided(status: ReleaseStatus) | MissionCancelled | Raised

  datatype ProbeStatus = Success | PartialResponse | ConnectorFailure

  /** One probe, as far as engines and target determine it. */
  datatype ProbeResult = DateRejected | NoPremium(partial: bool) | Premiums(expected: Money, actual: Money)

  /** Everything a mission depends on apart from the model. `tests` and
      `candidates` are the deterministic test plan; `impact` is what the impact
      runner returns if one is configured; `exposure` is what a portfolio scan
      of the two packages finds; `rootCause` says whether reconciling the two
      packages names one. */
  datatype Mission = Mission(
    rightPackage: bool,
    connector: bool,
    diffs: seq<string>,
    reviewFlagged: bool,
    equivalenceMode: bool,
    tests: seq<ScenarioId>,
    candidates: seq<ScenarioId>,
    probe: ScenarioId -> ProbeResult,
    impact: Option<ImpactAggregate>,
    exposure: Money,
    rootCause: bool,
    controls: bool)

  const FAST_PATH_PROBES := 5
  const MAX_ADDITIONAL_PROBE_TESTS := 5

  datatype AgentConfig = AgentConfig(maxGeminiCalls: nat, maxProbeRounds: nat)

  /** Whatever the model says: any ids, valid or invented, and any votes. */
  datatype Answer = Answer(ids: seq<string>, sufficient: bool, runPortfolio: bool)

  /** The k-th call either fails or answers. */
  type Gemini = nat -> Option<Answer>

  // ---- Probes ---------------------------------------------------------------------------

  /** `statuses` is kept for connector targets only; `miss` is the first probe
      that did not match. */
  datatype Tally = Tally(
    matches: nat, mismatches: nat, inconclusive: nat, statuses: seq<ProbeStatus>, miss: Option<ProbeResult>)

  const NO_PROBES := Tally(0, 0, 0, [], None)

  function Observe(m: Mission, t: Tally, id: ScenarioId): Tally {
    var missed := t.(miss := if t.miss.Some? then t.miss else Some(m.probe(id)));
    match m.probe(id)
    case DateRejected => missed.(inconclusive := t.inconclusive + 1)
    case NoPremium(partial) =>
      missed.(inconclusive := t.inconclusive + 1,
         statuses := if !m.connector then t.statuses
                     else t.statuses + [if partial then PartialResponse else ConnectorFailure])
    case Premiums(expected, actual) =>
      var statuses := if m.connector then t.statuses + [Success] else t.statuses;
      if expected == actual then t.(matches := t.matches + 1, statuses := statuses)
      else missed.(mismatches := t.mismatches + 1, statuses := statuses)
  }

  function TallyOf(m: Mission, ids: seq<ScenarioId>): Tally {
    if ids == [] then NO_PROBES else Observe(m, TallyOf(m, ids[..|ids| - 1]), ids[|ids| - 1])
  }

  lemma {:induction false} TallyGrows(m: Mission, ids: seq<ScenarioId>, more: seq<ScenarioId>)
    ensures var (a, b) := (TallyOf(m, ids), TallyOf(m, ids + more));
            a.mismatches <= b.mismatches && (m.connector && b.mismatches > 0 ==> Success in b.statuses)
  {
    if more == [] {
      assert ids + more == ids;
      MismatchMeansSuccess(m, ids);
    } else {
      var n := |more| - 1;
      assert (ids + more)[..|ids + more| - 1] == ids + more[..n];
      TallyGrows(m, ids, more[..n]);
    }
  }

  lemma {:induction false} MismatchMeansSuccess(m: Mission, ids: seq<ScenarioId>)
    ensures m.connector && TallyOf(m, ids).mismatches > 0 ==> Success in TallyOf(m, ids).statuses
  {
    if ids != [] {
      MismatchMeansSuccess(m, ids[..|ids| - 1]);
    }
  }

  /** The answer's ids that are really in the pool, in the answer's order. */
  function Known(ids: seq<string>, pool: seq<ScenarioId>): (r: seq<ScenarioId>)
    ensures forall i | i in r :: i in pool && i in ids
  {
    if ids == [] then []
    else
      var before := Known(ids[..|ids| - 1], pool);
      if ids[|ids| - 1] in pool then before + [ids[|ids| - 1]] else before
  }

  function Untested(candidates: seq<ScenarioId>, executed: set<ScenarioId>): (r: seq<ScenarioId>)
    ensures forall i | i in r :: i in candidates && i !in executed
  {
    if candidates == [] then []
    else
      var before := Untested(candidates[..|candidates| - 1], executed);
      if candidates[|candidates| - 1] in executed then before else before + [candidates[|candidates| - 1]]
  }

  function FirstOf<T>(cap: nat, s: seq<T>): seq<T> { if |s| <= cap then s else s[..cap] }

  /** What one more probe round runs. */
  function NextRound(ids: seq<string>, pool: seq<ScenarioId>): (r: seq<ScenarioId>)
    ensures |r| <= MAX_ADDITIONAL_PROBE_TESTS && forall i | i in r :: i in pool
  {
    FirstOf(MAX_ADDITIONAL_PROBE_TESTS, Known(ids, pool))
  }

  // ---- Stages ---------------------------------------------------------------------------

  datatype Stage =
    | RequestValidation | SourceALoad | SourceBLoadOrConnectorCheck | CompatibilityGate | SemanticDiff
    | DependencyImpact | TestCandidateGeneration | TestSelection | OracleExecution | TargetExecution
    | Reconciliation | PortfolioImpact | PipelineImpact | CohortDistribution | Remediation | Revalidation
    | ExplanationFacts | ExplanationDraft | Decision | EvidenceFinalization

  datatype StageStatus = StageCompleted | StageFailed | StageReview | StageNotApplicable

  type Stages = map<Stage, StageStatus>

  function Unrecorded(stages: Stages): set<Stage> { set s: Stage | s !in stages }

  ghost predicate AllAccountedFor(stages: Stages) { forall s: Stage :: s in stages }

  /** No stage failed or asks for review. */
  ghost predicate Clean(stages: Stages) {
    forall s | s in stages :: stages[s] == StageCompleted || stages[s] == StageNotApplicable
  }

  class StageRecorder {
    var stages: Stages

    constructor ()
      ensures stages == map[]
    {
      stages := map[];
    }

    method Record(stage: Stage, status: StageStatus)
      modifies this
      ensures stages == old(stages)[stage := status]
    {
      stages := stages[stage := status];
    }

    /** Early exits: whatever was not reached is recorded as not applicable. */
    method Backfill()
      modifies this
      ensures AllAccountedFor(stages)
      ensures forall s | s in stages :: stages[s] == if s in old(stages) then old(stages)[s] else StageNotApplicable
    {
      var missing := Unrecorded(stages);
      while missing != {}
        invariant forall s | s in stages :: stages[s] == if s in old(stages) then old(stages)[s] else StageNotApplicable
        invariant forall s: Stage :: s in stages || s in missing
        invariant forall s | s in old(stages) :: s in stages && s !in missing
        decreases missing
      {
        var s :| s in missing;
        stages := stages[s := StageNotApplicable];
        missing := missing - {s};
      }
    }
  }

  datatype SectionStatus = SectionNotRun | SectionSucceeded | SectionFailed

  /** The result sections a PASS must rest on. */
  datatype Sections = Sections(validation: SectionStatus, experiments: SectionStatus, semantic: SectionStatus)

  predicate MandatoryEvidenceOk(r: Sections) {
    r.validation == SectionSucceeded && r.experiments == SectionSucceeded && r.semantic != SectionFailed
  }

  // ---- The budget -----------------------------------------------------------------------

  class InvestigationBudget {
    const maxCalls: nat
    var calls: nat
    var executed: set<ScenarioId>

    constructor (maxCalls: nat)
      ensures this.maxCalls == maxCalls && calls == 0 && executed == {}
    {
      this.maxCalls, calls, executed := maxCalls, 0, {};
    }

    /** One budgeted call; past the budget no call is made. */
    method AskGemini(gemini: Gemini) returns (answer: Option<Answer>)
      modifies this
      ensures old(calls) >= maxCalls ==> answer == None && calls == old(calls)
      ensures old(calls) < maxCalls ==> answer == gemini(old(calls)) && calls == old(calls) + 1
      ensures executed == old(executed)
    {
      if calls >= maxCalls {
        return None;
      }
      answer := gemini(calls);
      calls := calls + 1;
    }

    method RunProbes(m: Mission, ids: seq<ScenarioId>, before: Tally, ghost earlier: seq<ScenarioId>) returns (t: Tally)
      requires before == TallyOf(m, earlier)
      modifies this
      ensures t == TallyOf(m, earlier + ids)
      ensures calls == old(calls) && executed == old(executed) + Members(ids)
    {
      t := before;
      var n := 0;
      assert earlier + ids[..n] == earlier;
      while n < |ids|
        invariant 0 <= n <= |ids|
        invariant t == TallyOf(m, earlier + ids[..n])
        invariant calls == old(calls) && executed == old(executed) + Members(ids[..n])
      {
        assert (earlier + ids[..n + 1])[..|earlier| + n] == earlier + ids[..n];
        assert ids[..n + 1] == ids[..n] + [ids[n]];
        t := Observe(m, t, ids[n]);
        executed := executed + {ids[n]};
        n := n + 1;
      }
      assert ids[..n] == ids;
    }
  }

  // ---- The decision ---------------------------------------------------------------------

  predicate AllProbesFailed(t: Tally) { Success !in t.statuses }

  /** The connector-backed scan runs only once some probe has returned a premium. */
  predicate ScanRuns(m: Mission, t: Tally) {
    m.connector && m.impact.Some? && t.statuses != [] && !AllProbesFailed(t)
  }

  predicate ScanSkipped(m: Mission, t: Tally) { m.connector && m.impact.Some? && !ScanRuns(m, t) }

  predicate Blocking(m: Mission, t: Tally, packageScan: bool) {
    || t.mismatches > 0
    || (ScanRuns(m, t) && m.impact.value.mismatches > 0)
    || (!ScanRuns(m, t) && !ScanSkipped(m, t) && packageScan && m.exposure > 0.0)
    || m.diffs != []
  }

  predicate NeedsReview(m: Mission, t: Tally) {
    || m.reviewFlagged
    || (ScanRuns(m, t) && m.impact.value.mismatches == 0 && m.impact.value.completeness != CompleteScan)
    || ScanSkipped(m, t)
    || (m.connector && t.statuses == [] && t.inconclusive == 0)
    || t.inconclusive > 0
    || PartialResponse in t.statuses
  }

  function FinalDecision(m: Mission, t: Tally, packageScan: bool): MissionOutcome {
    if ScanRuns(m, t) && m.impact.value.status == ImpactStatus.Cancelled then MissionCancelled
    else if Blocking(m, t, packageScan) then Decided(BlockDeployment)
    else if NeedsReview(m, t) then Decided(Review)
    else Decided(Pass)
  }

  /** The decision when stages or sections may be missing. */
  function StageEight(m: Mission, t: Tally, packageScan: bool, sections: Sections, missing: set<Stage>): MissionOutcome {
    if Blocking(m, t, packageScan) || !MandatoryEvidenceOk(sections) || missing != {} then Decided(BlockDeployment)
    else if NeedsReview(m, t) then Decided(Review)
    else Decided(Pass)
  }

  function FastPathProbes(m: Mission): seq<ScenarioId> {
    if |m.tests| <= FAST_PATH_PROBES then m.tests else m.tests[..FAST_PATH_PROBES]
  }

  predicate AllPriced(m: Mission, ids: seq<ScenarioId>) {
    forall k | 0 <= k < |ids| :: m.probe(ids[k]).Premiums?
  }

  predicate AllEqual(m: Mission, ids: seq<ScenarioId>) {
    forall k | 0 <= k < |ids| :: m.probe(ids[k]).Premiums? && m.probe(ids[k]).expected == m.probe(ids[k]).actual
  }

  /** The outcome of a mission as a function of its inputs alone. */
  function OutcomeOf(m: Mission): MissionOutcome {
    if !m.rightPackage && !m.connector then Raised
    else if m.rightPackage && m.diffs == [] then
      if !AllPriced(m, FastPathProbes(m)) then Raised
      else if !AllEqual(m, FastPathProbes(m)) then Decided(BlockDeployment)
      else if m.reviewFlagged then Decided(Review)
      else Decided(Pass)
    else if !m.connector then Decided(BlockDeployment)
    else FinalDecision(m, TallyOf(m, m.tests), false)
  }

  /** What two packages without a difference go through after opening. */
  const CLEAN_START: set<Stage> :=
    {DependencyImpact, TestCandidateGeneration, TestSelection, OracleExecution, TargetExecution}

  /** Two packages without a semantic difference: sample probes decide, and the model is never asked. */
  method CleanEquivalence(m: Mission, recorder: StageRecorder) returns (outcome: MissionOutcome)
    requires m.rightPackage && m.diffs == []
    requires recorder.stages.Keys == OPENING && (m.reviewFlagged || Clean(recorder.stages))
    modifies recorder
    ensures outcome == OutcomeOf(m)
    ensures outcome != Raised ==>
              forall s | s in recorder.stages ::
                recorder.stages[s] ==
                  if s in CLEAN_START || s == Decision || s == EvidenceFinalization then StageCompleted
                  else if s == Reconciliation && outcome == Decided(BlockDeployment) then StageCompleted
                  else if s in old(recorder.stages) then old(recorder.stages)[s]
                  else StageNotApplicable
    ensures outcome != Raised ==> AllAccountedFor(recorder.stages)
    ensures outcome == Decided(Pass) ==> Clean(recorder.stages)
  {
    RecordCleanStart(recorder);
    outcome := SampleProbes(m);
    if outcome == Raised {
      return;
    }
    RecordCleanEnd(recorder, outcome == Decided(BlockDeployment));
  }

  method RecordCleanStart(recorder: StageRecorder)
    modifies recorder
    ensures recorder.stages.Keys == old(recorder.stages).Keys + CLEAN_START
    ensures forall s | s in recorder.stages ::
              recorder.stages[s] == if s in CLEAN_START then StageCompleted else old(recorder.stages)[s]
  {
    recorder.Record(DependencyImpact, StageCompleted);
    recorder.Record(TestCandidateGeneration, StageCompleted);
    recorder.Record(TestSelection, StageCompleted);
    recorder.Record(OracleExecution, StageCompleted);
    recorder.Record(TargetExecution, StageCompleted);
  }

  method RecordCleanEnd(recorder: StageRecorder, blocked: bool)
    requires Reconciliation !in recorder.stages && PortfolioImpact !in recorder.stages
    requires Decision !in recorder.stages && EvidenceFinalization !in recorder.stages
    modifies recorder
    ensures AllAccountedFor(recorder.stages)
    ensures forall s | s in recorder.stages ::
              recorder.stages[s] ==
                if s == Decision || s == EvidenceFinalization || (blocked && s == Reconciliation) then StageCompleted
                else if s in old(recorder.stages) then old(recorder.stages)[s]
                else StageNotApplicable
  {
    if blocked {
      recorder.Record(Reconciliation, StageCompleted);
      recorder.Record(PortfolioImpact, StageNotApplicable);
    }
    recorder.Record(Decision, StageCompleted);
    recorder.Backfill();
    recorder.Record(EvidenceFinalization, StageCompleted);
  }

  method SampleProbes(m: Mission) returns (outcome: MissionOutcome)
    requires m.rightPackage && m.diffs == []
    ensures outcome == OutcomeOf(m)
  {
    var probes, n, mismatches := FastPathProbes(m), 0, 0;
    while n < |probes|
      invariant 0 <= n <= |probes| && 0 <= mismatches
      invariant AllPriced(m, probes[..n]) && (mismatches == 0 <==> AllEqual(m, probes[..n]))
    {
      match m.probe(probes[n]) {
        case Premiums(expected, actual) =>
          if expected != actual {
            mismatches := mismatches + 1;
            assert !AllEqual(m, probes[..n + 1]) by { assert probes[..n + 1][n] == probes[n]; }
          }
        case _ =>
          assert !AllPriced(m, probes);
          return Raised;
      }
      assert forall k | 0 <= k < n :: probes[..n + 1][k] == probes[..n][k];
      n := n + 1;
    }
    assert probes[..n] == probes;
    if mismatches == 0 {
      return if m.reviewFlagged then Decided(Review) else Decided(Pass);
    }
    return Decided(BlockDeployment);
  }

  /** Stage 8, collecting reasons one by one. */
  method Decide(m: Mission, t: Tally, packageScan: bool, sections: Sections, missing: set<Stage>)
    returns (outcome: MissionOutcome)
    ensures outcome == StageEight(m, t, packageScan, sections, missing)
  {
    var blocking, review := 0, m.reviewFlagged;
    if t.mismatches > 0 {
      blocking := blocking + 1;
    }
    if ScanRuns(m, t) {
      if m.impact.value.mismatches > 0 {
        blocking := blocking + 1;
      } else if m.impact.value.completeness != CompleteScan {
        review := true;
      }
    } else if ScanSkipped(m, t) {
      review := true;
    } else if packageScan && m.exposure > 0.0 {
      blocking := blocking + 1;
    }
    if m.diffs != [] {
      blocking := blocking + 1;
    }
    if m.connector && t.statuses == [] && t.inconclusive == 0 {
      review := true;
    }
    if t.inconclusive > 0 {
      review := true;
    }
    if PartialResponse in t.statuses {
      review := true;
    }
    if !MandatoryEvidenceOk(sections) && blocking == 0 {
      blocking := blocking + 1;
    }
    if missing != {} {
      blocking := blocking + 1;
    }
    if blocking > 0 {
      return Decided(BlockDeployment);
    }
    return if review then Decided(Review) else Decided(Pass);
  }

  // ---- Probe rounds -----------------------------------------------------------------------

  function Members(ids: seq<ScenarioId>): set<ScenarioId> { set i | i in ids }

  /** The probes of a mission in running order: the first tests, then round after round. */
  function Flat(tests: seq<ScenarioId>, rounds: seq<seq<ScenarioId>>): seq<ScenarioId> {
    if rounds == [] then tests else Flat(tests, rounds[..|rounds| - 1]) + rounds[|rounds| - 1]
  }

  /** Each later round runs a few ids of the pool, and none that ran before it. */
  ghost predicate FreshRounds(candidates: seq<ScenarioId>, tests: seq<ScenarioId>, rounds: seq<seq<ScenarioId>>) {
    rounds == [] ||
    var (before, last) := (rounds[..|rounds| - 1], rounds[|rounds| - 1]);
    && FreshRounds(candidates, tests, before)
    && 1 <= |last| <= 5
    && forall i | i in last :: i in candidates && i !in Flat(tests, before)
  }

  /** What another round would run after `rounds`, if the model is asked then; nothing ends the rounds. */
  function ExtraProbes(m: Mission, answer: Option<Answer>, tests: seq<ScenarioId>, rounds: seq<seq<ScenarioId>>)
    : seq<ScenarioId>
  {
    var pool := Untested(m.candidates, Members(Flat(tests, rounds)));
    if pool == [] || answer.None? || answer.value.sufficient then [] else NextRound(answer.value.ids, pool)
  }

  /** What the next round runs, if there is one: calls are left, something
      disagrees, and the answer names something to run. */
  function RoundAfter(m: Mission, cfg: AgentConfig, gemini: Gemini, tests: seq<ScenarioId>)
    : (nat, seq<seq<ScenarioId>>) -> Option<seq<ScenarioId>>
  {
    (asked: nat, rounds: seq<seq<ScenarioId>>) =>
      if TallyOf(m, Flat(tests, rounds)).mismatches == 0 || asked >= cfg.maxGeminiCalls then None
      else if ExtraProbes(m, gemini(asked), tests, rounds) == [] then None
      else Some(ExtraProbes(m, gemini(asked), tests, rounds))
  }

  /** Appending what follows until nothing does or `cap` is reached; each step asks once more. */
  function Repeated<T>(next: (nat, seq<T>) -> Option<T>, asked: nat, done: seq<T>, cap: nat): seq<T>
    decreases cap - |done|
  {
    if |done| >= cap || next(asked, done).None? then done
    else Repeated(next, asked + 1, done + [next(asked, done).value], cap)
  }

  /** The rounds that follow, when `calls` calls have been made and `rounds` have been run. */
  function RoundsFrom(
      m: Mission, cfg: AgentConfig, gemini: Gemini, calls: nat, tests: seq<ScenarioId>, rounds: seq<seq<ScenarioId>>)
    : seq<seq<ScenarioId>>
  {
    Repeated(RoundAfter(m, cfg, gemini, tests), calls, rounds, cfg.maxProbeRounds)
  }

  lemma ExtraAreFresh(m: Mission, answer: Option<Answer>, tests: seq<ScenarioId>, rounds: seq<seq<ScenarioId>>)
    ensures var extra := ExtraProbes(m, answer, tests, rounds);
            && |extra| <= 5
            && forall i | i in extra :: i in m.candidates && i !in Flat(tests, rounds)
  {
  }

  lemma NextRoundFrom(
      m: Mission, cfg: AgentConfig, gemini: Gemini, calls: nat, next: nat, tests: seq<ScenarioId>,
      rounds: seq<seq<ScenarioId>>, extra: seq<ScenarioId>)
    requires |rounds| < cfg.maxProbeRounds && TallyOf(m, Flat(tests, rounds)).mismatches > 0
    requires calls < cfg.maxGeminiCalls && next == calls + 1
    requires extra == ExtraProbes(m, gemini(calls), tests, rounds) && extra != []
    ensures RoundsFrom(m, cfg, gemini, calls, tests, rounds) == RoundsFrom(m, cfg, gemini, next, tests, rounds + [extra])
  {
  }

  lemma AnotherRound(m: Mission, tests: seq<ScenarioId>, rounds: seq<seq<ScenarioId>>, extra: seq<ScenarioId>)
    requires FreshRounds(m.candidates, tests, rounds) && 1 <= |extra| <= 5
    requires forall i | i in extra :: i in m.candidates && i !in Flat(tests, rounds)
    ensures FreshRounds(m.candidates, tests, rounds + [extra])
    ensures Flat(tests, rounds + [extra]) == Flat(tests, rounds) + extra
    ensures Members(Flat(tests, rounds + [extra])) == Members(Flat(tests, rounds)) + Members(extra)
  {
    assert (rounds + [extra])[..|rounds|] == rounds;
  }

  /** The budgeted question whether another round is needed, and what it would run. */
  method AskForProbes(
      m: Mission, gemini: Gemini, budget: InvestigationBudget, tests: seq<ScenarioId>, ghost rounds: seq<seq<ScenarioId>>)
    returns (extra: seq<ScenarioId>)
    requires budget.calls < budget.maxCalls && budget.executed == Members(Flat(tests, rounds))
    modifies budget
    ensures extra == ExtraProbes(m, gemini(old(budget.calls)), tests, rounds)
    ensures budget.calls <= budget.maxCalls && (extra != [] ==> budget.calls == old(budget.calls) + 1)
    ensures budget.executed == old(budget.executed)
  {
    var pool := Untested(m.candidates, budget.executed);
    if pool == [] {
      return [];
    }
    var answer := budget.AskGemini(gemini);
    if answer.None? || answer.value.sufficient || answer.value.ids == [] {
      return [];
    }
    extra := NextRound(answer.value.ids, pool);
  }

  /** The probe-round loop. It only adds to mismatches already found. */
  method InvestigateFurther(
      m: Mission, cfg: AgentConfig, gemini: Gemini, budget: InvestigationBudget, tests: seq<ScenarioId>, first: Tally)
    returns (tally: Tally, rounds: seq<seq<ScenarioId>>)
    requires first == TallyOf(m, tests) && budget.executed == Members(tests)
    requires budget.calls <= budget.maxCalls == cfg.maxGeminiCalls
    modifies budget
    ensures budget.calls <= budget.maxCalls
    ensures rounds == RoundsFrom(m, cfg, gemini, old(budget.calls), tests, [])
    ensures |rounds| <= cfg.maxProbeRounds && FreshRounds(m.candidates, tests, rounds)
    ensures tally == TallyOf(m, Flat(tests, rounds))
    ensures first.mismatches == 0 ==> rounds == []
  {
    tally, rounds := first, [];
    ghost var all := RoundsFrom(m, cfg, gemini, budget.calls, tests, rounds);
    while |rounds| < cfg.maxProbeRounds && tally.mismatches > 0 && budget.calls < budget.maxCalls
      invariant budget.calls <= budget.maxCalls
      invariant |rounds| <= cfg.maxProbeRounds && FreshRounds(m.candidates, tests, rounds)
      invariant budget.executed == Members(Flat(tests, rounds)) && tally == TallyOf(m, Flat(tests, rounds))
      invariant all == RoundsFrom(m, cfg, gemini, budget.calls, tests, rounds)
      invariant first.mismatches == 0 ==> rounds == []
      decreases cfg.maxProbeRounds - |rounds|
    {
      ghost var call := budget.calls;
      var extra := AskForProbes(m, gemini, budget, tests, rounds);
      if extra == [] {
        break;
      }
      NextRoundFrom(m, cfg, gemini, call, budget.calls, tests, rounds, extra);
      ExtraAreFresh(m, gemini(call), tests, rounds);
      AnotherRound(m, tests, rounds, extra);
      tally := budget.RunProbes(m, extra, tally, Flat(tests, rounds));
      rounds := rounds + [extra];
    }
  }

  // ---- The rest of a mission -----------------------------------------------------------------

  /** A root cause is named when a mismatch is reconciled. */
  predicate Explains(m: Mission, t: Tally) { t.mismatches > 0 && (m.rootCause || !m.rightPackage) }

  /** Only a probe that returned both premiums yields facts to explain. */
  predicate Explainable(m: Mission, t: Tally) { Explains(m, t) && t.miss.Some? && t.miss.value.Premiums? }

  lemma {:induction false} FailuresAreInconclusive(m: Mission, ids: seq<ScenarioId>)
    ensures var t := TallyOf(m, ids); t.statuses != [] && AllProbesFailed(t) ==> t.inconclusive > 0
  {
    if ids != [] {
      FailuresAreInconclusive(m, ids[..|ids| - 1]);
    }
  }

  /** No premium came back from the connector, or not all of one. */
  predicate Doubtful(t: Tally) { Success !in t.statuses || PartialResponse in t.statuses }

  method RecordExecution(
      m: Mission, t: Tally, tests: seq<ScenarioId>, recorder: StageRecorder, ghost ids: seq<ScenarioId>)
    requires m.connector || m.rightPackage
    requires t == TallyOf(m, ids)
    modifies recorder
    ensures recorder.stages.Keys == old(recorder.stages).Keys + {OracleExecution, TargetExecution, Reconciliation}
    ensures var ran := if m.connector || tests != [] then StageCompleted else StageNotApplicable;
            && recorder.stages[OracleExecution] == ran
            && recorder.stages[TargetExecution] == (if m.connector && Doubtful(t) then StageReview else ran)
            && recorder.stages[Reconciliation] == (if t.mismatches > 0 then StageCompleted else StageNotApplicable)
            && forall s | s in old(recorder.stages) && s !in {OracleExecution, TargetExecution, Reconciliation} ::
                 recorder.stages[s] == old(recorder.stages)[s]
    ensures Clean(old(recorder.stages)) && !NeedsReview(m, t) ==> Clean(recorder.stages)
  {
    FailuresAreInconclusive(m, ids);
    if m.connector {
      recorder.Record(OracleExecution, StageCompleted);
      if t.statuses == [] || Success !in t.statuses || PartialResponse in t.statuses {
        recorder.Record(TargetExecution, StageReview);
      } else {
        recorder.Record(TargetExecution, StageCompleted);
      }
    } else if tests != [] {
      recorder.Record(OracleExecution, StageCompleted);
      recorder.Record(TargetExecution, StageCompleted);
    } else {
      recorder.Record(OracleExecution, StageNotApplicable);
      recorder.Record(TargetExecution, StageNotApplicable);
    }
    if t.mismatches > 0 {
      recorder.Record(Reconciliation, StageCompleted);
    } else {
      recorder.Record(Reconciliation, StageNotApplicable);
    }
  }

  method RecordPortfolio(m: Mission, t: Tally, packageScan: bool, recorder: StageRecorder)
    requires packageScan ==> m.rightPackage
    modifies recorder
    ensures recorder.stages.Keys == old(recorder.stages).Keys + {PortfolioImpact, CohortDistribution, PipelineImpact}
    ensures var ran := ScanRuns(m, t) || packageScan;
            var incomplete := ScanRuns(m, t) && m.impact.value.completeness != CompleteScan;
            && recorder.stages[PortfolioImpact]
               == (if incomplete || (ScanSkipped(m, t) && !m.rightPackage) then StageReview
                   else if ran then StageCompleted else StageNotApplicable)
            && recorder.stages[CohortDistribution] == (if ran then StageCompleted else StageNotApplicable)
            && recorder.stages[PipelineImpact] == recorder.stages[CohortDistribution]
    ensures Clean(old(recorder.stages)) && !Blocking(m, t, packageScan) && !NeedsReview(m, t) ==> Clean(recorder.stages)
  {
    if ScanRuns(m, t) {
      if m.impact.value.completeness == CompleteScan {
        recorder.Record(PortfolioImpact, StageCompleted);
      } else {
        recorder.Record(PortfolioImpact, StageReview);
      }
    } else if packageScan {
      recorder.Record(PortfolioImpact, StageCompleted);
    } else if m.rightPackage || !ScanSkipped(m, t) {
      recorder.Record(PortfolioImpact, StageNotApplicable);
    } else {
      recorder.Record(PortfolioImpact, StageReview);
    }
    var analysed := if ScanRuns(m, t) || packageScan then StageCompleted else StageNotApplicable;
    recorder.Record(CohortDistribution, analysed);
    recorder.Record(PipelineImpact, analysed);
  }

  /** The explanation the model may draft. */
  method Explain(m: Mission, t: Tally, gemini: Gemini, budget: InvestigationBudget, recorder: StageRecorder)
    requires budget.calls <= budget.maxCalls
    modifies budget, recorder
    ensures budget.calls <= budget.maxCalls
    ensures var explained := if Explainable(m, t) then StageCompleted else StageNotApplicable;
            recorder.stages == old(recorder.stages)[ExplanationFacts := explained][ExplanationDraft := explained]
  {
    if Explainable(m, t) {
      var draft := budget.AskGemini(gemini);
      recorder.Record(ExplanationFacts, StageCompleted);
      recorder.Record(ExplanationDraft, StageCompleted);
    } else {
      recorder.Record(ExplanationFacts, StageNotApplicable);
      recorder.Record(ExplanationDraft, StageNotApplicable);
    }
  }

  /** Remediation is proposed for packages that differ, and validated again outside equivalence mode. */
  predicate Repairs(m: Mission) { m.rightPackage && m.diffs != [] && !m.equivalenceMode }

  method Repair(m: Mission, t: Tally, gemini: Gemini, budget: InvestigationBudget, recorder: StageRecorder)
    requires budget.calls <= budget.maxCalls
    modifies budget, recorder
    ensures budget.calls <= budget.maxCalls
    ensures var repaired := if Repairs(m) then StageCompleted else StageNotApplicable;
            recorder.stages == old(recorder.stages)[Remediation := repaired][Revalidation := repaired]
  {
    var repair := StageNotApplicable;
    if m.rightPackage && m.diffs != [] {
      var proposal := budget.AskGemini(gemini);
      if !m.equivalenceMode {
        if t.mismatches + t.inconclusive > 0 || m.controls {
          var revalidation := budget.AskGemini(gemini);
        }
        repair := StageCompleted;
      }
    }
    recorder.Record(Remediation, repair);
    recorder.Record(Revalidation, repair);
  }

  /** The drafts and proposals the model may contribute. */
  method Propose(m: Mission, t: Tally, gemini: Gemini, budget: InvestigationBudget, recorder: StageRecorder)
    requires budget.calls <= budget.maxCalls
    modifies budget, recorder
    ensures budget.calls <= budget.maxCalls
    ensures recorder.stages.Keys
         == old(recorder.stages).Keys + {ExplanationFacts, ExplanationDraft, Remediation, Revalidation}
    ensures Clean(old(recorder.stages)) ==> Clean(recorder.stages)
  {
    Explain(m, t, gemini, budget, recorder);
    Repair(m, t, gemini, budget, recorder);
  }

  const OPENING: set<Stage> :=
    {RequestValidation, SourceALoad, SourceBLoadOrConnectorCheck, CompatibilityGate, SemanticDiff}
  const PLANNING: set<Stage> := {DependencyImpact, TestCandidateGeneration, TestSelection}

  /** What follows the probes: the scans, the model's contributions, and the decision. */
  method Finish(
      m: Mission, gemini: Gemini, budget: InvestigationBudget, recorder: StageRecorder, sections: Sections,
      tests: seq<ScenarioId>, tally: Tally, ghost ids: seq<ScenarioId>) returns (outcome: MissionOutcome)
    requires budget.calls <= budget.maxCalls && tally == TallyOf(m, ids) && MandatoryEvidenceOk(sections)
    requires (m.connector || m.rightPackage) && (m.diffs != [] || !m.rightPackage)
    requires recorder.stages.Keys == OPENING + PLANNING && (m.reviewFlagged || Clean(recorder.stages))
    modifies budget, recorder
    ensures budget.calls <= budget.maxCalls
    ensures outcome == FinalDecision(m, tally, false)
    ensures AllAccountedFor(recorder.stages)
    ensures outcome == Decided(Pass) ==> Clean(recorder.stages)
  {
    RecordExecution(m, tally, tests, recorder, ids);
    var packageScan := m.rightPackage;
    if m.rightPackage && tally.mismatches == 0 {
      var vote := budget.AskGemini(gemini);
      if vote.Some? {
        packageScan := vote.value.runPortfolio;
      }
    }
    if ScanRuns(m, tally) && m.impact.value.status == ImpactStatus.Cancelled {
      recorder.Backfill();
      return MissionCancelled;
    }
    RecordPortfolio(m, tally, packageScan, recorder);
    Propose(m, tally, gemini, budget, recorder);
    outcome := ReachDecision(m, tally, packageScan, sections, recorder);
  }

  method ReachDecision(m: Mission, tally: Tally, packageScan: bool, sections: Sections, recorder: StageRecorder)
    returns (outcome: MissionOutcome)
    requires MandatoryEvidenceOk(sections) && recorder.stages.Keys >= BEFORE_DECISION
    modifies recorder
    ensures outcome == StageEight(m, tally, packageScan, sections, {})
    ensures AllAccountedFor(recorder.stages)
    ensures recorder.stages == old(recorder.stages)[Decision := StageCompleted][EvidenceFinalization := StageCompleted]
    ensures Clean(old(recorder.stages)) ==> Clean(recorder.stages)
  {
    var missing := Unrecorded(recorder.stages) - {Decision, EvidenceFinalization};
    NothingMissing(recorder.stages);
    outcome := Decide(m, tally, packageScan, sections, missing);
    recorder.Record(Decision, StageCompleted);
    NothingMissing(recorder.stages);
    var stillMissing := Unrecorded(recorder.stages) - {EvidenceFinalization};
    recorder.Record(EvidenceFinalization, if stillMissing == {} then StageCompleted else StageFailed);
    EverythingRecorded(recorder.stages);
  }

  const BEFORE_DECISION: set<Stage> :=
    OPENING + PLANNING + {OracleExecution, TargetExecution, Reconciliation}
    + {PortfolioImpact, CohortDistribution, PipelineImpact}
    + {ExplanationFacts, ExplanationDraft, Remediation, Revalidation}

  lemma EverythingRecorded(stages: Stages)
    requires stages.Keys >= BEFORE_DECISION + {Decision, EvidenceFinalization}
    ensures AllAccountedFor(stages)
  {
    EveryStage();
    forall s: Stage ensures s in stages {
      assert s in BEFORE_DECISION + {Decision, EvidenceFinalization};
    }
  }

  lemma EveryStage()
    ensures forall s: Stage :: s in BEFORE_DECISION + {Decision, EvidenceFinalization}
  {
    forall s: Stage ensures s in BEFORE_DECISION + {Decision, EvidenceFinalization} {
      match s
      case RequestValidation => case SourceALoad => case SourceBLoadOrConnectorCheck => case CompatibilityGate =>
      case SemanticDiff => case DependencyImpact => case TestCandidateGeneration => case TestSelection =>
      case OracleExecution => case TargetExecution => case Reconciliation => case PortfolioImpact =>
      case PipelineImpact => case CohortDistribution => case Remediation => case Revalidation =>
      case ExplanationFacts => case ExplanationDraft => case Decision => case EvidenceFinalization =>
    }
  }

  /** Every branch up to the decision records its stages. */
  lemma NothingMissing(stages: Stages)
    requires stages.Keys >= BEFORE_DECISION
    ensures Unrecorded(stages) - {Decision, EvidenceFinalization} == {}
  {
    EveryStage();
    forall s: Stage ensures s in stages || s == Decision || s == EvidenceFinalization {
      assert s in BEFORE_DECISION + {Decision, EvidenceFinalization};
    }
  }

  /** Once a probe has found a mismatch, further probes cannot change the decision. */
  lemma MismatchDecides(m: Mission, a: Tally, b: Tally)
    requires a.mismatches > 0 && b.mismatches > 0
    requires m.connector ==> Success in a.statuses && Success in b.statuses
    ensures FinalDecision(m, a, false) == FinalDecision(m, b, false)
  {
  }

  /** A mission that gets as far as generated tests: it has a target, and is not
      a comparison of packages without a difference. */
  predicate Investigates(m: Mission) { (m.rightPackage || m.connector) && !(m.rightPackage && m.diffs == []) }

  /** Calls made before the probe rounds: to prioritise differences, and to select tests. */
  function CallsBefore(m: Mission, cfg: AgentConfig): nat {
    var wanted := (if m.rightPackage then 1 else 0) + if m.connector then 0 else 1;
    if wanted <= cfg.maxGeminiCalls then wanted else cfg.maxGeminiCalls
  }

  /** The first tests: the plan's own, unless the model selects from the pool. */
  function FirstTests(m: Mission, cfg: AgentConfig, gemini: Gemini): seq<ScenarioId> {
    if m.connector || cfg.maxGeminiCalls < 2 || gemini(1).None? || Known(gemini(1).value.ids, m.candidates) == []
    then m.tests
    else Known(gemini(1).value.ids, m.candidates)
  }

  function LaterRounds(m: Mission, cfg: AgentConfig, gemini: Gemini): seq<seq<ScenarioId>> {
    RoundsFrom(m, cfg, gemini, CallsBefore(m, cfg), FirstTests(m, cfg, gemini), [])
  }

  /** Opening stages, up to the semantic comparison. */
  method Open(m: Mission, recorder: StageRecorder) returns (sections: Sections)
    requires recorder.stages == map[]
    modifies recorder
    ensures recorder.stages.Keys == OPENING && (m.reviewFlagged || Clean(recorder.stages))
    ensures recorder.stages[CompatibilityGate] == (if m.reviewFlagged then StageReview else StageCompleted)
    ensures recorder.stages[SemanticDiff] == (if m.rightPackage then StageCompleted else StageNotApplicable)
    ensures recorder.stages[SourceBLoadOrConnectorCheck]
         == if m.rightPackage || m.connector then StageCompleted else StageNotApplicable
    ensures sections == Sections(SectionSucceeded, SectionNotRun, if m.rightPackage then SectionSucceeded else SectionNotRun)
  {
    recorder.Record(RequestValidation, StageCompleted);
    recorder.Record(SourceALoad, StageCompleted);
    recorder.Record(SourceBLoadOrConnectorCheck,
                    if m.rightPackage || m.connector then StageCompleted else StageNotApplicable);
    if m.reviewFlagged {
      recorder.Record(CompatibilityGate, StageReview);
    } else {
      recorder.Record(CompatibilityGate, StageCompleted);
    }
    if m.rightPackage {
      recorder.Record(SemanticDiff, StageCompleted);
      sections := Sections(SectionSucceeded, SectionNotRun, SectionSucceeded);
    } else {
      recorder.Record(SemanticDiff, StageNotApplicable);
      sections := Sections(SectionSucceeded, SectionNotRun, SectionNotRun);
    }
  }

  /** Planning: the generated tests, or the model's selection from the pool. */
  method PlanTests(m: Mission, cfg: AgentConfig, gemini: Gemini, budget: InvestigationBudget, recorder: StageRecorder)
    returns (tests: seq<ScenarioId>)
    requires Investigates(m) && budget.calls == 0 && budget.maxCalls == cfg.maxGeminiCalls
    modifies budget, recorder
    ensures tests == FirstTests(m, cfg, gemini)
    ensures budget.calls == CallsBefore(m, cfg) <= budget.maxCalls && budget.executed == old(budget.executed)
    ensures recorder.stages.Keys == old(recorder.stages).Keys + PLANNING
    ensures recorder.stages[DependencyImpact] == (if m.rightPackage then StageCompleted else StageNotApplicable)
    ensures recorder.stages[TestCandidateGeneration] == recorder.stages[TestSelection] == StageCompleted
    ensures Clean(old(recorder.stages)) ==> Clean(recorder.stages)
  {
    tests := m.tests;
    if m.rightPackage {
      var prioritized := budget.AskGemini(gemini);
      recorder.Record(DependencyImpact, StageCompleted);
    } else {
      recorder.Record(DependencyImpact, StageNotApplicable);
    }
    recorder.Record(TestCandidateGeneration, StageCompleted);
    if !m.connector {
      var chosen := budget.AskGemini(gemini);
      if chosen.Some? && Known(chosen.value.ids, m.candidates) != [] {
        tests := Known(chosen.value.ids, m.candidates);
      }
    }
    recorder.Record(TestSelection, StageCompleted);
  }

  /** An uncancelled mission. Its outcome is a function of the mission's inputs,
      whatever the model answers and however often it fails; the model is asked
      no more often than the budget allows; every stage ends with an outcome on
      record, and after a PASS none has failed or asks for review. */
  method RunMission(m: Mission, cfg: AgentConfig, gemini: Gemini)
    returns (outcome: MissionOutcome, calls: nat, tests: seq<ScenarioId>, rounds: seq<seq<ScenarioId>>, stages: Stages)
    ensures outcome == OutcomeOf(m)
    ensures calls <= cfg.maxGeminiCalls
    ensures m.rightPackage && m.diffs == [] ==> calls == 0
    ensures |rounds| <= cfg.maxProbeRounds && FreshRounds(m.candidates, tests, rounds)
    ensures tests == (if Investigates(m) then FirstTests(m, cfg, gemini) else [])
    ensures rounds == (if Investigates(m) then LaterRounds(m, cfg, gemini) else [])
    ensures outcome != Raised ==> AllAccountedFor(stages)
    ensures outcome == Decided(Pass) ==> Clean(stages)
  {
    var budget := new InvestigationBudget(cfg.maxGeminiCalls);
    var recorder := new StageRecorder();
    tests, rounds := [], [];
    var sections := Open(m, recorder);
    if !m.rightPackage && !m.connector {
      return Raised, 0, tests, rounds, recorder.stages;
    }
    if m.rightPackage && m.diffs == [] {
      outcome := CleanEquivalence(m, recorder);
      return outcome, 0, tests, rounds, recorder.stages;
    }
    tests := PlanTests(m, cfg, gemini, budget, recorder);
    var first := budget.RunProbes(m, tests, NO_PROBES, []);
    assert [] + tests == tests;
    var tally;
    tally, rounds := InvestigateFurther(m, cfg, gemini, budget, tests, first);
    sections := sections.(experiments := SectionSucceeded);
    outcome := Finish(m, gemini, budget, recorder, sections, tests, tally, Flat(tests, rounds));
    calls, stages := budget.calls, recorder.stages;
    SameDecision(m, tests, rounds);
  }

  lemma {:induction false} FlatExtends(tests: seq<ScenarioId>, rounds: seq<seq<ScenarioId>>)
    ensures tests <= Flat(tests, rounds)
  {
    if rounds != [] {
      FlatExtends(tests, rounds[..|rounds| - 1]);
    }
  }

  lemma SameDecision(m: Mission, tests: seq<ScenarioId>, rounds: seq<seq<ScenarioId>>)
    requires Investigates(m) && (m.connector ==> tests == m.tests)
    requires TallyOf(m, tests).mismatches == 0 ==> rounds == []
    ensures FinalDecision(m, TallyOf(m, Flat(tests, rounds)), false) == OutcomeOf(m)
  {
    if m.connector && TallyOf(m, tests).mismatches > 0 {
      var all := Flat(tests, rounds);
      FlatExtends(tests, rounds);
      assert all == tests + all[|tests|..];
      TallyGrows(m, tests, all[|tests|..]);
      MismatchMeansSuccess(m, tests);
      MismatchDecides(m, TallyOf(m, tests), TallyOf(m, all));
    }
  }

  // ---- Which scenarios run twice ---------------------------------------------------------------

  /** The probes a mission runs, in order. */
  function ProbesRun(m: Mission, cfg: AgentConfig, gemini: Gemini): seq<ScenarioId> {
    if Investigates(m) then Flat(FirstTests(m, cfg, gemini), LaterRounds(m, cfg, gemini)) else []
  }

  lemma DistinctConcat<T>(a: seq<T>, b: seq<T>)
    requires forall x | x in b :: x !in a
    ensures Distinct(a + b) <==> Distinct(a) && Distinct(b)
  {
    if Distinct(a + b) {
      forall i, j | 0 <= i < j < |a| ensures a[i] != a[j] {
        assert (a + b)[i] != (a + b)[j];
      }
      forall i, j | 0 <= i < j < |b| ensures b[i] != b[j] {
        assert (a + b)[|a| + i] != (a + b)[|a| + j];
      }
    }
    if Distinct(a) && Distinct(b) {
      forall i, j | 0 <= i < j < |a + b| ensures (a + b)[i] != (a + b)[j] {
        if i < |a| <= j {
          assert (a + b)[j] in b;
        }
      }
    }
  }

  /** Since no round runs what ran before it, a scenario runs twice only within
      the first tests or within one round. */
  lemma {:induction false} RepeatsStayWithinRounds(
      candidates: seq<ScenarioId>, tests: seq<ScenarioId>, rounds: seq<seq<ScenarioId>>)
    requires FreshRounds(candidates, tests, rounds)
    ensures Distinct(Flat(tests, rounds)) <==> Distinct(tests) && forall k | 0 <= k < |rounds| :: Distinct(rounds[k])
  {
    if rounds != [] {
      var (before, last) := (rounds[..|rounds| - 1], rounds[|rounds| - 1]);
      RepeatsStayWithinRounds(candidates, tests, before);
      DistinctConcat(Flat(tests, before), last);
      assert rounds == before + [last];
    }
  }

  lemma {:induction false} KnownMembers(ids: seq<string>, pool: seq<ScenarioId>)
    ensures forall x :: x in Known(ids, pool) <==> x in ids && x in pool
    ensures |Known(ids, pool)| <= |ids|
  {
    if ids != [] {
      KnownMembers(ids[..|ids| - 1], pool);
      assert ids == ids[..|ids| - 1] + [ids[|ids| - 1]];
    }
  }

  /** No id of the pool is named a second time before `cap` ids of the pool have been. */
  ghost predicate NoRepeatBefore(cap: nat, ids: seq<string>, pool: seq<ScenarioId>) {
    forall i, j | 0 <= i < j < |ids| && ids[i] == ids[j] && ids[i] in pool :: |Known(ids[..j], pool)| >= cap
  }

  lemma DistinctSnoc<T>(s: seq<T>, x: T)
    ensures Distinct(s + [x]) <==> Distinct(s) && x !in s
  {
    if x !in s {
      DistinctConcat(s, [x]);
    } else {
      var i :| 0 <= i < |s| && s[i] == x;
      assert (s + [x])[i] == (s + [x])[|s|];
    }
  }

  /** The ids taken from an answer are distinct exactly when it repeats none before the cap is filled. */
  lemma {:induction false} TakenDistinctExactlyWhen(cap: nat, ids: seq<string>, pool: seq<ScenarioId>)
    ensures Distinct(FirstOf(cap, Known(ids, pool))) <==> NoRepeatBefore(cap, ids, pool)
  {
    if ids != [] {
      var n := |ids| - 1;
      var (init, x) := (ids[..n], ids[n]);
      var known := Known(init, pool);
      TakenDistinctExactlyWhen(cap, init, pool);
      KnownMembers(init, pool);
      RepeatSnoc(cap, ids, pool);
      if x in pool && |known| < cap {
        DistinctSnoc(known, x);
      } else if x in pool {
        assert (known + [x])[..cap] == known[..cap];
      }
    }
  }

  lemma RepeatSnoc(cap: nat, ids: seq<string>, pool: seq<ScenarioId>)
    requires ids != []
    ensures var n := |ids| - 1;
            NoRepeatBefore(cap, ids, pool) == (
              && NoRepeatBefore(cap, ids[..n], pool)
              && (ids[n] in pool && ids[n] in ids[..n] ==> |Known(ids[..n], pool)| >= cap))
  {
    var n := |ids| - 1;
    var init := ids[..n];
    assert forall j | 0 <= j < n :: init[..j] == ids[..j];
    if NoRepeatBefore(cap, ids, pool) {
      forall i, j | 0 <= i < j < n && init[i] == init[j] && init[i] in pool ensures |Known(init[..j], pool)| >= cap {
        assert ids[i] == ids[j];
      }
      if ids[n] in pool && ids[n] in init {
        var i :| 0 <= i < n && init[i] == ids[n];
        assert ids[i] == ids[n];
      }
    }
    if NoRepeatBefore(cap, init, pool) && (ids[n] in pool && ids[n] in init ==> |Known(init, pool)| >= cap) {
      forall i, j | 0 <= i < j <= n && ids[i] == ids[j] && ids[i] in pool ensures |Known(ids[..j], pool)| >= cap {
        if j < n {
          assert init[i] == init[j];
        } else {
          assert init[i] == ids[n];
        }
      }
    }
  }

  function IdsNamed(gemini: Gemini, call: nat): seq<string> {
    if gemini(call).Some? then gemini(call).value.ids else []
  }

  /** The pool of the k-th later round. */
  function PoolAt(m: Mission, tests: seq<ScenarioId>, rounds: seq<seq<ScenarioId>>, k: nat): seq<ScenarioId>
    requires k <= |rounds|
  {
    Untested(m.candidates, Members(Flat(tests, rounds[..k])))
  }

  ghost predicate RoundAnswered(
      m: Mission, gemini: Gemini, calls: nat, tests: seq<ScenarioId>, rounds: seq<seq<ScenarioId>>, k: nat)
    requires k < |rounds|
  {
    && gemini(calls + k).Some? && !gemini(calls + k).value.sufficient
    && rounds[k] == NextRound(IdsNamed(gemini, calls + k), PoolAt(m, tests, rounds, k))
  }

  lemma {:induction false} RepeatedExactly<T>(
      next: (nat, seq<T>) -> Option<T>, calls: nat, asked: nat, done: seq<T>, cap: nat)
    requires asked == calls + |done|
    ensures var all := Repeated(next, asked, done, cap);
            && done <= all
            && (|all| >= cap || next(calls + |all|, all).None?)
            && forall k: nat | |done| <= k < |all| :: k < cap && next(calls + k, all[..k]) == Some(all[k])
    decreases cap - |done|
  {
    if |done| < cap && next(asked, done).Some? {
      RepeatedExactly(next, calls, asked + 1, done + [next(asked, done).value], cap);
      var all := Repeated(next, asked, done, cap);
      assert all[..|done|] == done;
    }
  }

  /** Round `k` is what follows the rounds before it. */
  ghost predicate FollowsAt(
      m: Mission, cfg: AgentConfig, gemini: Gemini, calls: nat, tests: seq<ScenarioId>, rounds: seq<seq<ScenarioId>>, k: nat)
    requires k < |rounds|
  {
    k < cfg.maxProbeRounds && RoundAfter(m, cfg, gemini, tests)(calls + k, rounds[..k]) == Some(rounds[k])
  }

  ghost predicate Follows(
      m: Mission, cfg: AgentConfig, gemini: Gemini, calls: nat, tests: seq<ScenarioId>, rounds: seq<seq<ScenarioId>>)
  {
    forall k: nat | k < |rounds| :: FollowsAt(m, cfg, gemini, calls, tests, rounds, k)
  }

  lemma FollowingAreAnswered(
      m: Mission, cfg: AgentConfig, gemini: Gemini, calls: nat, tests: seq<ScenarioId>, rounds: seq<seq<ScenarioId>>)
    requires Follows(m, cfg, gemini, calls, tests, rounds)
    ensures forall k: nat | k < |rounds| :: RoundAnswered(m, gemini, calls, tests, rounds, k)
  {
    forall k: nat | k < |rounds| ensures RoundAnswered(m, gemini, calls, tests, rounds, k) {
      assert FollowsAt(m, cfg, gemini, calls, tests, rounds, k);
    }
  }

  lemma {:induction false} FollowingAreFresh(
      m: Mission, cfg: AgentConfig, gemini: Gemini, calls: nat, tests: seq<ScenarioId>, rounds: seq<seq<ScenarioId>>)
    requires Follows(m, cfg, gemini, calls, tests, rounds)
    ensures FreshRounds(m.candidates, tests, rounds)
  {
    if rounds != [] {
      var n := |rounds| - 1;
      var before := rounds[..n];
      forall k: nat | k < n ensures FollowsAt(m, cfg, gemini, calls, tests, before, k) {
        assert FollowsAt(m, cfg, gemini, calls, tests, rounds, k) && before[..k] == rounds[..k];
      }
      FollowingAreFresh(m, cfg, gemini, calls, tests, before);
      assert FollowsAt(m, cfg, gemini, calls, tests, rounds, n);
      ExtraAreFresh(m, gemini(calls + n), tests, before);
    }
  }

  lemma RoundsFollow(m: Mission, cfg: AgentConfig, gemini: Gemini, calls: nat, tests: seq<ScenarioId>)
    ensures var rounds := RoundsFrom(m, cfg, gemini, calls, tests, []);
            && Follows(m, cfg, gemini, calls, tests, rounds)
            && (|rounds| >= cfg.maxProbeRounds || RoundAfter(m, cfg, gemini, tests)(calls + |rounds|, rounds).None?)
  {
    var rounds := RoundsFrom(m, cfg, gemini, calls, tests, []);
    RepeatedExactly(RoundAfter(m, cfg, gemini, tests), calls, calls, [], cfg.maxProbeRounds);
    forall k: nat | k < |rounds| ensures FollowsAt(m, cfg, gemini, calls, tests, rounds, k) {
      assert RoundAfter(m, cfg, gemini, tests)(calls + k, rounds[..k]) == Some(rounds[k]);
    }
  }

  lemma RoundsAreFresh(m: Mission, cfg: AgentConfig, gemini: Gemini, calls: nat, tests: seq<ScenarioId>)
    ensures var rounds := RoundsFrom(m, cfg, gemini, calls, tests, []);
            && FreshRounds(m.candidates, tests, rounds)
            && forall k: nat | k < |rounds| :: RoundAnswered(m, gemini, calls, tests, rounds, k)
  {
    var rounds := RoundsFrom(m, cfg, gemini, calls, tests, []);
    RoundsFollow(m, cfg, gemini, calls, tests);
    FollowingAreAnswered(m, cfg, gemini, calls, tests, rounds);
    FollowingAreFresh(m, cfg, gemini, calls, tests, rounds);
  }

  /** Why no further round follows: the rounds or the calls are used up, nothing
      disagrees, or the next answer fails, suffices or names no untested candidate. */
  ghost predicate RoundsOver(
      m: Mission, cfg: AgentConfig, gemini: Gemini, asked: nat, tests: seq<ScenarioId>, rounds: seq<seq<ScenarioId>>)
  {
    || |rounds| >= cfg.maxProbeRounds || asked >= cfg.maxGeminiCalls
    || !SomeDisagree(m, Flat(tests, rounds))
    || gemini(asked).None? || gemini(asked).value.sufficient
    || forall i | i in gemini(asked).value.ids :: i !in m.candidates || i in Flat(tests, rounds)
  }

  lemma NothingToRun(m: Mission, answer: Answer, tests: seq<ScenarioId>, rounds: seq<seq<ScenarioId>>)
    requires !answer.sufficient
    ensures ExtraProbes(m, Some(answer), tests, rounds) == []
       <==> forall i | i in answer.ids :: i !in m.candidates || i in Flat(tests, rounds)
  {
    var pool := Untested(m.candidates, Members(Flat(tests, rounds)));
    KnownMembers(answer.ids, pool);
    forall i ensures i in pool <==> i in m.candidates && i !in Flat(tests, rounds) {
      if i in m.candidates && i !in Flat(tests, rounds) {
        UntestedHas(m.candidates, Members(Flat(tests, rounds)), i);
      }
    }
    var known := Known(answer.ids, pool);
    RoundIsFirstFive(answer.ids, pool);
    if known != [] {
      assert known[0] in pool && known[0] in answer.ids && |NextRound(answer.ids, pool)| > 0;
    }
  }

  lemma RoundAfterExactly(
      m: Mission, cfg: AgentConfig, gemini: Gemini, asked: nat, tests: seq<ScenarioId>, rounds: seq<seq<ScenarioId>>)
    ensures |rounds| < cfg.maxProbeRounds && RoundAfter(m, cfg, gemini, tests)(asked, rounds).Some?
       <==> !RoundsOver(m, cfg, gemini, asked, tests, rounds)
  {
    TallyMeans(m, Flat(tests, rounds));
    if gemini(asked).Some? && !gemini(asked).value.sufficient {
      NothingToRun(m, gemini(asked).value, tests, rounds);
    }
  }

  /** The rounds are not over before round `k`. */
  ghost predicate GoesOnAt(
      m: Mission, cfg: AgentConfig, gemini: Gemini, calls: nat, tests: seq<ScenarioId>, rounds: seq<seq<ScenarioId>>, k: nat)
    requires k < |rounds|
  {
    !RoundsOver(m, cfg, gemini, calls + k, tests, rounds[..k])
  }

  lemma FollowingGoesOn(
      m: Mission, cfg: AgentConfig, gemini: Gemini, calls: nat, tests: seq<ScenarioId>, rounds: seq<seq<ScenarioId>>, k: nat)
    requires k < |rounds| && FollowsAt(m, cfg, gemini, calls, tests, rounds, k)
    ensures GoesOnAt(m, cfg, gemini, calls, tests, rounds, k)
  {
    RoundAfterExactly(m, cfg, gemini, calls + k, tests, rounds[..k]);
  }

  /** A mission goes on probing exactly as long as it may and has reason to:
      before each round none of the reasons to end them holds, and after the last one does. */
  lemma RoundsExactly(m: Mission, cfg: AgentConfig, gemini: Gemini)
    requires Investigates(m)
    ensures var (tests, rounds, calls) := (FirstTests(m, cfg, gemini), LaterRounds(m, cfg, gemini), CallsBefore(m, cfg));
            && (forall k: nat | k < |rounds| :: GoesOnAt(m, cfg, gemini, calls, tests, rounds, k))
            && RoundsOver(m, cfg, gemini, calls + |rounds|, tests, rounds)
  {
    var (tests, rounds, calls) := (FirstTests(m, cfg, gemini), LaterRounds(m, cfg, gemini), CallsBefore(m, cfg));
    RoundsFollow(m, cfg, gemini, calls, tests);
    RoundAfterExactly(m, cfg, gemini, calls + |rounds|, tests, rounds);
    forall k: nat | k < |rounds| ensures GoesOnAt(m, cfg, gemini, calls, tests, rounds, k) {
      FollowingGoesOn(m, cfg, gemini, calls, tests, rounds, k);
    }
  }

  /** A round runs the first five ids, in the order they are named, that are in the pool. */
  lemma RoundIsFirstFive(ids: seq<string>, pool: seq<ScenarioId>)
    ensures NextRound(ids, pool) <= Known(ids, pool)
    ensures |NextRound(ids, pool)| == if |Known(ids, pool)| < 5 then |Known(ids, pool)| else 5
  {
  }

  /** The k-th round's answer names no id of its pool a second time among the first five it names. */
  ghost predicate AnswersOnce(
      m: Mission, gemini: Gemini, calls: nat, tests: seq<ScenarioId>, rounds: seq<seq<ScenarioId>>, k: nat)
    requires k < |rounds|
  {
    NoRepeatBefore(5, IdsNamed(gemini, calls + k), PoolAt(m, tests, rounds, k))
  }

  lemma RepeatsComeFromAnswers(
      m: Mission, gemini: Gemini, calls: nat, tests: seq<ScenarioId>, rounds: seq<seq<ScenarioId>>)
    requires FreshRounds(m.candidates, tests, rounds)
    requires forall k: nat | k < |rounds| :: RoundAnswered(m, gemini, calls, tests, rounds, k)
    ensures Distinct(Flat(tests, rounds))
       <==> Distinct(tests) && forall k: nat | k < |rounds| :: AnswersOnce(m, gemini, calls, tests, rounds, k)
  {
    RepeatsStayWithinRounds(m.candidates, tests, rounds);
    forall k: nat | k < |rounds| ensures Distinct(rounds[k]) <==> AnswersOnce(m, gemini, calls, tests, rounds, k) {
      assert RoundAnswered(m, gemini, calls, tests, rounds, k);
      TakenDistinctExactlyWhen(5, IdsNamed(gemini, calls + k), PoolAt(m, tests, rounds, k));
    }
  }

  /** A mission runs no scenario twice if and only if its first tests repeat none
      and no answer that led to a further round named an id of its pool a second
      time among the first five it named. */
  lemma NoScenarioTwiceExactlyWhen(m: Mission, cfg: AgentConfig, gemini: Gemini)
    requires Investigates(m)
    ensures var (tests, rounds, calls) := (FirstTests(m, cfg, gemini), LaterRounds(m, cfg, gemini), CallsBefore(m, cfg));
            && (forall k: nat | k < |rounds| :: RoundAnswered(m, gemini, calls, tests, rounds, k))
            && (Distinct(ProbesRun(m, cfg, gemini)) <==>
                  Distinct(tests) && forall k: nat | k < |rounds| :: AnswersOnce(m, gemini, calls, tests, rounds, k))
  {
    var (tests, rounds, calls) := (FirstTests(m, cfg, gemini), LaterRounds(m, cfg, gemini), CallsBefore(m, cfg));
    RoundsAreFresh(m, cfg, gemini, calls, tests);
    RepeatsComeFromAnswers(m, gemini, calls, tests, rounds);
  }

  /** Tests the model selected repeat a scenario exactly when its answer names an id of the pool twice. */
  lemma SelectionDistinctExactlyWhen(ids: seq<string>, pool: seq<ScenarioId>)
    ensures Distinct(Known(ids, pool)) <==> forall i, j | 0 <= i < j < |ids| && ids[i] == ids[j] :: ids[i] !in pool
  {
    TakenDistinctExactlyWhen(|ids| + 1, ids, pool);
    KnownMembers(ids, pool);
    forall j | 0 <= j < |ids| ensures |Known(ids[..j], pool)| <= j {
      KnownMembers(ids[..j], pool);
    }
  }

  /** A package mission whose selecting answer names a candidate twice runs it twice from the start. */
  lemma RepeatedSelectionRunsTwice(m: Mission, cfg: AgentConfig, gemini: Gemini, i: nat, j: nat)
    requires Investigates(m) && !m.connector && cfg.maxGeminiCalls >= 2 && gemini(1).Some?
    requires var ids := gemini(1).value.ids; i < j < |ids| && ids[i] == ids[j] && ids[i] in m.candidates
    ensures !Distinct(ProbesRun(m, cfg, gemini))
  {
    var ids := gemini(1).value.ids;
    KnownMembers(ids, m.candidates);
    assert ids[i] in Known(ids, m.candidates);
    SelectionDistinctExactlyWhen(ids, m.candidates);
    NoScenarioTwiceExactlyWhen(m, cfg, gemini);
  }

  /** A connector mission with a mismatch whose first answer names an untested
      candidate twice runs that scenario twice. */
  lemma RepeatedIdRunsTwice(m: Mission, cfg: AgentConfig, gemini: Gemini, id: ScenarioId)
    requires m.connector && !m.rightPackage && TallyOf(m, m.tests).mismatches > 0
    requires cfg.maxProbeRounds > 0 && cfg.maxGeminiCalls > 0
    requires id in m.candidates && id !in m.tests && gemini(0) == Some(Answer([id, id], false, false))
    ensures LaterRounds(m, cfg, gemini) != [] && LaterRounds(m, cfg, gemini)[0] == [id, id]
    ensures !Distinct(ProbesRun(m, cfg, gemini))
  {
    var rounds := RoundsFrom(m, cfg, gemini, 0, m.tests, []);
    ExtraNamedTwice(m, id);
    NextRoundFrom(m, cfg, gemini, 0, 1, m.tests, [], [id, id]);
    RepeatedExactly(RoundAfter(m, cfg, gemini, m.tests), 0, 1, [] + [[id, id]], cfg.maxProbeRounds);
    assert rounds[0] == ([] + [[id, id]])[0];
    RoundsAreFresh(m, cfg, gemini, 0, m.tests);
    RepeatInRound(m, m.tests, rounds, id);
  }

  lemma ExtraNamedTwice(m: Mission, id: ScenarioId)
    requires id in m.candidates && id !in m.tests
    ensures ExtraProbes(m, Some(Answer([id, id], false, false)), m.tests, []) == [id, id]
  {
    UntestedHas(m.candidates, Members(m.tests), id);
    NamedTwice(id, Untested(m.candidates, Members(m.tests)));
  }

  lemma RepeatInRound(m: Mission, tests: seq<ScenarioId>, rounds: seq<seq<ScenarioId>>, id: ScenarioId)
    requires FreshRounds(m.candidates, tests, rounds) && rounds != [] && rounds[0] == [id, id]
    ensures !Distinct(Flat(tests, rounds))
  {
    RepeatsStayWithinRounds(m.candidates, tests, rounds);
    assert rounds[0][0] == rounds[0][1];
  }

  lemma NamedTwice(id: ScenarioId, pool: seq<ScenarioId>)
    requires id in pool
    ensures NextRound([id, id], pool) == [id, id]
  {
    assert [id, id][..1] == [id] && [id][..0] == [];
    assert Known([id][..0], pool) == [];
    assert Known([id, id][..1], pool) == [id];
  }

  lemma {:induction false} UntestedHas(candidates: seq<ScenarioId>, executed: set<ScenarioId>, id: ScenarioId)
    requires id in candidates && id !in executed
    ensures id in Untested(candidates, executed)
  {
    if candidates[|candidates| - 1] != id {
      assert candidates == candidates[..|candidates| - 1] + [candidates[|candidates| - 1]];
      UntestedHas(candidates[..|candidates| - 1], executed, id);
    }
  }

  // ---- What a PASS means ------------------------------------------------------------------

  predicate Disagrees(m: Mission, id: ScenarioId) {
    m.probe(id).Premiums? && m.probe(id).expected != m.probe(id).actual
  }

  predicate Agrees(m: Mission, id: ScenarioId) {
    m.probe(id).Premiums? && m.probe(id).expected == m.probe(id).actual
  }

  ghost predicate SomeDisagree(m: Mission, ids: seq<ScenarioId>) {
    exists k :: 0 <= k < |ids| && Disagrees(m, ids[k])
  }

  ghost predicate SomePriced(m: Mission, ids: seq<ScenarioId>) {
    exists k :: 0 <= k < |ids| && m.probe(ids[k]).Premiums?
  }

  ghost predicate SomePartial(m: Mission, ids: seq<ScenarioId>) {
    exists k :: 0 <= k < |ids| && m.probe(ids[k]) == NoPremium(true)
  }

  ghost predicate AllAgree(m: Mission, ids: seq<ScenarioId>) {
    forall k | 0 <= k < |ids| :: Agrees(m, ids[k])
  }

  ghost predicate Any<T>(s: seq<T>, p: T -> bool) { exists k :: 0 <= k < |s| && p(s[k]) }

  lemma AnySnoc<T>(s: seq<T>, p: T -> bool)
    requires s != []
    ensures Any(s, p) <==> Any(s[..|s| - 1], p) || p(s[|s| - 1])
  {
    var init := s[..|s| - 1];
    if Any(s, p) {
      var k :| 0 <= k < |s| && p(s[k]);
      assert k < |s| - 1 ==> init[k] == s[k];
    }
    if Any(init, p) {
      var k :| 0 <= k < |init| && p(init[k]);
      assert s[k] == init[k];
    }
  }

  lemma SomeSnoc(m: Mission, ids: seq<ScenarioId>)
    requires ids != []
    ensures var (init, last) := (ids[..|ids| - 1], ids[|ids| - 1]);
            && (SomeDisagree(m, ids) <==> SomeDisagree(m, init) || Disagrees(m, last))
            && (SomePriced(m, ids) <==> SomePriced(m, init) || m.probe(last).Premiums?)
            && (SomePartial(m, ids) <==> SomePartial(m, init) || m.probe(last) == NoPremium(true))
            && ((forall k | 0 <= k < |ids| :: m.probe(ids[k]).Premiums?) <==>
                  (forall k | 0 <= k < |init| :: m.probe(init[k]).Premiums?) && m.probe(last).Premiums?)
  {
    var init := ids[..|ids| - 1];
    var (disagrees, priced, unpriced, part) :=
      ((id: ScenarioId) => Disagrees(m, id), (id: ScenarioId) => m.probe(id).Premiums?,
       (id: ScenarioId) => !m.probe(id).Premiums?, (id: ScenarioId) => m.probe(id) == NoPremium(true));
    AnySnoc(ids, disagrees);
    AnySnoc(ids, priced);
    AnySnoc(ids, unpriced);
    AnySnoc(ids, part);
    assert SomePartial(m, ids) == Any(ids, part) && SomePartial(m, init) == Any(init, part);
    assert SomeDisagree(m, ids) == Any(ids, disagrees) && SomeDisagree(m, init) == Any(init, disagrees);
    assert SomePriced(m, ids) == Any(ids, priced) && SomePriced(m, init) == Any(init, priced);
  }

  /** What a tally says about the probes behind it. */
  lemma {:induction false} TallyMeans(m: Mission, ids: seq<ScenarioId>)
    ensures var t := TallyOf(m, ids);
            && (t.mismatches > 0 <==> SomeDisagree(m, ids))
            && (t.inconclusive == 0 <==> forall k | 0 <= k < |ids| :: m.probe(ids[k]).Premiums?)
            && (Success in t.statuses <==> m.connector && SomePriced(m, ids))
            && (PartialResponse in t.statuses <==> m.connector && SomePartial(m, ids))
            && (PartialResponse in t.statuses ==> t.inconclusive > 0)
            && (m.connector && t.inconclusive == 0 ==> |t.statuses| == |ids|)
  {
    if ids != [] {
      var n := |ids| - 1;
      TallyMeans(m, ids[..n]);
      SomeSnoc(m, ids);
    }
  }

  /** A tally remembers the first probe that did not agree. */
  lemma {:induction false} FirstMiss(m: Mission, ids: seq<ScenarioId>, k: nat)
    requires k <= |ids| && forall j | 0 <= j < k :: Agrees(m, ids[j])
    requires k < |ids| ==> !Agrees(m, ids[k])
    ensures TallyOf(m, ids).miss == if k < |ids| then Some(m.probe(ids[k])) else None
  {
    if ids != [] {
      var n := |ids| - 1;
      FirstMiss(m, ids[..n], if k <= n then k else n);
    }
  }

  /** There is something to explain exactly when a probe disagreed, its cause is
      known, and the first probe that did not agree returned both premiums. */
  lemma ExplainableExactly(m: Mission, ids: seq<ScenarioId>, k: nat)
    requires k <= |ids| && (forall j | 0 <= j < k :: Agrees(m, ids[j])) && (k < |ids| ==> !Agrees(m, ids[k]))
    ensures Explainable(m, TallyOf(m, ids)) <==>
              && SomeDisagree(m, ids) && (m.rootCause || !m.rightPackage)
              && k < |ids| && m.probe(ids[k]).Premiums?
  {
    TallyMeans(m, ids);
    FirstMiss(m, ids, k);
  }

  /** Two packages without a difference: the first five tests decide. */
  lemma PackageOutcomeExactly(m: Mission)
    requires m.rightPackage && m.diffs == []
    ensures OutcomeOf(m) == Raised <==>
              exists k: nat :: k < 5 && k < |m.tests| && !m.probe(m.tests[k]).Premiums?
    ensures OutcomeOf(m) == Decided(BlockDeployment) <==>
              && (forall k: nat | k < 5 && k < |m.tests| :: m.probe(m.tests[k]).Premiums?)
              && (exists k: nat :: k < 5 && k < |m.tests| && Disagrees(m, m.tests[k]))
    ensures OutcomeOf(m) == Decided(Pass) <==>
              !m.reviewFlagged && forall k: nat | k < 5 && k < |m.tests| :: Agrees(m, m.tests[k])
    ensures OutcomeOf(m) == Decided(Review) <==>
              m.reviewFlagged && forall k: nat | k < 5 && k < |m.tests| :: Agrees(m, m.tests[k])
  {
    var probes := FastPathProbes(m);
    assert |probes| == if |m.tests| <= 5 then |m.tests| else 5;
    forall k: nat | k < 5 && k < |m.tests| ensures probes[k] == m.tests[k] {
    }
    if !AllPriced(m, probes) {
      var k: nat :| k < |probes| && !m.probe(probes[k]).Premiums?;
      assert !m.probe(m.tests[k]).Premiums?;
    } else if !AllEqual(m, probes) {
      var k: nat :| k < |probes| && Disagrees(m, probes[k]);
      assert Disagrees(m, m.tests[k]);
    }
  }

  /** Packages that differ block, without a connector always, and with one unless
      its scan was cancelled; a mission without a target raises. */
  lemma DifferencesBlock(m: Mission)
    requires !m.connector && !(m.rightPackage && m.diffs == [])
    ensures OutcomeOf(m) == if m.rightPackage then Decided(BlockDeployment) else Raised
  {
  }

  /** The scan of a mission ran: a runner is configured and some probe returned a premium. */
  ghost predicate Scanned(m: Mission) { m.connector && m.impact.Some? && SomePriced(m, m.tests) }

  /** A connector mission is cancelled exactly when its scan ran and was cancelled;
      it blocks exactly when that is not so and a difference, a probe or the scan
      proved a mismatch, so that inconclusive evidence alone never blocks; and it
      passes exactly when nothing flagged it, some probe ran, all agreed, and a
      configured scan was complete without a mismatch. */
  lemma ConnectorOutcomeExactly(m: Mission)
    requires m.connector && !(m.rightPackage && m.diffs == [])
    ensures OutcomeOf(m) != Raised
    ensures OutcomeOf(m) == MissionCancelled <==> Scanned(m) && m.impact.value.status == ImpactStatus.Cancelled
    ensures OutcomeOf(m) == Decided(BlockDeployment) <==>
              && !(Scanned(m) && m.impact.value.status == ImpactStatus.Cancelled)
              && (m.diffs != [] || SomeDisagree(m, m.tests) || (Scanned(m) && m.impact.value.mismatches > 0))
    ensures OutcomeOf(m) == Decided(Pass) <==>
              && m.diffs == [] && !m.reviewFlagged && m.tests != [] && AllAgree(m, m.tests)
              && (m.impact.Some? ==>
                    && m.impact.value.status != ImpactStatus.Cancelled
                    && m.impact.value.mismatches == 0 && m.impact.value.completeness == CompleteScan)
  {
    var t := TallyOf(m, m.tests);
    TallyMeans(m, m.tests);
    assert ScanRuns(m, t) <==> Scanned(m);
    if m.tests != [] && forall k | 0 <= k < |m.tests| :: m.probe(m.tests[k]).Premiums? {
      assert m.probe(m.tests[0]).Premiums?;
    }
    assert !SomeDisagree(m, m.tests) && (forall k | 0 <= k < |m.tests| :: m.probe(m.tests[k]).Premiums?)
           <==> AllAgree(m, m.tests);
  }

  /** With the verdict a scan really returns, a connector mission passes exactly
      when nothing flagged it, some probe ran, all agreed, and a configured scan
      was PASS_ELIGIBLE. */
  lemma ConnectorPassExactlyWhen(m: Mission)
    requires m.connector && !m.rightPackage && m.diffs == []
    requires m.impact.Some? ==> exists list :: Release.Coherent(m.impact.value, list)
    ensures OutcomeOf(m) == Decided(Pass) <==>
              && !m.reviewFlagged
              && m.tests != [] && AllAgree(m, m.tests)
              && (m.impact.Some? ==> m.impact.value.decision == PassEligible)
  {
    ConnectorOutcomeExactly(m);
  }

  /** The final stage with whatever is missing: which evidence blocks, and what a PASS needs. */
  lemma StageEightExactly(
      m: Mission, ids: seq<ScenarioId>, packageScan: bool, sections: Sections, missing: set<Stage>)
    ensures var scanned := m.connector && m.impact.Some? && SomePriced(m, ids);
            var outcome := StageEight(m, TallyOf(m, ids), packageScan, sections, missing);
            var blocks :=
              || m.diffs != [] || missing != {} || SomeDisagree(m, ids)
              || (scanned && m.impact.value.mismatches > 0)
              || (!(m.connector && m.impact.Some?) && packageScan && m.exposure > 0.0)
              || sections.validation != SectionSucceeded || sections.experiments != SectionSucceeded
              || sections.semantic == SectionFailed;
            && (outcome == Decided(BlockDeployment) <==> blocks)
            && (outcome == Decided(Pass) <==>
                  && !blocks && !m.reviewFlagged
                  && (forall k | 0 <= k < |ids| :: m.probe(ids[k]).Premiums?)
                  && (m.connector ==> ids != [])
                  && (m.connector && m.impact.Some? ==> scanned && m.impact.value.completeness == CompleteScan))
            && (outcome == Decided(Review) || outcome == Decided(Pass) || outcome == Decided(BlockDeployment))
  {
    TallyMeans(m, ids);
  }

  /** So a connector mission that passes with an impact runner rests on a scan
      that cleared every row of the portfolio. */
  lemma MissionPassRestsOnClearedRows(
      p: Protocol.Setup, now: Time, steps: seq<Protocol.Step>, coordinator: nat, m: Mission)
    requires p.Valid() && coordinator in Protocol.Run(p, Protocol.Init(p, now), steps).returned
    requires m.connector && !m.rightPackage && m.diffs == []
    requires m.impact == Some(Protocol.Run(p, Protocol.Init(p, now), steps).returned[coordinator])
    requires OutcomeOf(m) == Decided(Pass)
    ensures Release.AllCleared(p, Protocol.Run(p, Protocol.Init(p, now), steps))
  {
    Release.OneVerdictForAll(p, now, steps, coordinator);
    ConnectorPassExactlyWhen(m);
    Release.ReleaseIsSound(p, now, steps);
  }

  /** Given both a package and a connector, two packages without a semantic
      difference pass on sample probes alone, whatever a portfolio scan of the
      connector would have found. The one caller today resolves either target,
      never both, so this marks a premise of the theorems above. */
  lemma PackageMasksConnector(m: Mission, impact: Option<ImpactAggregate>)
    requires m.rightPackage && m.diffs == [] && !m.reviewFlagged && AllEqual(m, FastPathProbes(m))
    ensures OutcomeOf(m.(connector := true, impact := impact)) == Decided(Pass)
  {
    var both := m.(connector := true, impact := impact);
    assert FastPathProbes(both) == FastPathProbes(m);
    assert AllPriced(both, FastPathProbes(m)) && AllEqual(both, FastPathProbes(m));
  }
}
