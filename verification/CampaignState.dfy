/** What a campaign asks and records, and what makes its record safe. */
module CampaignState {
  import opened Wrappers
  import opened CampaignPlan
  import Wire

  datatype Phase =
    | Initialized | GatingBaseline | Calibrating | Exploring | NothingToConfirm | Confirming | Done | Aborted

  /** One paired comparison on one workload. */
  datatype ResultSummary = ResultSummary(workloadId: string, blocks: nat, lowerRatio: real, thresholdMet: bool)

  datatype CalibrationOutcome = CalibrationOutcome(
    workloadId: string, plannedBlocks: nat, recommendedBlocks: nat, selectedBlocks: nat, blockCapApplied: bool)

  datatype Decision = GateFailed | Promoted | NotPromoted

  datatype CandidateOutcome = CandidateOutcome(
    candidateId: string, baselineBefore: string, baselineAfter: string, decision: Decision,
    gateFailures: seq<string>, results: seq<ResultSummary>)

  datatype Transition = Transition(candidateId: string, from: string, to: string)

  datatype ConfirmationOutcome = ConfirmationOutcome(
    originalBaseline: string, explorationWinner: string, acceptedBaseline: string, confirmed: bool, results: seq<ResultSummary>)

  datatype Outcome = NoCandidatePromoted | Confirmed | ConfirmationInconclusive | OperationalFailure

  datatype State = State(
    phase: Phase,
    originalBaseline: string,
    currentBaseline: string,
    acceptedBaseline: string,
    calibratedBlocks: map<string, nat>,
    calibrations: seq<CalibrationOutcome>,
    candidates: seq<CandidateOutcome>,
    promotions: seq<Transition>,
    confirmation: Option<ConfirmationOutcome>,
    outcome: Option<Outcome>)

  // ----- the outside world -----

  /** How a gate's process ended: its exit status, and what it printed if that is text. */
  datatype Process = Exited(status: int, stdout: Option<string>) | NotExited

  datatype Event =
    | PhaseStarted(phase: Phase)
    | IdentityChecked(matches: bool)
    | GateStarted(artifact: string, workload: string)
    | CalibrationStarted(workload: string, blocks: nat)
    | ComparisonStarted(baseline: string, candidate: string, workload: string, blocks: nat, heldOut: bool)
    | Completed
    | GateResult(artifact: string, workload: string, passed: bool)
    | CalibrationResult(workload: string, recommended: nat, selected: nat)
    | WorkloadResult(baseline: string, candidate: string, workload: string, ratio: real, heldOut: bool)
    | Noted

  /**
   One thing asked of the outside world, with its answer: writing an event, saving the state,
   writing the report, hashing a file, running a gate, and the two kinds of paired runs with
   what they report.
   */
  datatype Exchange =
    | Wrote(event: Event, ok: bool)
    | Saved(kept: bool, ok: bool)
    | Reported(ok: bool)
    | Hashed(matches: bool)
    | GateRan(artifact: string, workload: string, process: Process)
    | Calibrated(workload: string, blocks: nat, seeds: seq<nat>, recommended: Option<nat>)
    | Compared(baseline: string, candidate: string, workload: string, blocks: nat, heldOut: bool, seeds: seq<nat>, ratio: Option<real>)

  /** What the world has ready for whatever is asked next. */
  datatype Answer = Answer(ok: bool, kept: bool, process: Process, recommended: Option<nat>, ratio: Option<real>)

  /** The answer to the first question, to the second, and so on. */
  type World = nat -> Answer

  predicate IsAnswer(a: Answer, x: Exchange) {
    match x
    case Wrote(_, ok) => ok == a.ok
    case Saved(kept, ok) => kept == a.kept && ok == (a.kept && a.ok)
    case Reported(ok) => ok == a.ok
    case Hashed(matches) => matches == a.ok
    case GateRan(_, _, process) => process == a.process
    case Calibrated(_, _, _, recommended) => recommended == a.recommended
    case Compared(_, _, _, _, _, _, ratio) => ratio == a.ratio
  }

  /** Each question got the answer that was ready for it. */
  ghost predicate Answered(world: World, asked: seq<Exchange>) {
    forall i: nat :: i < |asked| ==> IsAnswer(world(i), asked[i])
  }

  /** The gate ended well and printed a record that says so, for this artifact on this workload. */
  predicate Equivalent(artifact: string, workload: string, p: Process) {
    p.Exited? && p.status == 0 && p.stdout.Some? && Wire.ParseGate(p.stdout.value, artifact, workload).Ok?
  }

  /** The gate found a difference. */
  predicate Inequivalent(p: Process) {
    p.Exited? && p.status == 1
  }

  predicate Passed(x: Exchange) {
    x.GateRan? && Equivalent(x.artifact, x.workload, x.process)
  }

  /** An answer that ends the campaign. */
  predicate Failing(x: Exchange) {
    match x
    case Wrote(_, ok) => !ok
    case Saved(_, ok) => !ok
    case Reported(ok) => !ok
    case Hashed(matches) => !matches
    case GateRan(artifact, workload, p) => !Equivalent(artifact, workload, p) && !Inequivalent(p)
    case Calibrated(_, _, _, recommended) => recommended.None? || recommended.value == 0
    case Compared(_, _, _, _, _, _, ratio) => ratio.None?
  }

  predicate Fine(asked: seq<Exchange>) {
    forall i :: 0 <= i < |asked| ==> !Failing(asked[i])
  }

  predicate IsRun(x: Exchange) {
    x.GateRan? || x.Calibrated? || x.Compared?
  }

  // ----- the runs of one kind -----

  datatype Kind = GatesOf(artifact: string) | TrialsOf(candidate: string) | FinalRuns | CalibrationRuns

  predicate Is(kind: Kind, x: Exchange) {
    match kind
    case GatesOf(artifact) => x.GateRan? && x.artifact == artifact
    case TrialsOf(candidate) => x.Compared? && x.candidate == candidate && !x.heldOut
    case FinalRuns => x.Compared? && x.heldOut
    case CalibrationRuns => x.Calibrated?
  }

  /** The exchanges of the kind, in order. */
  function Only(asked: seq<Exchange>, kind: Kind): seq<Exchange> {
    if asked == [] then []
    else
      var x := asked[|asked| - 1];
      Only(asked[..|asked| - 1], kind) + if Is(kind, x) then [x] else []
  }

  lemma OnlyAppend(asked: seq<Exchange>, x: Exchange, kind: Kind)
    ensures Only(asked + [x], kind) == Only(asked, kind) + if Is(kind, x) then [x] else []
  {
    assert (asked + [x])[..|asked + [x]| - 1] == asked;
  }

  lemma {:induction false} InOnly(asked: seq<Exchange>, kind: Kind, x: Exchange)
    ensures x in Only(asked, kind) <==> x in asked && Is(kind, x)
  {
    if asked != [] {
      var n := |asked| - 1;
      InOnly(asked[..n], kind, x);
      assert asked == asked[..n] + [asked[n]];
    }
  }

  // ----- what the recorded results mean -----

  predicate ResultOk(plan: Plan, calibrated: map<string, nat>, w: Workload, r: ResultSummary) {
    && r.workloadId == w.id
    && w.id in calibrated && r.blocks == calibrated[w.id]
    && (r.thresholdMet <==> r.lowerRatio > plan.minLowerBoundRatio)
  }

  /** One result for each workload, in order. */
  predicate ResultsOk(plan: Plan, calibrated: map<string, nat>, results: seq<ResultSummary>) {
    && |results| == |plan.workloads|
    && forall k :: 0 <= k < |results| ==> ResultOk(plan, calibrated, plan.workloads[k], results[k])
  }

  predicate AllMet(results: seq<ResultSummary>) {
    forall k :: 0 <= k < |results| ==> results[k].thresholdMet
  }

  predicate AllCalibrated(plan: Plan, calibrated: map<string, nat>) {
    forall k :: 0 <= k < |plan.workloads| ==> plan.workloads[k].id in calibrated
  }

  /** The baseline after these candidates. */
  function Winner(original: string, outcomes: seq<CandidateOutcome>): string {
    if outcomes == [] then original else outcomes[|outcomes| - 1].baselineAfter
  }

  function Promotions(outcomes: seq<CandidateOutcome>): seq<Transition> {
    if outcomes == [] then []
    else
      var c := outcomes[|outcomes| - 1];
      Promotions(outcomes[..|outcomes| - 1])
      + if c.decision.Promoted? then [Transition(c.candidateId, c.baselineBefore, c.baselineAfter)] else []
  }

  predicate CandidateOk(plan: Plan, calibrated: map<string, nat>, before: string, candidate: Artifact, c: CandidateOutcome) {
    && c.candidateId == candidate.id
    && c.baselineBefore == before
    && c.baselineAfter == (if c.decision.Promoted? then candidate.id else before)
    && (c.decision.GateFailed? <==> c.gateFailures != [])
    && (c.decision.GateFailed? ==> c.results == [])
    && (!c.decision.GateFailed? ==>
          && ResultsOk(plan, calibrated, c.results)
          && (c.decision.Promoted? <==> AllMet(c.results)))
  }

  predicate CandidatesOk(plan: Plan, calibrated: map<string, nat>, outcomes: seq<CandidateOutcome>) {
    && |outcomes| <= |plan.candidates|
    && forall k :: 0 <= k < |outcomes| ==>
         CandidateOk(plan, calibrated, Winner(plan.baseline.id, outcomes[..k]), plan.candidates[k], outcomes[k])
  }

  // ----- what was reported to the campaign is what it recorded -----

  /** The workloads on which the gate did not pass. */
  function NotPassed(gates: seq<Exchange>): seq<string> {
    if gates == [] then []
    else
      var last := gates[|gates| - 1];
      NotPassed(gates[..|gates| - 1]) + if last.GateRan? && !Passed(last) then [last.workload] else []
  }

  /** The gate of the artifact was run on each of the first workloads, once and in order. */
  predicate GatedOn(plan: Plan, gates: seq<Exchange>, artifact: string, count: nat)
    requires count <= |plan.workloads|
  {
    |gates| == count && forall k :: 0 <= k < count ==>
      gates[k].GateRan? && gates[k].artifact == artifact && gates[k].workload == plan.workloads[k].id
  }

  /** The two were compared on each of the first workloads, once and in order, with the seeds of that stage; these are the ratios reported. */
  predicate ComparedOn(plan: Plan, calibrated: map<string, nat>, runs: seq<Exchange>, baseline: string, candidate: string,
                       heldOut: bool, ratios: seq<real>)
    requires |ratios| <= |plan.workloads|
  {
    |runs| == |ratios| && forall k :: 0 <= k < |ratios| ==>
      var w := plan.workloads[k].id;
      && w in calibrated
      && runs[k] == Compared(baseline, candidate, w, calibrated[w], heldOut,
                             (if heldOut then plan.confirmation else plan.exploration).seeds, Some(ratios[k]))
  }

  function Ratios(results: seq<ResultSummary>): seq<real> {
    seq(|results|, k requires 0 <= k < |results| => results[k].lowerRatio)
  }

  /**
   The outcome of a candidate is what its processes said: its gate ran once on each workload
   and failed on just the recorded ones, and unless it failed there, one comparison on each
   workload reported the recorded ratio.
   */
  predicate TrialOk(plan: Plan, calibrated: map<string, nat>, asked: seq<Exchange>, c: CandidateOutcome) {
    var gates, runs := Only(asked, GatesOf(c.candidateId)), Only(asked, TrialsOf(c.candidateId));
    && GatedOn(plan, gates, c.candidateId, |plan.workloads|)
    && c.gateFailures == NotPassed(gates)
    && if c.gateFailures != [] then runs == []
       else |c.results| == |plan.workloads| && ComparedOn(plan, calibrated, runs, c.baselineBefore, c.candidateId, false, Ratios(c.results))
  }

  predicate TrialsOk(plan: Plan, s: State, asked: seq<Exchange>) {
    forall k :: 0 <= k < |s.candidates| ==> TrialOk(plan, s.calibratedBlocks, asked, s.candidates[k])
  }

  /** The count the campaign goes on with is the allowed one that is nearest to the recommended one. */
  predicate CalibrationOk(w: Workload, calibrated: map<string, nat>, c: CalibrationOutcome) {
    && c.workloadId == w.id && c.plannedBlocks == w.calibrationBlocks && c.recommendedBlocks > 0
    && w.minBlocks <= c.selectedBlocks <= w.maxBlocks
    && (w.minBlocks <= c.recommendedBlocks <= w.maxBlocks ==> c.selectedBlocks == c.recommendedBlocks)
    && (c.recommendedBlocks < w.minBlocks ==> c.selectedBlocks == w.minBlocks)
    && (c.recommendedBlocks > w.maxBlocks ==> c.selectedBlocks == w.maxBlocks)
    && (c.blockCapApplied <==> c.selectedBlocks < c.recommendedBlocks)
    && w.id in calibrated && calibrated[w.id] == c.selectedBlocks
  }

  /** One calibration for each recorded outcome, which reported the recorded count; perhaps one more that was not recorded. */
  predicate CalibratedOn(plan: Plan, runs: seq<Exchange>, calibrations: seq<CalibrationOutcome>)
    requires |calibrations| <= |plan.workloads|
  {
    && |calibrations| <= |runs| <= |calibrations| + 1
    && forall k :: 0 <= k < |calibrations| ==>
         runs[k] == Calibrated(plan.workloads[k].id, plan.workloads[k].calibrationBlocks, plan.calibration.seeds,
                               Some(calibrations[k].recommendedBlocks))
  }

  predicate CalibrationsOk(plan: Plan, s: State, asked: seq<Exchange>) {
    && |s.calibrations| <= |plan.workloads|
    && (forall k :: 0 <= k < |s.calibrations| ==> CalibrationOk(plan.workloads[k], s.calibratedBlocks, s.calibrations[k]))
    && (forall k :: |s.calibrations| <= k < |plan.workloads| ==> plan.workloads[k].id !in s.calibratedBlocks)
    && CalibratedOn(plan, Only(asked, CalibrationRuns), s.calibrations)
  }

  /**
   The final comparison is made once, winner against original, after every candidate was
   tried; all its runs but the last reported a ratio.
   */
  predicate FinalOk(plan: Plan, s: State, asked: seq<Exchange>) {
    var runs := Only(asked, FinalRuns);
    runs != [] ==>
      && |s.candidates| == |plan.candidates| && s.promotions != [] && |runs| <= |plan.workloads|
      && forall k :: 0 <= k < |runs| ==>
           var w := plan.workloads[k].id;
           && w in s.calibratedBlocks
           && runs[k].Compared?
           && runs[k] == Compared(plan.baseline.id, s.currentBaseline, w, s.calibratedBlocks[w], true,
                                  plan.confirmation.seeds, runs[k].ratio)
  }

  predicate ConfirmationOk(plan: Plan, s: State, asked: seq<Exchange>) {
    match s.confirmation
    case None => s.acceptedBaseline == plan.baseline.id
    case Some(c) =>
      && |s.candidates| == |plan.candidates| && s.promotions != []
      && c.originalBaseline == plan.baseline.id && c.explorationWinner == s.currentBaseline
      && ResultsOk(plan, s.calibratedBlocks, c.results)
      && ComparedOn(plan, s.calibratedBlocks, Only(asked, FinalRuns), plan.baseline.id, s.currentBaseline, true, Ratios(c.results))
      && (c.confirmed <==> AllMet(c.results))
      && s.acceptedBaseline == c.acceptedBaseline == if c.confirmed then s.currentBaseline else plan.baseline.id
  }

  predicate OutcomeOk(plan: Plan, s: State) {
    match s.outcome
    case None => true
    case Some(NoCandidatePromoted) => |s.candidates| == |plan.candidates| && s.promotions == [] && s.confirmation.None?
    case Some(Confirmed) => s.confirmation.Some? && s.confirmation.value.confirmed
    case Some(ConfirmationInconclusive) => s.confirmation.Some? && !s.confirmation.value.confirmed
    case Some(OperationalFailure) => true
  }

  predicate RecordOk(plan: Plan, s: State) {
    && s.originalBaseline == plan.baseline.id
    && CandidatesOk(plan, s.calibratedBlocks, s.candidates)
    && (s.candidates != [] ==> |s.calibrations| == |plan.workloads|)
    && s.currentBaseline == Winner(plan.baseline.id, s.candidates)
    && s.promotions == Promotions(s.candidates)
    && OutcomeOk(plan, s)
  }

  // ----- each exchange is covered by what came before -----

  /** The gate of the artifact passed on every workload. */
  predicate Gated(plan: Plan, asked: seq<Exchange>, artifact: string) {
    forall k :: 0 <= k < |plan.workloads| ==> HasPassed(asked, artifact, plan.workloads[k].id)
  }

  predicate HasPassed(asked: seq<Exchange>, artifact: string, workload: string) {
    exists x :: x in asked && x.GateRan? && x.artifact == artifact && x.workload == workload && Passed(x)
  }

  /** What was asked just before. */
  predicate Before(asked: seq<Exchange>, i: nat, back: nat, x: Exchange)
    requires i <= |asked| && back > 0
  {
    back <= i && asked[i - back] == x
  }

  /** The file was just hashed, and found to be the one frozen at the start. */
  predicate Checked(asked: seq<Exchange>, i: nat)
    requires i <= |asked|
  {
    Before(asked, i, 3, Hashed(true)) && Before(asked, i, 2, Wrote(IdentityChecked(true), true))
  }

  /**
   A process runs only behind its file's check and its written announcement, with nothing having failed; a
   paired run only if it fits its timeout, with the seeds of its stage, and between artifacts
   whose gates passed; and what is written of a process is what it answered.
   */
  predicate StepOk(plan: Plan, asked: seq<Exchange>, i: nat)
    requires i < |asked|
  {
    && (IsRun(asked[i]) ==> Fine(asked[..i]) && Checked(asked, i))
    && match asked[i]
       case GateRan(artifact, workload, _) => Before(asked, i, 1, Wrote(GateStarted(artifact, workload), true))
       case Calibrated(workload, blocks, seeds, _) =>
         && Before(asked, i, 1, Wrote(CalibrationStarted(workload, blocks), true))
         && FitsTimeout(plan.limits, blocks) && seeds == plan.calibration.seeds
         && Gated(plan, asked[..i], plan.baseline.id)
       case Compared(baseline, candidate, workload, blocks, heldOut, seeds, _) =>
         && Before(asked, i, 1, Wrote(ComparisonStarted(baseline, candidate, workload, blocks, heldOut), true))
         && FitsTimeout(plan.limits, blocks)
         && seeds == (if heldOut then plan.confirmation else plan.exploration).seeds
         && Gated(plan, asked[..i], baseline) && Gated(plan, asked[..i], candidate)
         && (!heldOut ==> Only(asked[..i], FinalRuns) == [])
       case Wrote(GateResult(artifact, workload, passed), _) =>
         && 2 <= i && Before(asked, i, 1, Wrote(Completed, true))
         && asked[i - 2].GateRan? && asked[i - 2].artifact == artifact && asked[i - 2].workload == workload
         && (passed <==> Passed(asked[i - 2]))
       case Wrote(CalibrationResult(workload, recommended, _), _) =>
         && 2 <= i && Before(asked, i, 1, Wrote(Completed, true))
         && asked[i - 2].Calibrated? && asked[i - 2].workload == workload && asked[i - 2].recommended == Some(recommended)
       case Wrote(WorkloadResult(baseline, candidate, workload, ratio, heldOut), _) =>
         && 2 <= i && Before(asked, i, 1, Wrote(Completed, true))
         && asked[i - 2].Compared? && asked[i - 2].baseline == baseline && asked[i - 2].candidate == candidate
         && asked[i - 2].workload == workload && asked[i - 2].heldOut == heldOut && asked[i - 2].ratio == Some(ratio)
       case _ => true
  }

  predicate StepsOk(plan: Plan, asked: seq<Exchange>) {
    forall i :: 0 <= i < |asked| ==> StepOk(plan, asked, i)
  }

  predicate Safe(plan: Plan, s: State, asked: seq<Exchange>) {
    && RecordOk(plan, s)
    && StepsOk(plan, asked)
    && CalibrationsOk(plan, s, asked)
    && TrialsOk(plan, s, asked)
    && FinalOk(plan, s, asked)
    && ConfirmationOk(plan, s, asked)
  }

  // ----- what safety means to a reader of the record -----

  /** Each promotion starts where the one before ended. */
  predicate Chain(from: string, promotions: seq<Transition>, to: string) {
    if promotions == [] then from == to
    else
      var last := promotions[|promotions| - 1];
      last.to == to && last.candidateId == to && Chain(from, promotions[..|promotions| - 1], last.from)
  }

  /** The promotions are of candidates at increasing places of the plan's order. */
  ghost predicate InOrder(plan: Plan, promotions: seq<Transition>, limit: nat) {
    promotions == [] ||
    exists k :: 0 <= k < limit && k < |plan.candidates| && plan.candidates[k].id == promotions[|promotions| - 1].candidateId
      && InOrder(plan, promotions[..|promotions| - 1], k)
  }

  lemma {:induction false} PromotionsChain(plan: Plan, calibrated: map<string, nat>, outcomes: seq<CandidateOutcome>)
    requires CandidatesOk(plan, calibrated, outcomes)
    ensures Chain(plan.baseline.id, Promotions(outcomes), Winner(plan.baseline.id, outcomes))
    ensures InOrder(plan, Promotions(outcomes), |outcomes|)
    decreases |outcomes|
  {
    hide CandidatesOk, InOrder;
    if outcomes == [] {
      NoneInOrder(plan);
    } else {
      var n := |outcomes| - 1;
      var earlier, c := outcomes[..n], outcomes[n];
      EarlierOk(plan, calibrated, outcomes);
      PromotionsChain(plan, calibrated, earlier);
      if c.decision.Promoted? {
        OneMoreInOrder(plan, Promotions(earlier), n, Transition(c.candidateId, c.baselineBefore, c.baselineAfter));
        assert Promotions(outcomes)[..|Promotions(outcomes)| - 1] == Promotions(earlier);
      } else {
        assert Promotions(outcomes) == Promotions(earlier);
        InOrderLater(plan, Promotions(earlier), n, n + 1);
      }
    }
  }

  lemma EarlierOk(plan: Plan, calibrated: map<string, nat>, outcomes: seq<CandidateOutcome>)
    requires CandidatesOk(plan, calibrated, outcomes) && outcomes != []
    ensures var n := |outcomes| - 1;
            && n < |plan.candidates| && CandidatesOk(plan, calibrated, outcomes[..n])
            && CandidateOk(plan, calibrated, Winner(plan.baseline.id, outcomes[..n]), plan.candidates[n], outcomes[n])
  {
    hide CandidateOk, Winner;
    var n := |outcomes| - 1;
    forall k | 0 <= k < n
      ensures CandidateOk(plan, calibrated, Winner(plan.baseline.id, outcomes[..n][..k]), plan.candidates[k], outcomes[..n][k])
    {
      assert outcomes[..n][..k] == outcomes[..k];
    }
  }

  lemma NoneInOrder(plan: Plan)
    ensures InOrder(plan, [], 0)
  {
  }

  lemma OneMoreInOrder(plan: Plan, promotions: seq<Transition>, k: nat, next: Transition)
    requires InOrder(plan, promotions, k) && k < |plan.candidates| && next.candidateId == plan.candidates[k].id
    ensures InOrder(plan, promotions + [next], k + 1)
  {
    assert (promotions + [next])[..|promotions + [next]| - 1] == promotions;
  }

  lemma InOrderLater(plan: Plan, promotions: seq<Transition>, limit: nat, later: nat)
    requires InOrder(plan, promotions, limit) && limit <= later
    ensures InOrder(plan, promotions, later)
  {
  }

  /** In order, of distinct candidates: no candidate is promoted twice, nor the original baseline. */
  lemma {:induction false} PromotionsDistinct(plan: Plan, promotions: seq<Transition>, limit: nat)
    requires DistinctArtifacts(plan) && InOrder(plan, promotions, limit)
    ensures forall i, j :: 0 <= i < j < |promotions| ==> promotions[i].candidateId != promotions[j].candidateId
    ensures forall i :: 0 <= i < |promotions| ==>
      promotions[i].candidateId != plan.baseline.id &&
      exists k :: 0 <= k < limit && k < |plan.candidates| && plan.candidates[k].id == promotions[i].candidateId
    decreases |promotions|
  {
    if promotions != [] {
      var n := |promotions| - 1;
      var k :| 0 <= k < limit && k < |plan.candidates| && plan.candidates[k].id == promotions[n].candidateId
        && InOrder(plan, promotions[..n], k);
      PromotionsDistinct(plan, promotions[..n], k);
      forall i | 0 <= i < n
        ensures promotions[i].candidateId != promotions[n].candidateId && promotions[i].candidateId != plan.baseline.id
        ensures exists m :: 0 <= m < limit && m < |plan.candidates| && plan.candidates[m].id == promotions[i].candidateId
      {
        assert promotions[..n][i] == promotions[i];
      }
    }
  }

  /**
   In a safe record the promotions lead from the original baseline to the current one
   through distinct candidates; the winner, if it is not the original, met the threshold
   on every workload; and another baseline than the original is accepted only if the
   held-out run of the winner on every workload reported a ratio above the threshold again.
   */
  lemma SafeRecord(plan: Plan, s: State, asked: seq<Exchange>)
    requires ValidPlan(plan) && Safe(plan, s, asked)
    ensures Chain(plan.baseline.id, s.promotions, s.currentBaseline)
    ensures forall i, j :: 0 <= i < j < |s.promotions| ==> s.promotions[i].candidateId != s.promotions[j].candidateId
    ensures s.currentBaseline != plan.baseline.id <==> s.promotions != []
    ensures s.acceptedBaseline != plan.baseline.id ==>
      && s.acceptedBaseline == s.currentBaseline
      && |Only(asked, FinalRuns)| == |plan.workloads| > 0
      && forall k :: 0 <= k < |plan.workloads| ==>
           var x := Only(asked, FinalRuns)[k];
           && x.Compared? && x.baseline == plan.baseline.id && x.candidate == s.currentBaseline && x.workload == plan.workloads[k].id
           && x.ratio.Some? && x.ratio.value > plan.minLowerBoundRatio
  {
    hide StepsOk, TrialsOk, CalibrationsOk, FinalOk, ConfirmationOk, Only;
    PromotionsChain(plan, s.calibratedBlocks, s.candidates);
    PromotionsDistinct(plan, s.promotions, |s.candidates|);
    if s.acceptedBaseline != plan.baseline.id {
      AcceptedEarned(plan, s, asked);
    }
  }

  lemma AcceptedEarned(plan: Plan, s: State, asked: seq<Exchange>)
    requires ConfirmationOk(plan, s, asked) && s.acceptedBaseline != plan.baseline.id
    ensures s.acceptedBaseline == s.currentBaseline && |Only(asked, FinalRuns)| == |plan.workloads|
    ensures forall k :: 0 <= k < |plan.workloads| ==>
      var x := Only(asked, FinalRuns)[k];
      && x.Compared? && x.baseline == plan.baseline.id && x.candidate == s.currentBaseline && x.workload == plan.workloads[k].id
      && x.ratio.Some? && x.ratio.value > plan.minLowerBoundRatio
  {
    hide Only;
    var c, runs := s.confirmation.value, Only(asked, FinalRuns);
    forall k | 0 <= k < |plan.workloads|
      ensures var x := runs[k];
              && x.Compared? && x.baseline == plan.baseline.id && x.candidate == s.currentBaseline && x.workload == plan.workloads[k].id
              && x.ratio.Some? && x.ratio.value > plan.minLowerBoundRatio
    {
      assert ResultOk(plan, s.calibratedBlocks, plan.workloads[k], c.results[k]);
      assert runs[k].ratio == Some(Ratios(c.results)[k]);
    }
  }

  lemma {:induction false} NonePassedNot(gates: seq<Exchange>)
    requires forall k :: 0 <= k < |gates| ==> gates[k].GateRan?
    ensures NotPassed(gates) == [] <==> forall k :: 0 <= k < |gates| ==> Passed(gates[k])
  {
    hide Passed;
    if gates != [] {
      var n := |gates| - 1;
      var earlier := gates[..n];
      NonePassedNot(earlier);
      assert forall k :: 0 <= k < n ==> earlier[k] == gates[k];
      assert (forall k :: 0 <= k < |gates| ==> Passed(gates[k])) <==> (forall k :: 0 <= k < n ==> Passed(earlier[k])) && Passed(gates[n]);
    }
  }

  /** The processes of a recorded candidate: a gate on every workload, and a comparison on every workload if all passed. */
  lemma TrialRuns(plan: Plan, s: State, asked: seq<Exchange>, k: nat)
    requires ValidPlan(plan) && Safe(plan, s, asked) && k < |s.candidates|
    ensures var gates, runs := Only(asked, GatesOf(s.candidates[k].candidateId)), Only(asked, TrialsOf(s.candidates[k].candidateId));
            && |gates| == |plan.workloads| > 0
            && (forall j :: 0 <= j < |gates| ==> gates[j].GateRan? && gates[j].workload == plan.workloads[j].id)
            && (s.candidates[k].decision.GateFailed? <==> exists j :: 0 <= j < |gates| && !Passed(gates[j]))
            && if s.candidates[k].decision.GateFailed? then runs == []
               else
                 && |runs| == |plan.workloads| == |s.candidates[k].results|
                 && forall j :: 0 <= j < |runs| ==>
                      && runs[j].Compared? && runs[j].baseline == s.candidates[k].baselineBefore
                      && runs[j].workload == plan.workloads[j].id && runs[j].ratio == Some(s.candidates[k].results[j].lowerRatio)
  {
    hide StepsOk, CalibrationsOk, FinalOk, ConfirmationOk, Passed, Only;
    var c := s.candidates[k];
    CandidateRecorded(plan, s, asked, k);
    TrialFacts(plan, s.calibratedBlocks, asked, Winner(plan.baseline.id, s.candidates[..k]), plan.candidates[k], c);
  }

  lemma CandidateRecorded(plan: Plan, s: State, asked: seq<Exchange>, k: nat)
    requires Safe(plan, s, asked) && k < |s.candidates|
    ensures k < |plan.candidates|
    ensures CandidateOk(plan, s.calibratedBlocks, Winner(plan.baseline.id, s.candidates[..k]), plan.candidates[k], s.candidates[k])
    ensures TrialOk(plan, s.calibratedBlocks, asked, s.candidates[k])
  {
    hide StepsOk, CalibrationsOk, FinalOk, ConfirmationOk, CandidateOk, TrialOk, Winner;
  }

  lemma TrialFacts(plan: Plan, calibrated: map<string, nat>, asked: seq<Exchange>, before: string, candidate: Artifact, c: CandidateOutcome)
    requires CandidateOk(plan, calibrated, before, candidate, c) && TrialOk(plan, calibrated, asked, c)
    ensures var gates, runs := Only(asked, GatesOf(c.candidateId)), Only(asked, TrialsOf(c.candidateId));
            && |gates| == |plan.workloads|
            && (forall j :: 0 <= j < |gates| ==> gates[j].GateRan? && gates[j].workload == plan.workloads[j].id)
            && (c.decision.GateFailed? <==> exists j :: 0 <= j < |gates| && !Passed(gates[j]))
            && if c.decision.GateFailed? then runs == []
               else
                 && |runs| == |plan.workloads| == |c.results|
                 && forall j :: 0 <= j < |runs| ==>
                      && runs[j].Compared? && runs[j].baseline == c.baselineBefore
                      && runs[j].workload == plan.workloads[j].id && runs[j].ratio == Some(c.results[j].lowerRatio)
  {
    hide Only, Passed, ResultsOk, AllMet, NotPassed;
    NonePassedNot(Only(asked, GatesOf(c.candidateId)));
    if c.gateFailures == [] {
      assert forall j :: 0 <= j < |c.results| ==> Ratios(c.results)[j] == c.results[j].lowerRatio;
    }
  }

  /**
   A recorded candidate was promoted exactly when every gate process of it passed and every
   comparison of it reported a ratio above the threshold.
   */
  lemma PromotionEarned(plan: Plan, s: State, asked: seq<Exchange>, k: nat)
    requires ValidPlan(plan) && Safe(plan, s, asked) && k < |s.candidates|
    ensures var c := s.candidates[k];
            c.decision.Promoted? <==>
              && (forall x :: x in asked && x.GateRan? && x.artifact == c.candidateId ==> Passed(x))
              && (forall x :: x in asked && x.Compared? && x.candidate == c.candidateId && !x.heldOut ==>
                    Above(x, plan.minLowerBoundRatio))
  {
    hide Safe, Only, Winner, Passed, TrialOk, CandidateOk, Above;
    var c := s.candidates[k];
    CandidateRecorded(plan, s, asked, k);
    PromotedWhen(plan, s.calibratedBlocks, asked, Winner(plan.baseline.id, s.candidates[..k]), plan.candidates[k], c);
    AllGates(asked, c.candidateId);
    AllTrials(asked, c.candidateId, plan.minLowerBoundRatio);
  }

  lemma PromotedWhen(plan: Plan, calibrated: map<string, nat>, asked: seq<Exchange>, before: string, candidate: Artifact, c: CandidateOutcome)
    requires CandidateOk(plan, calibrated, before, candidate, c) && TrialOk(plan, calibrated, asked, c)
    ensures var gates, runs := Only(asked, GatesOf(c.candidateId)), Only(asked, TrialsOf(c.candidateId));
            c.decision.Promoted? <==>
              && (forall j :: 0 <= j < |gates| ==> gates[j].GateRan? && Passed(gates[j]))
              && (forall j :: 0 <= j < |runs| ==> Above(runs[j], plan.minLowerBoundRatio))
  {
    hide Only, Passed, TrialOk;
    TrialFacts(plan, calibrated, asked, before, candidate, c);
    if !c.decision.GateFailed? {
      var runs := Only(asked, TrialsOf(c.candidateId));
      forall j | 0 <= j < |runs|
        ensures c.results[j].thresholdMet <==> Above(runs[j], plan.minLowerBoundRatio)
      {
        assert ResultOk(plan, calibrated, plan.workloads[j], c.results[j]);
      }
    }
  }

  lemma AllGates(asked: seq<Exchange>, artifact: string)
    ensures var gates := Only(asked, GatesOf(artifact));
            (forall j :: 0 <= j < |gates| ==> gates[j].GateRan? && Passed(gates[j]))
            <==> forall x :: x in asked && x.GateRan? && x.artifact == artifact ==> Passed(x)
  {
    hide Only, Passed;
    var gates := Only(asked, GatesOf(artifact));
    if forall j :: 0 <= j < |gates| ==> gates[j].GateRan? && Passed(gates[j]) {
      forall x | x in asked && x.GateRan? && x.artifact == artifact ensures Passed(x) {
        InOnly(asked, GatesOf(artifact), x);
      }
    }
    if forall x :: x in asked && x.GateRan? && x.artifact == artifact ==> Passed(x) {
      forall j | 0 <= j < |gates| ensures gates[j].GateRan? && Passed(gates[j]) {
        assert gates[j] in gates;
        InOnly(asked, GatesOf(artifact), gates[j]);
      }
    }
  }

  predicate Above(x: Exchange, threshold: real) {
    x.Compared? && x.ratio.Some? && x.ratio.value > threshold
  }

  lemma AllTrials(asked: seq<Exchange>, candidate: string, threshold: real)
    ensures var runs := Only(asked, TrialsOf(candidate));
            (forall j :: 0 <= j < |runs| ==> Above(runs[j], threshold))
            <==> forall x :: x in asked && x.Compared? && x.candidate == candidate && !x.heldOut ==> Above(x, threshold)
  {
    hide Only, Above;
    var runs := Only(asked, TrialsOf(candidate));
    if forall j :: 0 <= j < |runs| ==> Above(runs[j], threshold) {
      forall x | x in asked && x.Compared? && x.candidate == candidate && !x.heldOut ensures Above(x, threshold) {
        InOnly(asked, TrialsOf(candidate), x);
      }
    }
    if forall x :: x in asked && x.Compared? && x.candidate == candidate && !x.heldOut ==> Above(x, threshold) {
      forall j | 0 <= j < |runs| ensures Above(runs[j], threshold) {
        assert runs[j] in runs;
        InOnly(asked, TrialsOf(candidate), runs[j]);
      }
    }
  }

  /** The recorded count is the one the calibration reported, and no allowed count is nearer to it than the selected one. */
  lemma CalibrationNearest(plan: Plan, s: State, asked: seq<Exchange>, k: nat)
    requires ValidPlan(plan) && Safe(plan, s, asked) && k < |s.calibrations|
    ensures k < |plan.workloads|
    ensures Calibrated(plan.workloads[k].id, plan.workloads[k].calibrationBlocks, plan.calibration.seeds,
                       Some(s.calibrations[k].recommendedBlocks)) in asked
    ensures var c, w := s.calibrations[k], plan.workloads[k];
            && w.minBlocks <= c.selectedBlocks <= w.maxBlocks
            && (forall n: int :: w.minBlocks <= n <= w.maxBlocks ==>
                  Distance(c.selectedBlocks, c.recommendedBlocks) <= Distance(n, c.recommendedBlocks))
            && (c.blockCapApplied <==> c.selectedBlocks < c.recommendedBlocks)
            && w.id in s.calibratedBlocks && s.calibratedBlocks[w.id] == c.selectedBlocks
  {
    hide StepsOk, TrialsOk, RecordOk, FinalOk, ConfirmationOk, Only;
    assert CalibrationOk(plan.workloads[k], s.calibratedBlocks, s.calibrations[k]);
    var runs := Only(asked, CalibrationRuns);
    assert runs[k] in runs;
    InOnly(asked, CalibrationRuns, runs[k]);
  }

  function Distance(a: int, b: int): int {
    if a < b then b - a else a - b
  }

  /** A process is run only right after its file was found unchanged. */
  lemma RunsChecked(plan: Plan, s: State, asked: seq<Exchange>, i: nat)
    requires Safe(plan, s, asked) && i < |asked| && IsRun(asked[i])
    ensures i >= 3 && asked[i - 3] == Hashed(true) && !Failing(asked[i - 1]) && !Failing(asked[i - 2])
  {
    hide Failing, Passed, Gated, FitsTimeout, Only, RecordOk, CalibrationsOk, TrialsOk, FinalOk, ConfirmationOk;
    assert StepOk(plan, asked, i);
    assert asked[..i][i - 1] == asked[i - 1] && asked[..i][i - 2] == asked[i - 2];
  }

  /** After an answer that fails no process is run. */
  lemma FailureStops(plan: Plan, s: State, asked: seq<Exchange>, i: nat, j: nat)
    requires Safe(plan, s, asked) && i < j < |asked| && Failing(asked[i])
    ensures !IsRun(asked[j])
  {
    hide Checked, Before, Gated, FitsTimeout, Only, RecordOk, CalibrationsOk, TrialsOk, FinalOk, ConfirmationOk;
    assert StepOk(plan, asked, j);
    assert asked[..j][i] == asked[i];
  }

  /** What is written of a gate, a calibration or a comparison is what the process before it said. */
  lemma LoggedAsAnswered(plan: Plan, s: State, asked: seq<Exchange>, i: nat)
    requires Safe(plan, s, asked) && i < |asked| && asked[i].Wrote?
    ensures match asked[i].event
            case GateResult(artifact, workload, passed) =>
              i >= 2 && asked[i - 2].GateRan? && asked[i - 2].artifact == artifact && asked[i - 2].workload == workload
              && (passed <==> Equivalent(artifact, workload, asked[i - 2].process))
            case CalibrationResult(workload, recommended, _) =>
              i >= 2 && asked[i - 2].Calibrated? && asked[i - 2].workload == workload && asked[i - 2].recommended == Some(recommended)
            case WorkloadResult(baseline, candidate, workload, ratio, heldOut) =>
              i >= 2 && asked[i - 2].Compared? && asked[i - 2].baseline == baseline && asked[i - 2].candidate == candidate
              && asked[i - 2].workload == workload && asked[i - 2].heldOut == heldOut && asked[i - 2].ratio == Some(ratio)
            case _ => true
  {
    hide Fine, Checked, Gated, FitsTimeout, Only, RecordOk, CalibrationsOk, TrialsOk, FinalOk, ConfirmationOk;
    assert StepOk(plan, asked, i);
  }

  lemma ComparedWith(plan: Plan, s: State, asked: seq<Exchange>, i: nat)
    requires Safe(plan, s, asked) && i < |asked| && asked[i].Compared?
    ensures asked[i].seeds == (if asked[i].heldOut then plan.confirmation else plan.exploration).seeds
    ensures !asked[i].heldOut ==> Only(asked[..i], FinalRuns) == []
  {
    hide Fine, Checked, Before, Gated, FitsTimeout, Only, RecordOk, CalibrationsOk, TrialsOk, FinalOk, ConfirmationOk;
    assert StepOk(plan, asked, i);
  }

  /** No held-out run uses a seed that a candidate was tried with. */
  lemma HeldOutSeeds(plan: Plan, s: State, asked: seq<Exchange>, i: nat, j: nat)
    requires ValidPlan(plan) && Safe(plan, s, asked) && i < |asked| && j < |asked|
    requires asked[i].Compared? && asked[j].Compared? && !asked[i].heldOut && asked[j].heldOut
    ensures forall seed :: seed in asked[j].seeds ==> seed !in asked[i].seeds
    ensures asked[j].seeds != [] && i < j
  {
    hide Safe, Only;
    ComparedWith(plan, s, asked, i);
    ComparedWith(plan, s, asked, j);
    if j < i {
      var earlier := asked[..i];
      assert earlier[j] in earlier;
      InOnly(earlier, FinalRuns, earlier[j]);
    }
  }
}
