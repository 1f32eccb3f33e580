/**
 Running a campaign against any outside world: whatever is written, hashed, gated or
 measured, the world has an answer ready, and any answer may be a failure.

 Every record the run leaves behind is safe, and the run ends well exactly when no answer
 fails and the original baseline passes its gates.
 */
module Campaign {
  import opened Wrappers
  import opened Widths
  import opened CampaignPlan
  import opened CampaignState

  datatype Failure = Operational | BaselineNotEquivalent | NoCalibratedBlocks

  /** What was on disk at some moment: the state file, and all that was asked before it. */
  datatype Snapshot = Snapshot(state: State, asked: seq<Exchange>)

  // ----- one more exchange -----

  /** The exchange runs no process and writes nothing of what one answered. */
  predicate Plain(x: Exchange) {
    !IsRun(x) && (x.Wrote? ==> !x.event.GateResult? && !x.event.CalibrationResult? && !x.event.WorkloadResult?)
  }

  /** No outcome of the artifact is recorded. */
  predicate Unrecorded(s: State, artifact: string) {
    forall k :: 0 <= k < |s.candidates| ==> s.candidates[k].candidateId != artifact
  }

  /** The exchange does not touch what the record rests on. */
  predicate Undisturbing(plan: Plan, s: State, asked: seq<Exchange>, x: Exchange) {
    && (x.GateRan? ==> Unrecorded(s, x.artifact))
    && (x.Compared? && !x.heldOut ==> Unrecorded(s, x.candidate))
    && (x.Compared? && x.heldOut ==> s.confirmation.None? && FinalOk(plan, s, asked + [x]))
    && (x.Calibrated? ==> |Only(asked, CalibrationRuns)| == |s.calibrations|)
  }

  lemma StepStill(plan: Plan, asked: seq<Exchange>, longer: seq<Exchange>, i: nat)
    requires asked <= longer && i < |asked| && StepOk(plan, asked, i)
    ensures StepOk(plan, longer, i)
  {
    hide Fine, Gated, FitsTimeout, Only, Passed;
    assert longer[..i] == asked[..i] && longer[i] == asked[i];
    assert forall k :: 0 <= k < i ==> longer[k] == asked[k];
  }

  lemma AppendSteps(plan: Plan, asked: seq<Exchange>, x: Exchange)
    requires StepsOk(plan, asked) && StepOk(plan, asked + [x], |asked|)
    ensures StepsOk(plan, asked + [x])
  {
    hide StepOk;
    forall i | 0 <= i < |asked + [x]| ensures StepOk(plan, asked + [x], i) {
      if i < |asked| {
        StepStill(plan, asked, asked + [x], i);
      }
    }
  }

  lemma TrialStill(plan: Plan, s: State, asked: seq<Exchange>, x: Exchange, k: nat)
    requires k < |s.candidates| && TrialOk(plan, s.calibratedBlocks, asked, s.candidates[k])
    requires Undisturbing(plan, s, asked, x)
    ensures TrialOk(plan, s.calibratedBlocks, asked + [x], s.candidates[k])
  {
    hide GatedOn, ComparedOn, NotPassed, Only;
    var id := s.candidates[k].candidateId;
    OnlyAppend(asked, x, GatesOf(id));
    OnlyAppend(asked, x, TrialsOf(id));
    assert Only(asked, GatesOf(id)) + [] == Only(asked, GatesOf(id)) && Only(asked, TrialsOf(id)) + [] == Only(asked, TrialsOf(id));
  }

  lemma AppendSafe(plan: Plan, s: State, asked: seq<Exchange>, x: Exchange)
    requires Safe(plan, s, asked) && StepOk(plan, asked + [x], |asked|) && Undisturbing(plan, s, asked, x)
    ensures Safe(plan, s, asked + [x])
  {
    hide StepsOk, StepOk, RecordOk, TrialOk, Only, FinalOk, ComparedOn, ResultsOk, AllMet;
    AppendSteps(plan, asked, x);
    forall k | 0 <= k < |s.candidates| ensures TrialOk(plan, s.calibratedBlocks, asked + [x], s.candidates[k]) {
      TrialStill(plan, s, asked, x, k);
    }
    OnlyAppend(asked, x, CalibrationRuns);
    OnlyAppend(asked, x, FinalRuns);
    if !(x.Compared? && x.heldOut) {
      FinalSame(plan, s, asked, asked + [x]);
    }
  }

  lemma FinalSame(plan: Plan, s: State, asked: seq<Exchange>, longer: seq<Exchange>)
    requires FinalOk(plan, s, asked) && Only(longer, FinalRuns) == Only(asked, FinalRuns)
    ensures FinalOk(plan, s, longer)
  {
    hide Only;
  }

  // ----- nothing run in between -----

  /** `longer` continues `asked`, and nothing was run in between. */
  predicate Quiet(asked: seq<Exchange>, longer: seq<Exchange>) {
    asked <= longer && forall i :: |asked| <= i < |longer| ==> !IsRun(longer[i])
  }

  lemma {:induction false} QuietOnly(asked: seq<Exchange>, longer: seq<Exchange>, kind: Kind)
    requires Quiet(asked, longer)
    ensures Only(longer, kind) == Only(asked, kind)
    decreases |longer|
  {
    if |longer| == |asked| {
      assert longer == asked;
    } else {
      var n := |longer| - 1;
      QuietOnly(asked, longer[..n], kind);
    }
  }

  /** `longer` continues `asked`, and in between just this was run. */
  ghost predicate Ran(asked: seq<Exchange>, longer: seq<Exchange>, x: Exchange) {
    asked <= longer && forall kind :: Only(longer, kind) == Only(asked, kind) + if Is(kind, x) then [x] else []
  }

  /** One run, with nothing run before and after it. */
  lemma RanHere(asked: seq<Exchange>, before: seq<Exchange>, x: Exchange, longer: seq<Exchange>)
    requires Quiet(asked, before) && Quiet(before + [x], longer)
    ensures Ran(asked, longer, x)
  {
    hide Only;
    forall kind ensures Only(longer, kind) == Only(asked, kind) + if Is(kind, x) then [x] else [] {
      QuietOnly(asked, before, kind);
      OnlyAppend(before, x, kind);
      QuietOnly(before + [x], longer, kind);
    }
  }

  lemma RanThen(asked: seq<Exchange>, longer: seq<Exchange>, x: Exchange, more: seq<Exchange>)
    requires Ran(asked, longer, x) && Quiet(longer, more)
    ensures Ran(asked, more, x)
  {
    hide Only;
    forall kind ensures Only(more, kind) == Only(asked, kind) + if Is(kind, x) then [x] else [] {
      QuietOnly(longer, more, kind);
    }
  }

  /** The files were checked again after the last run. */
  predicate EndsChecked(asked: seq<Exchange>) {
    exists i: nat :: i < |asked| && asked[i] == Hashed(true) && forall j :: i <= j < |asked| ==> !IsRun(asked[j])
  }

  lemma CheckedLast(asked: seq<Exchange>, longer: seq<Exchange>)
    requires |asked| >= 2 && asked[|asked| - 2] == Hashed(true) && asked[|asked| - 1].Wrote? && Quiet(asked, longer)
    ensures EndsChecked(longer)
  {
    assert longer[|asked| - 2] == Hashed(true);
  }

  lemma StillGated(plan: Plan, asked: seq<Exchange>, longer: seq<Exchange>, artifact: string)
    requires Gated(plan, asked, artifact) && asked <= longer
    ensures Gated(plan, longer, artifact)
  {
    hide Passed;
    forall k | 0 <= k < |plan.workloads| ensures HasPassed(longer, artifact, plan.workloads[k].id) {
      var w := plan.workloads[k].id;
      assert HasPassed(asked, artifact, w);
      var x :| x in asked && x.GateRan? && x.artifact == artifact && x.workload == w && Passed(x);
      var i :| 0 <= i < |asked| && asked[i] == x;
      assert longer[i] == x;
    }
  }

  /** An artifact whose gate ran once on each workload and failed on none passed them all. */
  lemma AllPassed(plan: Plan, asked: seq<Exchange>, artifact: string)
    requires GatedOn(plan, Only(asked, GatesOf(artifact)), artifact, |plan.workloads|)
    requires NotPassed(Only(asked, GatesOf(artifact))) == []
    ensures Gated(plan, asked, artifact)
    ensures forall x :: x in asked && x.GateRan? && x.artifact == artifact ==> Passed(x)
  {
    hide Only, Passed, NotPassed;
    var gates := Only(asked, GatesOf(artifact));
    NonePassedNot(gates);
    AllGates(asked, artifact);
    forall k | 0 <= k < |plan.workloads| ensures HasPassed(asked, artifact, plan.workloads[k].id) {
      assert gates[k] in gates;
      InOnly(asked, GatesOf(artifact), gates[k]);
    }
  }

  /** If nothing failed, a gate that did not pass found a difference. */
  lemma SomeInequivalent(asked: seq<Exchange>, artifact: string)
    requires Fine(asked) && NotPassed(Only(asked, GatesOf(artifact))) != []
    ensures exists x :: x in asked && x.GateRan? && x.artifact == artifact && Inequivalent(x.process)
  {
    hide Only, Equivalent, NotPassed;
    var gates := Only(asked, GatesOf(artifact));
    var j := OneNotPassed(gates);
    assert gates[j] in gates;
    InOnly(asked, GatesOf(artifact), gates[j]);
    var i :| 0 <= i < |asked| && asked[i] == gates[j];
    assert !Failing(asked[i]);
  }

  lemma {:induction false} OneNotPassed(gates: seq<Exchange>) returns (j: nat)
    requires NotPassed(gates) != []
    ensures j < |gates| && gates[j].GateRan? && !Passed(gates[j])
  {
    hide Passed;
    var n := |gates| - 1;
    if gates[n].GateRan? && !Passed(gates[n]) {
      j := n;
    } else {
      j := OneNotPassed(gates[..n]);
    }
  }

  lemma FineAppend(asked: seq<Exchange>, x: Exchange)
    ensures Fine(asked + [x]) <==> Fine(asked) && !Failing(x)
  {
    hide Failing;
    if Fine(asked + [x]) {
      forall i | 0 <= i < |asked| ensures !Failing(asked[i]) {
        assert (asked + [x])[i] == asked[i];
      }
      assert (asked + [x])[|asked|] == x;
    }
  }

  /** What has failed stays failed. */
  lemma StillFailed(asked: seq<Exchange>, longer: seq<Exchange>)
    requires asked <= longer && Fine(longer)
    ensures Fine(asked)
  {
    hide Failing;
    forall i | 0 <= i < |asked| ensures !Failing(asked[i]) {
      assert longer[i] == asked[i];
    }
  }

  // ----- a changed state -----

  /** A state that differs only in its phase, or in an outcome the record bears out. */
  lemma OutcomeSafe(plan: Plan, s: State, asked: seq<Exchange>, phase: Phase, outcome: Option<Outcome>)
    requires Safe(plan, s, asked) && OutcomeOk(plan, s.(outcome := outcome))
    ensures Safe(plan, s.(phase := phase, outcome := outcome), asked)
  {
    hide StepsOk, CandidatesOk, Promotions, Winner, ResultsOk, AllMet, Only, TrialOk, CalibrationOk, CalibratedOn, ComparedOn;
    var t := s.(phase := phase, outcome := outcome);
    assert TrialsOk(plan, t, asked);
  }

  /** The allowed count nearest to the recommended one. */
  function Clamp(n: nat, lo: nat, hi: nat): nat
    requires lo <= hi
  {
    if n < lo then lo else if n > hi then hi else n
  }

  /** The state with the next workload calibrated. */
  function WithCalibration(plan: Plan, s: State, recommended: nat): State
    requires ValidPlan(plan) && |s.calibrations| < |plan.workloads|
  {
    var w := plan.workloads[|s.calibrations|];
    var selected := Clamp(recommended, w.minBlocks, w.maxBlocks);
    s.(calibratedBlocks := s.calibratedBlocks[w.id := selected],
       calibrations := s.calibrations
         + [CalibrationOutcome(w.id, w.calibrationBlocks, recommended, selected, recommended > w.maxBlocks)])
  }

  /** Recording the calibration of the next workload. */
  lemma CalibratedSafe(plan: Plan, s: State, asked: seq<Exchange>, recommended: nat)
    requires ValidPlan(plan) && Safe(plan, s, asked) && recommended > 0
    requires |s.calibrations| < |plan.workloads| && s.candidates == [] && s.confirmation.None? && s.outcome.None?
    requires Only(asked, FinalRuns) == [] && |Only(asked, CalibrationRuns)| == |s.calibrations| + 1
    requires var w := plan.workloads[|s.calibrations|];
             Only(asked, CalibrationRuns)[|s.calibrations|]
             == Calibrated(w.id, w.calibrationBlocks, plan.calibration.seeds, Some(recommended))
    ensures Safe(plan, WithCalibration(plan, s, recommended), asked)
  {
    hide StepsOk, Only, TrialOk, FitsTimeout;
    var k := |s.calibrations|;
    var w, t := plan.workloads[k], WithCalibration(plan, s, recommended);
    assert ValidWorkload(w);
    forall j | 0 <= j < |plan.workloads| && j != k ensures plan.workloads[j].id != w.id {
      assert DistinctWorkloads(plan.workloads);
    }
    forall j | 0 <= j < k ensures CalibrationOk(plan.workloads[j], t.calibratedBlocks, t.calibrations[j]) {
      assert CalibrationOk(plan.workloads[j], s.calibratedBlocks, s.calibrations[j]);
    }
    assert CalibrationOk(w, t.calibratedBlocks, t.calibrations[k]);
    assert CandidatesOk(plan, t.calibratedBlocks, []);
  }

  /** The state with the outcome of the next candidate. */
  function Tried(s: State, c: CandidateOutcome): State {
    s.(currentBaseline := c.baselineAfter,
       promotions := s.promotions
         + if c.decision.Promoted? then [Transition(c.candidateId, c.baselineBefore, c.baselineAfter)] else [],
       candidates := s.candidates + [c])
  }

  /** Recording the outcome of the next candidate. */
  lemma TriedSafe(plan: Plan, s: State, asked: seq<Exchange>, c: CandidateOutcome)
    requires Safe(plan, s, asked) && Only(asked, FinalRuns) == []
    requires |s.calibrations| == |plan.workloads| && |s.candidates| < |plan.candidates|
    requires s.confirmation.None? && s.outcome.None?
    requires CandidateOk(plan, s.calibratedBlocks, s.currentBaseline, plan.candidates[|s.candidates|], c)
    requires TrialOk(plan, s.calibratedBlocks, asked, c)
    ensures Safe(plan, Tried(s, c), asked)
  {
    hide StepsOk, Only, CandidateOk, CandidatesOk, TrialOk, CalibrationOk, CalibratedOn;
    var t := Tried(s, c);
    assert t.candidates[..|s.candidates|] == s.candidates;
    OneMoreCandidate(plan, s.calibratedBlocks, s.candidates, c);
    forall k | 0 <= k < |t.candidates| ensures TrialOk(plan, t.calibratedBlocks, asked, t.candidates[k]) {
      if k < |s.candidates| {
        assert TrialOk(plan, s.calibratedBlocks, asked, s.candidates[k]);
      }
    }
    assert CalibrationsOk(plan, t, asked);
  }

  lemma OneMoreCandidate(plan: Plan, calibrated: map<string, nat>, outcomes: seq<CandidateOutcome>, c: CandidateOutcome)
    requires CandidatesOk(plan, calibrated, outcomes) && |outcomes| < |plan.candidates|
    requires CandidateOk(plan, calibrated, Winner(plan.baseline.id, outcomes), plan.candidates[|outcomes|], c)
    ensures CandidatesOk(plan, calibrated, outcomes + [c])
  {
    hide CandidateOk, Winner;
    var longer := outcomes + [c];
    forall k | 0 <= k < |longer|
      ensures CandidateOk(plan, calibrated, Winner(plan.baseline.id, longer[..k]), plan.candidates[k], longer[k])
    {
      assert longer[..k] == outcomes[..k];
    }
  }

  /** The state with the confirmation. */
  function WithConfirmation(plan: Plan, s: State, results: seq<ResultSummary>): State {
    var accepted := if AllMet(results) then s.currentBaseline else s.acceptedBaseline;
    s.(acceptedBaseline := accepted,
       confirmation := Some(ConfirmationOutcome(plan.baseline.id, s.currentBaseline, accepted, AllMet(results), results)))
  }

  lemma ConfirmedSafe(plan: Plan, s: State, asked: seq<Exchange>, results: seq<ResultSummary>)
    requires Safe(plan, s, asked) && ResultsOk(plan, s.calibratedBlocks, results)
    requires |s.candidates| == |plan.candidates| && s.promotions != [] && s.confirmation.None? && s.outcome.None?
    requires ComparedOn(plan, s.calibratedBlocks, Only(asked, FinalRuns), plan.baseline.id, s.currentBaseline, true, Ratios(results))
    ensures Safe(plan, WithConfirmation(plan, s, results), asked)
  {
    hide StepsOk, Only, CandidatesOk, Promotions, Winner, ResultsOk, AllMet, TrialOk, CalibrationOk, CalibratedOn, ComparedOn, Ratios;
    var t := WithConfirmation(plan, s, results);
    assert TrialsOk(plan, t, asked) && CalibrationsOk(plan, t, asked) && FinalOk(plan, t, asked);
  }

  /** The blocks selected for a workload fit its timeout. */
  lemma BlocksFit(plan: Plan, s: State, asked: seq<Exchange>, k: nat)
    requires ValidPlan(plan) && Safe(plan, s, asked) && k < |plan.workloads| == |s.calibrations|
    ensures plan.workloads[k].id in s.calibratedBlocks
    ensures FitsTimeout(plan.limits, s.calibratedBlocks[plan.workloads[k].id])
  {
    var w := plan.workloads[k];
    assert CalibrationOk(w, s.calibratedBlocks, s.calibrations[k]);
    FewerFit(plan.limits, s.calibratedBlocks[w.id], w.maxBlocks);
  }

  lemma CalibratedAll(plan: Plan, s: State, asked: seq<Exchange>)
    requires Safe(plan, s, asked) && |s.calibrations| == |plan.workloads|
    ensures AllCalibrated(plan, s.calibratedBlocks)
  {
    hide StepsOk, RecordOk, TrialsOk;
    forall k | 0 <= k < |plan.workloads| ensures plan.workloads[k].id in s.calibratedBlocks {
      assert CalibrationOk(plan.workloads[k], s.calibratedBlocks, s.calibrations[k]);
    }
  }

  // ----- covered by what came before -----

  lemma WroteStep(plan: Plan, asked: seq<Exchange>, e: Event, ok: bool)
    requires StepOk(plan, asked + [Wrote(e, true)], |asked|)
    ensures StepOk(plan, asked + [Wrote(e, ok)], |asked|)
  {
    hide Passed, Fine, Gated, FitsTimeout, Only;
    var a, b := asked + [Wrote(e, true)], asked + [Wrote(e, ok)];
    assert forall i :: 0 <= i < |asked| ==> a[i] == b[i];
  }

  lemma GateStep(plan: Plan, asked: seq<Exchange>, artifact: string, workload: string, process: Process)
    requires Fine(asked) && Checked(asked, |asked|) && asked[|asked| - 1] == Wrote(GateStarted(artifact, workload), true)
    ensures StepOk(plan, asked + [GateRan(artifact, workload, process)], |asked|)
  {
    hide Fine;
    assert (asked + [GateRan(artifact, workload, process)])[..|asked|] == asked;
  }

  lemma GateResultStep(plan: Plan, asked: seq<Exchange>, artifact: string, workload: string, process: Process)
    requires |asked| >= 2 && asked[|asked| - 1] == Wrote(Completed, true)
    requires asked[|asked| - 2] == GateRan(artifact, workload, process)
    ensures StepOk(plan, asked + [Wrote(GateResult(artifact, workload, Equivalent(artifact, workload, process)), true)], |asked|)
  {
    hide Equivalent;
  }

  lemma CalibrationStep(plan: Plan, asked: seq<Exchange>, w: Workload, recommended: Option<nat>)
    requires Fine(asked) && Checked(asked, |asked|)
    requires asked[|asked| - 1] == Wrote(CalibrationStarted(w.id, w.calibrationBlocks), true)
    requires FitsTimeout(plan.limits, w.calibrationBlocks) && Gated(plan, asked, plan.baseline.id)
    ensures StepOk(plan, asked + [Calibrated(w.id, w.calibrationBlocks, plan.calibration.seeds, recommended)], |asked|)
  {
    hide Fine, Gated, FitsTimeout;
    assert (asked + [Calibrated(w.id, w.calibrationBlocks, plan.calibration.seeds, recommended)])[..|asked|] == asked;
  }

  lemma CalibrationResultStep(plan: Plan, asked: seq<Exchange>, w: Workload, recommended: nat, selected: nat)
    requires |asked| >= 2 && asked[|asked| - 1] == Wrote(Completed, true)
    requires asked[|asked| - 2] == Calibrated(w.id, w.calibrationBlocks, plan.calibration.seeds, Some(recommended))
    ensures StepOk(plan, asked + [Wrote(CalibrationResult(w.id, recommended, selected), true)], |asked|)
  {
  }

  /** Starting a comparison that fits its timeout, between artifacts that passed their gates. */
  lemma ComparisonStep(plan: Plan, asked: seq<Exchange>, x: Exchange)
    requires Fine(asked) && Checked(asked, |asked|) && x.Compared?
    requires asked[|asked| - 1] == Wrote(ComparisonStarted(x.baseline, x.candidate, x.workload, x.blocks, x.heldOut), true)
    requires FitsTimeout(plan.limits, x.blocks) && Gated(plan, asked, x.baseline) && Gated(plan, asked, x.candidate)
    requires x.seeds == (if x.heldOut then plan.confirmation else plan.exploration).seeds
    requires !x.heldOut ==> Only(asked, FinalRuns) == []
    ensures StepOk(plan, asked + [x], |asked|)
  {
    hide Fine, Gated, FitsTimeout, Only;
    assert (asked + [x])[..|asked|] == asked;
  }

  lemma WorkloadResultStep(plan: Plan, asked: seq<Exchange>, x: Exchange)
    requires |asked| >= 2 && asked[|asked| - 1] == Wrote(Completed, true)
    requires asked[|asked| - 2] == x && x.Compared? && x.ratio.Some?
    ensures StepOk(plan, asked + [Wrote(WorkloadResult(x.baseline, x.candidate, x.workload, x.ratio.value, x.heldOut), true)], |asked|)
  {
  }

  /** Nothing of the other kinds was run. */
  ghost predicate OnlyThese(asked: seq<Exchange>, longer: seq<Exchange>, these: Kind) {
    asked <= longer && forall kind :: kind != these ==> Only(longer, kind) == Only(asked, kind)
  }

  lemma OnlyTheseRan(asked: seq<Exchange>, longer: seq<Exchange>, x: Exchange, more: seq<Exchange>, these: Kind)
    requires OnlyThese(asked, longer, these) && Ran(longer, more, x) && Is(these, x)
    ensures OnlyThese(asked, more, these)
    ensures Only(more, these) == Only(longer, these) + [x]
  {
    hide Only;
    forall kind | kind != these ensures Only(more, kind) == Only(asked, kind) {
      assert !Is(kind, x);
      assert Only(longer, kind) + [] == Only(longer, kind);
    }
  }

  /** What happens in between matters not to the other kinds. */
  lemma OnlyTheseQuiet(asked: seq<Exchange>, longer: seq<Exchange>, more: seq<Exchange>, these: Kind)
    requires OnlyThese(asked, longer, these) && Quiet(longer, more)
    ensures OnlyThese(asked, more, these) && Only(more, these) == Only(longer, these)
  {
    hide Only;
    forall kind | kind != these ensures Only(more, kind) == Only(asked, kind) {
      QuietOnly(longer, more, kind);
    }
    QuietOnly(longer, more, these);
  }

  lemma GatedNext(plan: Plan, gates: seq<Exchange>, artifact: string, k: nat, x: Exchange)
    requires k < |plan.workloads| && GatedOn(plan, gates, artifact, k)
    requires x.GateRan? && x.artifact == artifact && x.workload == plan.workloads[k].id
    ensures GatedOn(plan, gates + [x], artifact, k + 1)
    ensures NotPassed(gates + [x]) == NotPassed(gates) + if Passed(x) then [] else [x.workload]
  {
    hide Passed;
    assert (gates + [x])[..|gates + [x]| - 1] == gates;
  }

  lemma ComparedNext(plan: Plan, calibrated: map<string, nat>, runs: seq<Exchange>, baseline: string, candidate: string,
                     heldOut: bool, ratios: seq<real>, ratio: real)
    requires |ratios| < |plan.workloads| && ComparedOn(plan, calibrated, runs, baseline, candidate, heldOut, ratios)
    requires plan.workloads[|ratios|].id in calibrated
    ensures var w := plan.workloads[|ratios|].id;
            var x := Compared(baseline, candidate, w, calibrated[w], heldOut,
                              (if heldOut then plan.confirmation else plan.exploration).seeds, Some(ratio));
            ComparedOn(plan, calibrated, runs + [x], baseline, candidate, heldOut, ratios + [ratio])
  {
  }

  /** A run of the final comparison, behind those that reported these ratios. */
  lemma FinalNext(plan: Plan, s: State, asked: seq<Exchange>, ratios: seq<real>, ratio: Option<real>)
    requires |s.candidates| == |plan.candidates| && s.promotions != [] && |ratios| < |plan.workloads|
    requires ComparedOn(plan, s.calibratedBlocks, Only(asked, FinalRuns), plan.baseline.id, s.currentBaseline, true, ratios)
    requires plan.workloads[|ratios|].id in s.calibratedBlocks
    ensures var w := plan.workloads[|ratios|].id;
            FinalOk(plan, s, asked + [Compared(plan.baseline.id, s.currentBaseline, w, s.calibratedBlocks[w], true,
                                               plan.confirmation.seeds, ratio)])
  {
    hide Only;
    var w := plan.workloads[|ratios|].id;
    OnlyAppend(asked, Compared(plan.baseline.id, s.currentBaseline, w, s.calibratedBlocks[w], true, plan.confirmation.seeds, ratio),
               FinalRuns);
  }

  // ----- the run -----

  /** How often `step` fits into what so many rounds take. */
  function Times(rounds: nat, step: nat): nat {
    if rounds == 0 then 0 else Times(rounds - 1, step) + step
  }

  /** No campaign with the plan writes more events. */
  function EventBound(plan: Plan): nat {
    12 * |plan.workloads| + Times(|plan.candidates|, 8 * |plan.workloads| + 2) + 9
  }

  /** How many events were written, whether or not that went well. */
  function Writes(asked: seq<Exchange>): nat {
    if asked == [] then 0 else Writes(asked[..|asked| - 1]) + if asked[|asked| - 1].Wrote? then 1 else 0
  }

  lemma WritesAppend(asked: seq<Exchange>, x: Exchange)
    ensures Writes(asked + [x]) == Writes(asked) + if x.Wrote? then 1 else 0
  {
    assert (asked + [x])[..|asked + [x]| - 1] == asked;
  }

  class RunContext {
    const plan: Plan
    const world: World
    var state: State
    /** Everything that was asked so far; the next question gets the answer that is next. */
    var asked: seq<Exchange>
    var sequence: nat
    /** Everything that was ever written to the state file. */
    ghost var history: seq<Snapshot>

    ghost predicate Inv()
      reads this
    {
      && ValidPlan(plan)
      && Safe(plan, state, asked)
      && Answered(world, asked)
      && sequence == Writes(asked) < U64
      && forall k :: 0 <= k < |history| ==> history[k].asked <= asked && Safe(plan, history[k].state, history[k].asked)
    }

    /** An answer was a failure, or the event log has run out of numbers. */
    ghost predicate Stopped()
      reads this
    {
      !Fine(asked) || sequence + 1 == U64
    }

    /** The state file holds the present state. */
    ghost predicate OnDisk()
      reads this
    {
      history != [] && history[|history| - 1].state == state
    }

    /** Why a campaign ended early. */
    ghost predicate NotExecuted(error: Failure)
      reads this
    {
      || (error == Operational && Stopped())
      || (error == BaselineNotEquivalent && BaselineDiffers(plan, asked))
    }

    constructor (plan: Plan, world: World)
      requires ValidPlan(plan)
      ensures Inv() && this.plan == plan && this.world == world && asked == [] && sequence == 0
      ensures state.calibrations == [] && state.candidates == [] && state.confirmation.None? && state.outcome.None?
    {
      this.plan, this.world := plan, world;
      state := State(Initialized, plan.baseline.id, plan.baseline.id, plan.baseline.id, map[], [], [], [], None, None);
      asked, sequence, history := [], 0, [];
    }

    /** Take the answer that is next; an event uses up its number even when the write fails. */
    method Take(x: Exchange)
      requires Inv() && IsAnswer(world(|asked|), x) && (x.Wrote? ==> sequence + 1 < U64)
      requires StepOk(plan, asked + [x], |asked|) && Undisturbing(plan, state, asked, x)
      modifies this`asked, this`sequence
      ensures Inv() && asked == old(asked) + [x] && sequence == old(sequence) + if x.Wrote? then 1 else 0
    {
      hide Safe, ValidPlan, StepOk, Undisturbing, IsAnswer, Writes;
      AppendSafe(plan, state, asked, x);
      WritesAppend(asked, x);
      asked, sequence := asked + [x], sequence + if x.Wrote? then 1 else 0;
    }

    /** Append to the event log, under the next number if there is one. */
    method Emit(e: Event) returns (ok: bool)
      requires Inv() && StepOk(plan, asked + [Wrote(e, true)], |asked|)
      modifies this`asked, this`sequence
      ensures Inv() && Quiet(old(asked), asked) && sequence <= old(sequence) + 1
      ensures ok ==> asked == old(asked) + [Wrote(e, true)] && (old(Fine(asked)) ==> Fine(asked))
      ensures !ok ==> Stopped()
    {
      hide Safe, ValidPlan, Writes, StepOk, Fine;
      if sequence + 1 >= U64 {
        return false;
      }
      ok := world(|asked|).ok;
      WroteStep(plan, asked, e, ok);
      FineAppend(asked, Wrote(e, ok));
      Take(Wrote(e, ok));
    }

    /** Emit an event that says nothing of what a process answered. */
    method Note(e: Event) returns (ok: bool)
      requires Inv() && Plain(Wrote(e, true))
      modifies this`asked, this`sequence
      ensures Inv() && Quiet(old(asked), asked) && sequence <= old(sequence) + 1
      ensures ok ==> asked == old(asked) + [Wrote(e, true)] && (old(Fine(asked)) ==> Fine(asked))
      ensures !ok ==> Stopped()
    {
      hide Safe, ValidPlan, Writes, Fine;
      ok := Emit(e);
    }

    /** Replace the state file; a failed attempt may or may not have replaced it. */
    method Checkpoint() returns (ok: bool)
      requires Inv()
      modifies this`asked, this`sequence, this`history
      ensures Inv() && sequence == old(sequence) && Quiet(old(asked), asked) && old(history) <= history
      ensures ok ==> history == old(history) + [Snapshot(state, old(asked))] && (old(Fine(asked)) ==> Fine(asked))
      ensures !ok ==> Stopped()
    {
      hide Safe, ValidPlan, Writes, Fine;
      var a := world(|asked|);
      ok := a.kept && a.ok;
      ghost var snapshot := Snapshot(state, asked);
      FineAppend(asked, Saved(a.kept, ok));
      Take(Saved(a.kept, ok));
      if a.kept {
        history := history + [snapshot];
      }
    }

    method WriteReport() returns (ok: bool)
      requires Inv()
      modifies this`asked, this`sequence
      ensures Inv() && sequence == old(sequence) && Quiet(old(asked), asked)
      ensures ok && old(Fine(asked)) ==> Fine(asked)
      ensures !ok ==> Stopped()
    {
      hide Safe, ValidPlan, Writes, Fine;
      ok := world(|asked|).ok;
      FineAppend(asked, Reported(ok));
      Take(Reported(ok));
    }

    method SetPhase(phase: Phase) returns (ok: bool)
      requires Inv()
      modifies this`state, this`asked, this`sequence, this`history
      ensures Inv() && Quiet(old(asked), asked) && sequence <= old(sequence) + 1
      ensures state == old(state).(phase := phase) && old(history) <= history
      ensures ok && old(Fine(asked)) ==> Fine(asked)
      ensures !ok ==> Stopped()
    {
      hide Safe, ValidPlan, Writes, Fine;
      SafeOutcome(plan, state, asked);
      OutcomeSafe(plan, state, asked, phase, state.outcome);
      state := state.(phase := phase);
      ok := Note(PhaseStarted(phase));
      if ok {
        ok := Checkpoint();
      }
    }

    /** Compare a file's hash with the one frozen at the start, and log it. */
    method VerifyFile() returns (ok: bool)
      requires Inv()
      modifies this`asked, this`sequence
      ensures Inv() && Quiet(old(asked), asked) && sequence <= old(sequence) + 1
      ensures ok ==>
        asked == old(asked) + [Hashed(true), Wrote(IdentityChecked(true), true)] && (old(Fine(asked)) ==> Fine(asked))
      ensures !ok ==> Stopped()
    {
      hide Safe, ValidPlan, Writes, Fine;
      var matches := world(|asked|).ok;
      FineAppend(asked, Hashed(matches));
      Take(Hashed(matches));
      ghost var hashed := asked;
      var logged := Note(IdentityChecked(matches));
      if Fine(asked) {
        StillFailed(hashed, asked);
      }
      ok := logged && matches;
    }

    /** Check the file of the process that is run next, and announce it. */
    method Announce(e: Event) returns (ok: bool)
      requires Inv() && Plain(Wrote(e, true))
      modifies this`asked, this`sequence
      ensures Inv() && Quiet(old(asked), asked) && sequence <= old(sequence) + 2
      ensures ok ==>
        && Checked(asked, |asked|) && asked != [] && asked[|asked| - 1] == Wrote(e, true)
        && (old(Fine(asked)) ==> Fine(asked))
      ensures !ok ==> Stopped()
    {
      hide Safe, ValidPlan, Writes, Fine;
      ok := VerifyFile();
      if ok {
        ok := Note(e);
      }
    }

    /** Run the gate of an artifact on one workload, whatever it answers. */
    method RunGate(artifact: Artifact, w: Workload) returns (r: Result<Process, Failure>)
      requires Inv() && Fine(asked) && Unrecorded(state, artifact.id)
      modifies this`asked, this`sequence
      ensures Inv() && old(asked) <= asked && sequence <= old(sequence) + 3
      ensures r.Ok? ==>
        var x := GateRan(artifact.id, w.id, r.value);
        && (Fine(asked) <==> !Failing(x)) && Ran(old(asked), asked, x)
        && |asked| >= 2 && asked[|asked| - 2] == x && asked[|asked| - 1] == Wrote(Completed, true)
      ensures r.Err? ==> r.error == Operational && Stopped()
    {
      hide Safe, ValidPlan, Writes, Fine, Only, Checked, StepOk, Ran, Failing;
      var started := Announce(GateStarted(artifact.id, w.id));
      if !started {
        return Err(Operational);
      }
      var process := world(|asked|).process;
      ghost var before := asked;
      ghost var x := GateRan(artifact.id, w.id, process);
      GateStep(plan, asked, artifact.id, w.id, process);
      FineAppend(asked, x);
      Take(GateRan(artifact.id, w.id, process));
      ghost var ran := asked;
      var completed := Note(Completed);
      if !completed {
        return Err(Operational);
      }
      if Fine(asked) {
        StillFailed(ran, asked);
      }
      RanHere(old(asked), before, x, asked);
      r := Ok(process);
    }

    /** Run the gate of an artifact on one workload: did it pass? */
    method GateOn(artifact: Artifact, w: Workload) returns (r: Result<bool, Failure>, ghost x: Exchange)
      requires Inv() && Fine(asked) && Unrecorded(state, artifact.id)
      modifies this`asked, this`sequence, this`history
      ensures Inv() && old(asked) <= asked && old(history) <= history && sequence <= old(sequence) + 4
      ensures r.Ok? ==>
        && Fine(asked)
        && x.GateRan? && x.artifact == artifact.id && x.workload == w.id
        && Ran(old(asked), asked, x) && (r.value <==> Passed(x))
      ensures r.Err? ==> r.error == Operational && Stopped()
    {
      hide Safe, ValidPlan, Writes, Fine, Only, StepOk, Ran;
      x := Hashed(true);
      var run := RunGate(artifact, w);
      if run.Err? {
        return Err(run.error), x;
      }
      var process := run.value;
      x := GateRan(artifact.id, w.id, process);
      ghost var ran := asked;
      var success := process.Exited? && process.status == 0;
      if success && !Equivalent(artifact.id, w.id, process) {
        return Err(Operational), x;
      }
      GateResultStep(plan, asked, artifact.id, w.id, process);
      var logged := Emit(GateResult(artifact.id, w.id, success));
      if !logged {
        return Err(Operational), x;
      }
      var saved := Checkpoint();
      if !saved {
        return Err(Operational), x;
      }
      if !success && !Inequivalent(process) {
        if Fine(asked) {
          StillFailed(ran, asked);
        }
        return Err(Operational), x;
      }
      RanThen(old(asked), ran, x, asked);
      r := Ok(success);
    }

    /** Run the gate of an artifact on every workload: the workloads it failed on. */
    method GateArtifact(artifact: Artifact) returns (r: Result<seq<string>, Failure>)
      requires Inv() && Fine(asked) && Unrecorded(state, artifact.id) && Only(asked, GatesOf(artifact.id)) == []
      modifies this`asked, this`sequence, this`history
      ensures Inv() && old(asked) <= asked && old(history) <= history && sequence <= old(sequence) + 4 * |plan.workloads|
      ensures r.Ok? ==>
        && Fine(asked)
        && OnlyThese(old(asked), asked, GatesOf(artifact.id))
        && GatedOn(plan, Only(asked, GatesOf(artifact.id)), artifact.id, |plan.workloads|)
        && r.value == NotPassed(Only(asked, GatesOf(artifact.id)))
      ensures r.Err? ==> r.error == Operational && Stopped()
    {
      hide Safe, ValidPlan, Writes, Fine, Only, Ran, NotPassed, Unrecorded, Passed, OnlyThese, GatedOn;
      var failures: seq<string> := [];
      NothingYet(plan, asked, artifact.id);
      for k := 0 to |plan.workloads|
        invariant Inv() && Fine(asked) && old(asked) <= asked && old(history) <= history && sequence <= old(sequence) + 4 * k
        invariant OnlyThese(old(asked), asked, GatesOf(artifact.id))
        invariant GatedOn(plan, Only(asked, GatesOf(artifact.id)), artifact.id, k)
        invariant failures == NotPassed(Only(asked, GatesOf(artifact.id)))
      {
        ghost var before := asked;
        var passed; ghost var x;
        passed, x := GateOn(artifact, plan.workloads[k]);
        if passed.Err? {
          return Err(passed.error);
        }
        OnlyTheseRan(old(asked), before, x, asked, GatesOf(artifact.id));
        GatedNext(plan, Only(before, GatesOf(artifact.id)), artifact.id, k, x);
        if !passed.value {
          failures := failures + [plan.workloads[k].id];
        }
      }
      r := Ok(failures);
    }

    /** Measure the baseline against itself: how many blocks the workload needs. */
    method RunCalibration(k: nat) returns (r: Result<nat, Failure>)
      requires Inv() && Fine(asked) && k < |plan.workloads| && Gated(plan, asked, plan.baseline.id)
      requires |Only(asked, CalibrationRuns)| == |state.calibrations|
      modifies this`asked, this`sequence
      ensures Inv() && old(asked) <= asked && sequence <= old(sequence) + 3
      ensures r.Ok? ==>
        var w := plan.workloads[k];
        var x := Calibrated(w.id, w.calibrationBlocks, plan.calibration.seeds, Some(r.value));
        && r.value > 0 && Fine(asked) && Ran(old(asked), asked, x)
        && |asked| >= 2 && asked[|asked| - 2] == x && asked[|asked| - 1] == Wrote(Completed, true)
      ensures r.Err? ==> r.error == Operational && Stopped()
    {
      hide Safe, ValidPlan, Writes, Fine, Only, Checked, Ran, Gated, StepOk;
      var w := plan.workloads[k];
      var started := Announce(CalibrationStarted(w.id, w.calibrationBlocks));
      if !started {
        return Err(Operational);
      }
      var recommended := world(|asked|).recommended;
      ghost var before := asked;
      ghost var x := Calibrated(w.id, w.calibrationBlocks, plan.calibration.seeds, recommended);
      CalibrationFits(plan, k);
      StillGated(plan, old(asked), asked, plan.baseline.id);
      CalibrationStep(plan, asked, w, recommended);
      QuietOnly(old(asked), asked, CalibrationRuns);
      FineAppend(asked, x);
      Take(Calibrated(w.id, w.calibrationBlocks, plan.calibration.seeds, recommended));
      ghost var ran := asked;
      var completed := Note(Completed);
      if !completed {
        return Err(Operational);
      }
      if recommended.None? || recommended.value == 0 {
        if Fine(asked) {
          StillFailed(ran, asked);
        }
        return Err(Operational);
      }
      RanHere(old(asked), before, x, asked);
      r := Ok(recommended.value);
    }

    /** The first workloads are calibrated, nothing failed, and nothing else was run since. */
    ghost predicate IsCalibrating(before: seq<Exchange>, k: nat)
      reads this
    {
      && Fine(asked) && Gated(plan, asked, plan.baseline.id)
      && |state.calibrations| == k && state.candidates == [] && state.confirmation.None? && state.outcome.None?
      && OnlyThese(before, asked, CalibrationRuns) && |Only(asked, CalibrationRuns)| == k
      && Only(asked, FinalRuns) == []
    }

    /** Calibrate the next workload, and go on with the allowed block count nearest to the recommended one. */
    method CalibrateNext(ghost before: seq<Exchange>, k: nat) returns (r: Result<(), Failure>)
      requires Inv() && IsCalibrating(before, k) && k < |plan.workloads|
      modifies this`state, this`asked, this`sequence, this`history
      ensures Inv() && old(asked) <= asked && old(history) <= history && sequence <= old(sequence) + 4
      ensures r.Ok? ==> IsCalibrating(before, k + 1) && state.currentBaseline == old(state.currentBaseline)
      ensures r.Err? ==> r.error == Operational && Stopped()
    {
      hide Safe, ValidPlan, Writes, Fine, Only, Ran, Gated, StepOk, OnlyThese, WithCalibration;
      var recommended := RunCalibration(k);
      if recommended.Err? {
        return Err(recommended.error);
      }
      var w := plan.workloads[k];
      ghost var x := Calibrated(w.id, w.calibrationBlocks, plan.calibration.seeds, Some(recommended.value));
      OnlyTheseRan(before, old(asked), x, asked, CalibrationRuns);
      NoneYet(old(asked), CalibrationRuns);
      OnlyTheseRan(old(asked), old(asked), x, asked, CalibrationRuns);
      OtherKind(old(asked), asked, CalibrationRuns, FinalRuns);
      CalibratedSafe(plan, state, asked, recommended.value);
      WithCalibrationFacts(plan, state, recommended.value);
      state := WithCalibration(plan, state, recommended.value);
      ghost var recorded := asked;
      CalibrationResultStep(plan, asked, w, recommended.value, state.calibrations[k].selectedBlocks);
      var logged := Emit(CalibrationResult(w.id, recommended.value, state.calibrations[k].selectedBlocks));
      if !logged {
        return Err(Operational);
      }
      var saved := Checkpoint();
      if !saved {
        return Err(Operational);
      }
      OnlyTheseQuiet(before, recorded, asked, CalibrationRuns);
      QuietOnly(recorded, asked, FinalRuns);
      StillGated(plan, old(asked), asked, plan.baseline.id);
      r := Ok(());
    }

    /** Calibrate every workload, before anything is compared. */
    method Calibrate() returns (r: Result<(), Failure>)
      requires Inv() && Fine(asked) && Gated(plan, asked, plan.baseline.id)
      requires Only(asked, FinalRuns) == [] && Only(asked, CalibrationRuns) == []
      requires state.calibrations == [] && state.candidates == [] && state.confirmation.None? && state.outcome.None?
      modifies this`state, this`asked, this`sequence, this`history
      ensures Inv() && old(asked) <= asked && old(history) <= history && sequence <= old(sequence) + 4 * |plan.workloads|
      ensures r.Ok? ==> IsCalibrating(old(asked), |plan.workloads|) && state.currentBaseline == old(state.currentBaseline)
      ensures r.Err? ==> r.error == Operational && Stopped()
    {
      hide Safe, ValidPlan, Writes, Fine, Only, Gated, OnlyThese;
      NoneYet(asked, CalibrationRuns);
      for k := 0 to |plan.workloads|
        invariant Inv() && old(asked) <= asked && old(history) <= history && sequence <= old(sequence) + 4 * k
        invariant IsCalibrating(old(asked), k) && state.currentBaseline == old(state.currentBaseline)
      {
        var next := CalibrateNext(old(asked), k);
        if next.Err? {
          return next;
        }
      }
      r := Ok(());
    }

    /** Every workload is calibrated, nothing failed, and the runs so far reported these ratios. */
    ghost predicate ComparingSo(baseline: string, candidate: string, heldOut: bool, ratios: seq<real>)
      reads this
    {
      && Fine(asked) && AllCalibrated(plan, state.calibratedBlocks) && |state.calibrations| == |plan.workloads|
      && Gated(plan, asked, baseline) && Gated(plan, asked, candidate) && |ratios| <= |plan.workloads|
      && ComparedOn(plan, state.calibratedBlocks, Only(asked, if heldOut then FinalRuns else TrialsOf(candidate)),
                    baseline, candidate, heldOut, ratios)
      && (!heldOut ==> Only(asked, FinalRuns) == [] && Unrecorded(state, candidate))
      && (heldOut ==>
            && baseline == plan.baseline.id && candidate == state.currentBaseline && state.confirmation.None?
            && |state.candidates| == |plan.candidates| && state.promotions != [])
    }

    /** The comparison on the next workload, with what it reports. */
    ghost function Comparison(baseline: Artifact, candidate: Artifact, heldOut: bool, k: nat, ratio: Option<real>): Exchange
      requires k < |plan.workloads| && plan.workloads[k].id in state.calibratedBlocks
      reads this
    {
      var w := plan.workloads[k].id;
      Compared(baseline.id, candidate.id, w, state.calibratedBlocks[w], heldOut,
               (if heldOut then plan.confirmation else plan.exploration).seeds, ratio)
    }

    /** Run the comparison on the next workload: the ratio it reports. */
    method RunPair(baseline: Artifact, candidate: Artifact, heldOut: bool, k: nat, ghost ratios: seq<real>)
      returns (r: Result<real, Failure>)
      requires Inv() && ComparingSo(baseline.id, candidate.id, heldOut, ratios) && |ratios| == k < |plan.workloads|
      modifies this`asked, this`sequence
      ensures Inv() && old(asked) <= asked && sequence <= old(sequence) + 3
      ensures r.Ok? ==>
        && plan.workloads[k].id in state.calibratedBlocks
        && var x := Comparison(baseline, candidate, heldOut, k, Some(r.value));
        && Fine(asked) && Ran(old(asked), asked, x)
        && |asked| >= 2 && asked[|asked| - 2] == x && asked[|asked| - 1] == Wrote(Completed, true)
      ensures r.Err? ==> r.error == Operational && Stopped()
    {
      hide Safe, ValidPlan, Writes, Fine, Only, Checked, Ran, Gated, StepOk, ComparedOn, Unrecorded, FinalOk, FitsTimeout;
      var w := plan.workloads[k];
      if w.id !in state.calibratedBlocks {
        return Err(NoCalibratedBlocks);
      }
      var blocks := state.calibratedBlocks[w.id];
      var started := Announce(ComparisonStarted(baseline.id, candidate.id, w.id, blocks, heldOut));
      if !started {
        return Err(Operational);
      }
      ghost var before := asked;
      var ratio := world(|asked|).ratio;
      ghost var x := Comparison(baseline, candidate, heldOut, k, ratio);
      BlocksFit(plan, state, asked, k);
      StillGated(plan, old(asked), asked, baseline.id);
      StillGated(plan, old(asked), asked, candidate.id);
      QuietOnly(old(asked), asked, FinalRuns);
      ComparisonStep(plan, asked, x);
      if heldOut {
        FinalNext(plan, state, asked, ratios, ratio);
      }
      FineAppend(asked, x);
      Take(Compared(baseline.id, candidate.id, w.id, blocks, heldOut,
                    (if heldOut then plan.confirmation else plan.exploration).seeds, ratio));
      ghost var ran := asked;
      var completed := Note(Completed);
      if !completed {
        return Err(Operational);
      }
      if ratio.None? {
        if Fine(asked) {
          StillFailed(ran, asked);
        }
        return Err(Operational);
      }
      RanHere(old(asked), before, x, asked);
      r := Ok(ratio.value);
    }

    /** Compare two artifacts on the next workload. */
    method CompareOn(baseline: Artifact, candidate: Artifact, heldOut: bool, k: nat, ghost ratios: seq<real>)
      returns (r: Result<ResultSummary, Failure>)
      requires Inv() && ComparingSo(baseline.id, candidate.id, heldOut, ratios) && |ratios| == k < |plan.workloads|
      modifies this`asked, this`sequence, this`history
      ensures Inv() && old(asked) <= asked && old(history) <= history && sequence <= old(sequence) + 4
      ensures r.Ok? ==>
        && ResultOk(plan, state.calibratedBlocks, plan.workloads[k], r.value)
        && ComparingSo(baseline.id, candidate.id, heldOut, ratios + [r.value.lowerRatio])
        && OnlyThese(old(asked), asked, if heldOut then FinalRuns else TrialsOf(candidate.id))
      ensures r.Err? ==> r.error == Operational && Stopped()
    {
      hide Safe, ValidPlan, Writes, Fine, Only, Ran, Gated, StepOk, OnlyThese, ComparedOn, Unrecorded;
      var w := plan.workloads[k];
      var ratio := RunPair(baseline, candidate, heldOut, k, ratios);
      if ratio.Err? {
        return Err(ratio.error);
      }
      ghost var kind := if heldOut then FinalRuns else TrialsOf(candidate.id);
      ghost var x := Comparison(baseline, candidate, heldOut, k, Some(ratio.value));
      ghost var ran := asked;
      WorkloadResultStep(plan, asked, x);
      var logged := Emit(WorkloadResult(baseline.id, candidate.id, w.id, ratio.value, heldOut));
      if !logged {
        return Err(Operational);
      }
      var saved := Checkpoint();
      if !saved {
        return Err(Operational);
      }
      StillGated(plan, old(asked), asked, baseline.id);
      StillGated(plan, old(asked), asked, candidate.id);
      RanThen(old(asked), ran, x, asked);
      NoneYet(old(asked), kind);
      OnlyTheseRan(old(asked), old(asked), x, asked, kind);
      ComparedNext(plan, state.calibratedBlocks, Only(old(asked), kind), baseline.id, candidate.id, heldOut, ratios, ratio.value);
      if !heldOut {
        OtherKind(old(asked), asked, kind, FinalRuns);
      }
      r := Ok(ResultSummary(w.id, state.calibratedBlocks[w.id], ratio.value, ratio.value > plan.minLowerBoundRatio));
    }

    /** Compare two artifacts on every workload. */
    method RunComparison(baseline: Artifact, candidate: Artifact, heldOut: bool)
      returns (r: Result<seq<ResultSummary>, Failure>)
      requires Inv() && ComparingSo(baseline.id, candidate.id, heldOut, [])
      modifies this`asked, this`sequence, this`history
      ensures Inv() && old(asked) <= asked && old(history) <= history && sequence <= old(sequence) + 4 * |plan.workloads|
      ensures r.Ok? ==>
        && ResultsOk(plan, state.calibratedBlocks, r.value)
        && ComparingSo(baseline.id, candidate.id, heldOut, Ratios(r.value))
        && OnlyThese(old(asked), asked, if heldOut then FinalRuns else TrialsOf(candidate.id))
      ensures r.Err? ==> r.error == Operational && Stopped()
    {
      hide Safe, ValidPlan, Writes, Fine, Only, Gated, OnlyThese, ResultOk, ComparedOn, Unrecorded, AllCalibrated;
      var results: seq<ResultSummary> := [];
      NoneYet(asked, if heldOut then FinalRuns else TrialsOf(candidate.id));
      assert Ratios([]) == [];
      for k := 0 to |plan.workloads|
        invariant Inv() && old(asked) <= asked && old(history) <= history && sequence <= old(sequence) + 4 * k
        invariant ComparingSo(baseline.id, candidate.id, heldOut, Ratios(results)) && |results| == k
        invariant OnlyThese(old(asked), asked, if heldOut then FinalRuns else TrialsOf(candidate.id))
        invariant forall j :: 0 <= j < k ==> ResultOk(plan, state.calibratedBlocks, plan.workloads[j], results[j])
      {
        ghost var before := asked;
        var result := CompareOn(baseline, candidate, heldOut, k, Ratios(results));
        if result.Err? {
          return Err(result.error);
        }
        assert Ratios(results + [result.value]) == Ratios(results) + [result.value.lowerRatio];
        OnlyTheseBoth(old(asked), before, asked, if heldOut then FinalRuns else TrialsOf(candidate.id));
        results := results + [result.value];
      }
      r := Ok(results);
    }

    /** Every workload is calibrated, nothing failed, and of the candidates from `k` on nothing was run yet. */
    ghost predicate IsExploring(current: Artifact, k: nat)
      reads this
    {
      && Fine(asked)
      && |state.calibrations| == |plan.workloads| && |state.candidates| == k <= |plan.candidates|
      && state.confirmation.None? && state.outcome.None?
      && current.id == state.currentBaseline && Gated(plan, asked, current.id)
      && Only(asked, FinalRuns) == []
      && Untried(plan, asked, k)
    }

    /** Log and save what came of a candidate. */
    method Record(c: CandidateOutcome) returns (ok: bool)
      requires Inv() && Only(asked, FinalRuns) == []
      requires |state.calibrations| == |plan.workloads| && |state.candidates| < |plan.candidates|
      requires state.confirmation.None? && state.outcome.None?
      requires CandidateOk(plan, state.calibratedBlocks, state.currentBaseline, plan.candidates[|state.candidates|], c)
      requires TrialOk(plan, state.calibratedBlocks, asked, c)
      modifies this`state, this`asked, this`sequence, this`history
      ensures Inv() && Quiet(old(asked), asked) && old(history) <= history && state == Tried(old(state), c)
      ensures sequence <= old(sequence) + 1
      ensures ok && old(Fine(asked)) ==> Fine(asked)
      ensures !ok ==> Stopped()
    {
      hide Safe, ValidPlan, Writes, Fine, Only, CandidateOk, TrialOk;
      TriedSafe(plan, state, asked, c);
      state := Tried(state, c);
      ok := Note(Noted);
      if ok {
        ok := Checkpoint();
      }
    }

    /** Gate a candidate and, if it passes, compare it with the current baseline: the baseline from then on. */
    method TryCandidate(k: nat, current: Artifact) returns (r: Result<Artifact, Failure>)
      requires Inv() && k < |plan.candidates| && IsExploring(current, k)
      modifies this`state, this`asked, this`sequence, this`history
      ensures Inv() && old(asked) <= asked && old(history) <= history && sequence <= old(sequence) + 8 * |plan.workloads| + 2
      ensures r.Ok? ==>
        && IsExploring(r.value, k + 1)
        && Only(asked, GatesOf(plan.baseline.id)) == old(Only(asked, GatesOf(plan.baseline.id)))
      ensures r.Err? ==> r.error == Operational && Stopped()
    {
      hide Safe, ValidPlan, Writes, Fine, Only, Gated, OnlyThese, ResultsOk, AllMet, GatedOn, NotPassed, ComparedOn, Unrecorded, Untried;
      var candidate := plan.candidates[k];
      NotRecordedYet(plan, state, asked, k);
      UntriedHere(plan, asked, k);
      var started := Note(Noted);
      if !started {
        return Err(Operational);
      }
      ghost var begun := asked;
      QuietOnly(old(asked), asked, GatesOf(candidate.id));
      QuietOnly(old(asked), asked, TrialsOf(candidate.id));
      QuietOnly(old(asked), asked, FinalRuns);
      UntriedQuiet(plan, old(asked), asked, k, k + 1);
      OtherArtifacts(plan, k);
      QuietOnly(old(asked), asked, GatesOf(plan.baseline.id));
      var gate := GateArtifact(candidate);
      if gate.Err? {
        return Err(gate.error);
      }
      ghost var gated := asked;
      StillGated(plan, old(asked), asked, current.id);
      OtherKind(begun, asked, GatesOf(candidate.id), TrialsOf(candidate.id));
      OtherKind(begun, asked, GatesOf(candidate.id), FinalRuns);
      UntriedOthers(plan, begun, asked, k, GatesOf(candidate.id));
      OtherKind(begun, asked, GatesOf(candidate.id), GatesOf(plan.baseline.id));
      if gate.value != [] {
        var saved := Record(CandidateOutcome(candidate.id, current.id, current.id, GateFailed, gate.value, []));
        if !saved {
          return Err(Operational);
        }
        StillGated(plan, gated, asked, current.id);
        QuietOnly(gated, asked, FinalRuns);
        UntriedQuiet(plan, gated, asked, k + 1, k + 1);
        QuietOnly(gated, asked, GatesOf(plan.baseline.id));
        return Ok(current);
      }
      AllPassed(plan, asked, candidate.id);
      CalibratedAll(plan, state, asked);
      NothingCompared(plan, state.calibratedBlocks, current.id, candidate.id, false);
      var results := RunComparison(current, candidate, false);
      if results.Err? {
        return Err(results.error);
      }
      ghost var compared := asked;
      OtherKind(gated, asked, TrialsOf(candidate.id), GatesOf(candidate.id));
      OtherKind(gated, asked, TrialsOf(candidate.id), FinalRuns);
      UntriedOthers(plan, gated, asked, k, TrialsOf(candidate.id));
      OtherKind(gated, asked, TrialsOf(candidate.id), GatesOf(plan.baseline.id));
      var promoted := AllMet(results.value);
      var next := if promoted then candidate else current;
      var outcome := CandidateOutcome(candidate.id, current.id, next.id, if promoted then Promoted else NotPromoted, [], results.value);
      TrialCompared(plan, state.calibratedBlocks, asked, outcome);
      var saved := Record(outcome);
      if !saved {
        return Err(Operational);
      }
      StillGated(plan, compared, asked, next.id);
      QuietOnly(compared, asked, FinalRuns);
      UntriedQuiet(plan, compared, asked, k + 1, k + 1);
      QuietOnly(compared, asked, GatesOf(plan.baseline.id));
      r := Ok(next);
    }

    method Finish(outcome: Outcome) returns (r: Result<(), Failure>)
      requires Inv() && OutcomeOk(plan, state.(outcome := Some(outcome))) && outcome != OperationalFailure
      modifies this`state, this`asked, this`sequence, this`history
      ensures Inv() && Quiet(old(asked), asked) && old(history) <= history && sequence <= old(sequence) + 1
      ensures r.Ok? ==>
        state == old(state).(phase := Done, outcome := Some(outcome)) && OnDisk() && (old(Fine(asked)) ==> Fine(asked))
      ensures r.Err? ==> r.error == Operational && Stopped()
    {
      hide Safe, ValidPlan, Writes, Fine, OutcomeOk;
      OutcomeSafe(plan, state, asked, Done, Some(outcome));
      state := state.(phase := Done, outcome := Some(outcome));
      var logged := Note(Noted);
      if !logged {
        return Err(Operational);
      }
      var saved := Checkpoint();
      if !saved {
        return Err(Operational);
      }
      var written := WriteReport();
      r := if written then Ok(()) else Err(Operational);
    }

    /** Record how the final comparison ended, check every file again, and end the campaign. */
    method RecordConfirmation(results: seq<ResultSummary>) returns (r: Result<(), Failure>)
      requires Inv() && Fine(asked) && Safe(plan, WithConfirmation(plan, state, results), asked) && state.outcome.None?
      modifies this`state, this`asked, this`sequence, this`history
      ensures Inv() && Quiet(old(asked), asked) && old(history) <= history && sequence <= old(sequence) + 3
      ensures r.Ok? ==>
        && state.outcome == Some(if AllMet(results) then Confirmed else ConfirmationInconclusive)
        && Fine(asked) && OnDisk() && EndsChecked(asked)
      ensures r.Err? ==> r.error == Operational && Stopped()
    {
      hide Safe, ValidPlan, Writes, Fine, AllMet, EndsChecked;
      state := WithConfirmation(plan, state, results);
      var logged := Note(Noted);
      if !logged {
        return Err(Operational);
      }
      var saved := Checkpoint();
      if !saved {
        return Err(Operational);
      }
      var verified := VerifyFile();
      if !verified {
        return Err(Operational);
      }
      ghost var checked := asked;
      var outcome := if AllMet(results) then Confirmed else ConfirmationInconclusive;
      r := Finish(outcome);
      CheckedLast(checked, asked);
    }

    /** Compare the winner once with the original baseline, and accept it if it holds up. */
    method Confirm(current: Artifact) returns (r: Result<(), Failure>)
      requires Inv() && IsExploring(current, |plan.candidates|) && state.promotions != []
      requires Gated(plan, asked, plan.baseline.id)
      modifies this`state, this`asked, this`sequence, this`history
      ensures Inv() && old(asked) <= asked && old(history) <= history && sequence <= old(sequence) + 4 * |plan.workloads| + 4
      ensures r.Ok? ==>
        && (state.outcome == Some(Confirmed) || state.outcome == Some(ConfirmationInconclusive))
        && Fine(asked) && OnlyThese(old(asked), asked, FinalRuns) && OnDisk() && EndsChecked(asked)
      ensures r.Err? ==> r.error == Operational && Stopped()
    {
      hide Safe, ValidPlan, Writes, Fine, Only, Gated, OnlyThese, ResultsOk, AllMet, ComparedOn, Untried, Unrecorded;
      var started := SetPhase(Confirming);
      if !started {
        return Err(Operational);
      }
      StillGated(plan, old(asked), asked, current.id);
      StillGated(plan, old(asked), asked, plan.baseline.id);
      NoneYet(old(asked), FinalRuns);
      OnlyTheseQuiet(old(asked), old(asked), asked, FinalRuns);
      CalibratedAll(plan, state, asked);
      NothingCompared(plan, state.calibratedBlocks, plan.baseline.id, current.id, true);
      ghost var begun := asked;
      var results := RunComparison(plan.baseline, current, true);
      if results.Err? {
        return Err(results.error);
      }
      OnlyTheseBoth(old(asked), begun, asked, FinalRuns);
      ghost var compared := asked;
      ConfirmedSafe(plan, state, asked, results.value);
      r := RecordConfirmation(results.value);
      OnlyTheseQuiet(old(asked), compared, asked, FinalRuns);
    }

    /** Gate the original baseline. */
    method GateBaseline() returns (r: Result<(), Failure>)
      requires Inv() && Fine(asked) && NothingRan(asked) && state.candidates == []
      modifies this`state, this`asked, this`sequence, this`history
      ensures Inv() && old(asked) <= asked && old(history) <= history && state == old(state).(phase := GatingBaseline)
      ensures sequence <= old(sequence) + 4 * |plan.workloads| + 1
      ensures r.Ok? ==> Fine(asked) && OnlyBaselineGates(plan, asked)
      ensures r.Err? ==> NotExecuted(r.error)
    {
      hide Safe, ValidPlan, Writes, Fine, Only, OnlyThese, GatedOn, NotPassed, Unrecorded, Gated, Untried;
      var started := SetPhase(GatingBaseline);
      if !started {
        return Err(Operational);
      }
      NothingRanQuiet(old(asked), asked);
      NobodyRecorded(state, plan.baseline.id);
      NothingRanOnly(asked, GatesOf(plan.baseline.id));
      ghost var begun := asked;
      var gate := GateArtifact(plan.baseline);
      if gate.Err? {
        return Err(gate.error);
      }
      if gate.value != [] {
        SomeInequivalent(asked, plan.baseline.id);
        return Err(BaselineNotEquivalent);
      }
      NothingElse(plan, begun, asked);
      r := Ok(());
    }

    /** Calibrate, and get ready for the candidates. */
    method CalibrateBaseline() returns (r: Result<(), Failure>)
      requires Inv() && Fine(asked) && OnlyBaselineGates(plan, asked)
      requires state.calibrations == [] && state.candidates == [] && state.confirmation.None? && state.outcome.None?
      modifies this`state, this`asked, this`sequence, this`history
      ensures Inv() && old(asked) <= asked && old(history) <= history
      ensures sequence <= old(sequence) + 4 * |plan.workloads| + 2
      ensures r.Ok? ==> IsExploring(plan.baseline, 0) && BaselineStands(plan, asked)
      ensures r.Err? ==> r.error == Operational && Stopped()
    {
      hide Safe, ValidPlan, Writes, Fine, Only, OnlyThese, GatedOn, NotPassed, Gated, Untried, BaselineStands;
      ghost var gates := GatesOf(plan.baseline.id);
      var started := SetPhase(Calibrating);
      if !started {
        return Err(Operational);
      }
      QuietOnly(old(asked), asked, FinalRuns);
      QuietOnly(old(asked), asked, CalibrationRuns);
      QuietOnly(old(asked), asked, gates);
      UntriedQuiet(plan, old(asked), asked, 0, 0);
      StandsStill(plan, old(asked), asked);
      BaselineGated(plan, asked);
      ghost var ready := asked;
      var calibrated := Calibrate();
      if calibrated.Err? {
        return Err(calibrated.error);
      }
      ghost var measured := asked;
      started := SetPhase(Exploring);
      if !started {
        return Err(Operational);
      }
      OnlyTheseQuiet(ready, measured, asked, CalibrationRuns);
      UntriedOthersAll(plan, ready, asked);
      OtherKind(ready, asked, CalibrationRuns, FinalRuns);
      OtherKind(ready, asked, CalibrationRuns, gates);
      StandsStill(plan, ready, asked);
      BaselineGated(plan, asked);
      NoneTried(plan, state, asked);
      r := Ok(());
    }

    /** Try the candidates in the plan's order. */
    method Explore() returns (r: Result<Artifact, Failure>)
      requires Inv() && IsExploring(plan.baseline, 0) && BaselineStands(plan, asked)
      modifies this`state, this`asked, this`sequence, this`history
      ensures Inv() && old(asked) <= asked && old(history) <= history
      ensures sequence <= old(sequence) + Times(|plan.candidates|, 8 * |plan.workloads| + 2)
      ensures r.Ok? ==> IsExploring(r.value, |plan.candidates|) && BaselineStands(plan, asked)
      ensures r.Err? ==> r.error == Operational && Stopped()
    {
      hide Safe, ValidPlan, Writes, IsExploring, Only, BaselineStands, Times;
      var current := plan.baseline;
      NoTimes(8 * |plan.workloads| + 2);
      for k := 0 to |plan.candidates|
        invariant Inv() && old(asked) <= asked && old(history) <= history
        invariant IsExploring(current, k) && BaselineStands(plan, asked)
        invariant sequence <= old(sequence) + Times(k, 8 * |plan.workloads| + 2)
      {
        TimesNext(k, 8 * |plan.workloads| + 2);
        TimesGrows(k + 1, |plan.candidates|, 8 * |plan.workloads| + 2);
        ghost var before := asked;
        var next := TryCandidate(k, current);
        if next.Err? {
          return Err(next.error);
        }
        StandsStill(plan, before, asked);
        current := next.value;
      }
      r := Ok(current);
    }

    /** Confirm the winner, if anything was promoted. */
    method Conclude(current: Artifact) returns (r: Result<(), Failure>)
      requires Inv() && IsExploring(current, |plan.candidates|) && BaselineStands(plan, asked)
      modifies this`state, this`asked, this`sequence, this`history
      ensures Inv() && old(asked) <= asked && old(history) <= history
      ensures sequence <= old(sequence) + 4 * |plan.workloads| + 4
      ensures r.Ok? ==>
        Fine(asked) && state.outcome.Some? && state.outcome != Some(OperationalFailure) && BaselineStands(plan, asked)
        && OnDisk() && EndsChecked(asked)
      ensures r.Err? ==> r.error == Operational && Stopped()
    {
      hide Safe, ValidPlan, Writes, Fine, Only, OnlyThese, Gated, Untried, BaselineStands;
      if state.promotions == [] {
        var started := SetPhase(NothingToConfirm);
        if !started {
          return Err(Operational);
        }
        var verified := VerifyFile();
        if !verified {
          return Err(Operational);
        }
        ghost var checked := asked;
        r := Finish(NoCandidatePromoted);
        CheckedLast(checked, asked);
        QuietOnly(old(asked), asked, GatesOf(plan.baseline.id));
        StandsStill(plan, old(asked), asked);
      } else {
        BaselineGated(plan, asked);
        r := Confirm(current);
        if r.Ok? {
          OtherKind(old(asked), asked, FinalRuns, GatesOf(plan.baseline.id));
          StandsStill(plan, old(asked), asked);
        }
      }
    }

    /** The whole campaign. */
    method Execute() returns (r: Result<(), Failure>)
      requires Inv() && Fine(asked) && NothingRan(asked) && state.calibrations == [] && state.candidates == []
      requires state.confirmation.None? && state.outcome.None?
      modifies this`state, this`asked, this`sequence, this`history
      ensures Inv() && old(asked) <= asked && old(history) <= history
      ensures sequence + 2 <= old(sequence) + EventBound(plan)
      ensures r.Ok? ==>
        Fine(asked) && state.outcome.Some? && state.outcome != Some(OperationalFailure) && BaselinePasses(plan, asked)
        && OnDisk() && EndsChecked(asked)
      ensures r.Err? ==> NotExecuted(r.error)
    {
      hide Safe, ValidPlan, Writes, Fine, IsExploring, BaselineStands, OnlyBaselineGates, BaselinePasses, EndsChecked, Times;
      r := GateBaseline();
      if r.Err? {
        return;
      }
      r := CalibrateBaseline();
      if r.Err? {
        return;
      }
      var winner := Explore();
      if winner.Err? {
        return Err(winner.error);
      }
      r := Conclude(winner.value);
      if r.Ok? {
        BaselineGated(plan, asked);
      }
    }

    /** Record a failure; whatever was promoted or accepted before it stays as it was. */
    method Abort()
      requires Inv()
      modifies this`state, this`asked, this`sequence, this`history
      ensures Inv() && Quiet(old(asked), asked) && old(history) <= history
      ensures state == old(state).(phase := Aborted, outcome := Some(OperationalFailure))
    {
      hide Safe, ValidPlan, Writes, Fine;
      OutcomeSafe(plan, state, asked, Aborted, Some(OperationalFailure));
      state := state.(phase := Aborted, outcome := Some(OperationalFailure));
      var logged := Note(Noted);
      var saved := Checkpoint();
      var written := WriteReport();
    }
  }

  lemma SafeOutcome(plan: Plan, s: State, asked: seq<Exchange>)
    requires Safe(plan, s, asked)
    ensures OutcomeOk(plan, s) && s.(outcome := s.outcome) == s
  {
    hide StepsOk, CalibrationsOk, TrialsOk, FinalOk, ConfirmationOk;
  }

  lemma NothingYet(plan: Plan, asked: seq<Exchange>, artifact: string)
    requires Only(asked, GatesOf(artifact)) == []
    ensures GatedOn(plan, Only(asked, GatesOf(artifact)), artifact, 0) && NotPassed(Only(asked, GatesOf(artifact))) == []
    ensures OnlyThese(asked, asked, GatesOf(artifact))
  {
  }

  lemma NoneYet(asked: seq<Exchange>, kind: Kind)
    ensures OnlyThese(asked, asked, kind)
  {
  }

  lemma OtherKind(asked: seq<Exchange>, longer: seq<Exchange>, these: Kind, other: Kind)
    requires OnlyThese(asked, longer, these) && other != these
    ensures Only(longer, other) == Only(asked, other)
  {
    hide Only;
  }

  lemma CalibrationFits(plan: Plan, k: nat)
    requires ValidPlan(plan) && k < |plan.workloads|
    ensures FitsTimeout(plan.limits, plan.workloads[k].calibrationBlocks)
  {
    hide FitsTimeout;
  }

  lemma WithCalibrationFacts(plan: Plan, s: State, recommended: nat)
    requires ValidPlan(plan) && |s.calibrations| < |plan.workloads|
    ensures var t := WithCalibration(plan, s, recommended);
            && |t.calibrations| == |s.calibrations| + 1 && t.candidates == s.candidates && t.confirmation == s.confirmation
            && t.outcome == s.outcome && t.currentBaseline == s.currentBaseline
  {
  }

  lemma OnlyTheseBoth(asked: seq<Exchange>, longer: seq<Exchange>, more: seq<Exchange>, these: Kind)
    requires OnlyThese(asked, longer, these) && OnlyThese(longer, more, these)
    ensures OnlyThese(asked, more, these)
  {
    hide Only;
  }

  lemma NothingCompared(plan: Plan, calibrated: map<string, nat>, baseline: string, candidate: string, heldOut: bool)
    ensures ComparedOn(plan, calibrated, [], baseline, candidate, heldOut, [])
  {
  }

  // ----- candidates not tried yet -----

  /** Of the candidates from `k` on nothing was run. */
  ghost predicate Untried(plan: Plan, asked: seq<Exchange>, k: nat) {
    forall j :: k <= j < |plan.candidates| ==>
      Only(asked, GatesOf(plan.candidates[j].id)) == [] && Only(asked, TrialsOf(plan.candidates[j].id)) == []
  }

  lemma UntriedHere(plan: Plan, asked: seq<Exchange>, k: nat)
    requires Untried(plan, asked, k) && k < |plan.candidates|
    ensures Only(asked, GatesOf(plan.candidates[k].id)) == [] && Only(asked, TrialsOf(plan.candidates[k].id)) == []
  {
    hide Only;
  }

  lemma UntriedQuiet(plan: Plan, asked: seq<Exchange>, longer: seq<Exchange>, j: nat, k: nat)
    requires Untried(plan, asked, j) && Quiet(asked, longer) && j <= k
    ensures Untried(plan, longer, k)
  {
    hide Only;
    forall i | k <= i < |plan.candidates|
      ensures Only(longer, GatesOf(plan.candidates[i].id)) == [] && Only(longer, TrialsOf(plan.candidates[i].id)) == []
    {
      QuietOnly(asked, longer, GatesOf(plan.candidates[i].id));
      QuietOnly(asked, longer, TrialsOf(plan.candidates[i].id));
    }
  }

  lemma UntriedOthers(plan: Plan, asked: seq<Exchange>, longer: seq<Exchange>, k: nat, these: Kind)
    requires ValidPlan(plan) && k < |plan.candidates| && Untried(plan, asked, k + 1) && OnlyThese(asked, longer, these)
    requires these == GatesOf(plan.candidates[k].id) || these == TrialsOf(plan.candidates[k].id)
    ensures Untried(plan, longer, k + 1)
  {
    hide Only;
    assert DistinctArtifacts(plan);
  }

  lemma OtherArtifacts(plan: Plan, k: nat)
    requires ValidPlan(plan) && k < |plan.candidates|
    ensures plan.candidates[k].id != plan.baseline.id
  {
    assert DistinctArtifacts(plan);
  }

  lemma NotRecordedYet(plan: Plan, s: State, asked: seq<Exchange>, k: nat)
    requires ValidPlan(plan) && Safe(plan, s, asked) && |s.candidates| == k < |plan.candidates|
    ensures Unrecorded(s, plan.candidates[k].id)
  {
    hide StepsOk, CalibrationsOk, TrialsOk, FinalOk, ConfirmationOk, Winner;
    assert DistinctArtifacts(plan);
    forall j | 0 <= j < k ensures s.candidates[j].candidateId != plan.candidates[k].id {
      assert CandidateOk(plan, s.calibratedBlocks, Winner(plan.baseline.id, s.candidates[..j]), plan.candidates[j], s.candidates[j]);
    }
  }

  // ----- the beginning -----

  predicate NothingRan(asked: seq<Exchange>) {
    forall i :: 0 <= i < |asked| ==> !IsRun(asked[i])
  }

  lemma NothingRanQuiet(asked: seq<Exchange>, longer: seq<Exchange>)
    requires NothingRan(asked) && Quiet(asked, longer)
    ensures NothingRan(longer)
  {
    forall i | 0 <= i < |longer| ensures !IsRun(longer[i]) {
      if i < |asked| {
        assert longer[i] == asked[i];
      }
    }
  }

  lemma NothingRanOnly(asked: seq<Exchange>, kind: Kind)
    requires NothingRan(asked)
    ensures Only(asked, kind) == []
  {
    assert Quiet([], asked);
    QuietOnly([], asked, kind);
  }

  lemma NobodyRecorded(s: State, artifact: string)
    requires s.candidates == []
    ensures Unrecorded(s, artifact)
  {
  }

  /** After the gates of the baseline nothing else was run. */
  lemma NothingElse(plan: Plan, asked: seq<Exchange>, longer: seq<Exchange>)
    requires ValidPlan(plan) && NothingRan(asked) && OnlyThese(asked, longer, GatesOf(plan.baseline.id))
    ensures Only(longer, FinalRuns) == [] && Only(longer, CalibrationRuns) == [] && Untried(plan, longer, 0)
  {
    hide Only;
    assert DistinctArtifacts(plan);
    forall kind ensures Only(asked, kind) == [] {
      NothingRanOnly(asked, kind);
    }
  }

  /** The gate of the original baseline ran once on each workload, and passed. */
  predicate BaselineStands(plan: Plan, asked: seq<Exchange>) {
    var gates := Only(asked, GatesOf(plan.baseline.id));
    GatedOn(plan, gates, plan.baseline.id, |plan.workloads|) && NotPassed(gates) == []
  }

  /** ... and nothing else was run. */
  ghost predicate OnlyBaselineGates(plan: Plan, asked: seq<Exchange>) {
    BaselineStands(plan, asked) && Only(asked, FinalRuns) == [] && Only(asked, CalibrationRuns) == [] && Untried(plan, asked, 0)
  }

  lemma BaselineGated(plan: Plan, asked: seq<Exchange>)
    requires BaselineStands(plan, asked)
    ensures Gated(plan, asked, plan.baseline.id) && BaselinePasses(plan, asked)
  {
    hide GatedOn, NotPassed, Only, Gated;
    AllPassed(plan, asked, plan.baseline.id);
  }

  lemma StandsStill(plan: Plan, asked: seq<Exchange>, longer: seq<Exchange>)
    requires BaselineStands(plan, asked) && Only(longer, GatesOf(plan.baseline.id)) == Only(asked, GatesOf(plan.baseline.id))
    ensures BaselineStands(plan, longer)
  {
    hide GatedOn, NotPassed, Only;
  }

  /** A candidate that passed its gates and was compared on every workload. */
  lemma TrialCompared(plan: Plan, calibrated: map<string, nat>, asked: seq<Exchange>, c: CandidateOutcome)
    requires GatedOn(plan, Only(asked, GatesOf(c.candidateId)), c.candidateId, |plan.workloads|)
    requires NotPassed(Only(asked, GatesOf(c.candidateId))) == [] == c.gateFailures
    requires ResultsOk(plan, calibrated, c.results) && |Ratios(c.results)| <= |plan.workloads|
    requires ComparedOn(plan, calibrated, Only(asked, TrialsOf(c.candidateId)), c.baselineBefore, c.candidateId, false, Ratios(c.results))
    ensures TrialOk(plan, calibrated, asked, c)
  {
    hide GatedOn, NotPassed, Only, ComparedOn;
  }

  lemma UntriedOthersAll(plan: Plan, asked: seq<Exchange>, longer: seq<Exchange>)
    requires Untried(plan, asked, 0) && OnlyThese(asked, longer, CalibrationRuns)
    ensures Untried(plan, longer, 0)
  {
    hide Only;
  }

  lemma NoneTried(plan: Plan, s: State, asked: seq<Exchange>)
    requires Safe(plan, s, asked) && s.candidates == []
    ensures s.currentBaseline == plan.baseline.id
  {
  }

  /** The gate of the original baseline found a difference. */
  predicate BaselineDiffers(plan: Plan, asked: seq<Exchange>) {
    exists x :: x in asked && x.GateRan? && x.artifact == plan.baseline.id && Inequivalent(x.process)
  }

  /** Every gate process of the original baseline passed. */
  predicate BaselinePasses(plan: Plan, asked: seq<Exchange>) {
    forall x :: x in asked && x.GateRan? && x.artifact == plan.baseline.id ==> Passed(x)
  }

  lemma NoTimes(step: nat)
    ensures Times(0, step) == 0
  {
  }

  lemma TimesNext(k: nat, step: nat)
    ensures Times(k + 1, step) == Times(k, step) + step
  {
  }

  lemma {:induction false} TimesGrows(k: nat, n: nat, step: nat)
    requires k <= n
    ensures Times(k, step) <= Times(n, step)
    decreases n
  {
    if k < n {
      TimesGrows(k, n - 1, step);
    }
  }

  lemma DifferenceStays(plan: Plan, asked: seq<Exchange>, longer: seq<Exchange>)
    requires BaselineDiffers(plan, asked) && asked <= longer
    ensures !BaselinePasses(plan, longer)
  {
    var x :| x in asked && x.GateRan? && x.artifact == plan.baseline.id && Inequivalent(x.process);
    var i :| 0 <= i < |asked| && asked[i] == x;
    assert longer[i] == x;
    hide Wire.ParseGate;
    assert !Passed(x);
  }

  /**
   A plan is refused, or run against the world. Whatever the world answers, the state at the
   end and every state ever written is a safe record of what was asked, and the campaign ends
   well exactly when no answer failed and every gate of the original baseline passed.
   */
  method RunCampaign(plan: Plan, world: World) returns (context: Option<RunContext>, ok: bool)
    ensures context.Some? <==> ValidPlan(plan)
    ensures context.Some? ==>
      && context.value.plan == plan
      && Answered(world, context.value.asked)
      && context.value.sequence == Writes(context.value.asked)
      && Safe(plan, context.value.state, context.value.asked)
      && (forall k :: 0 <= k < |context.value.history| ==>
            && context.value.history[k].asked <= context.value.asked
            && Safe(plan, context.value.history[k].state, context.value.history[k].asked))
      && (ok <==> context.value.state.outcome.Some? && context.value.state.outcome != Some(OperationalFailure))
      && (ok ==> Fine(context.value.asked) && BaselinePasses(plan, context.value.asked))
      && (ok ==> context.value.OnDisk() && EndsChecked(context.value.asked))
      && (!ok && EventBound(plan) < U64 ==> !Fine(context.value.asked) || !BaselinePasses(plan, context.value.asked))
  {
    hide Safe, ValidPlan, Writes, Fine, Only, Passed, EventBound, EndsChecked;
    var valid := Validate(plan);
    if !valid {
      return None, false;
    }
    var run := new RunContext(plan, world);
    FineNothing();
    var started := run.Note(Noted);
    if started {
      started := run.Checkpoint();
    }
    NothingRanQuiet([], run.asked);
    if !started {
      return Some(run), false;
    }
    ghost var begun := run.sequence;
    var r := run.Execute();
    ghost var executed := run.asked;
    if r.Err? {
      run.Abort();
      if Fine(run.asked) {
        StillFailed(executed, run.asked);
      }
      if r.error == BaselineNotEquivalent {
        DifferenceStays(plan, executed, run.asked);
      }
    }
    context, ok := Some(run), r.Ok?;
  }

  lemma FineNothing()
    ensures Fine([]) && NothingRan([])
  {
  }
}
