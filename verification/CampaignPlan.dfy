/** The plan of an optimisation campaign, what makes it valid, and its timeout budget. */
module CampaignPlan {
  import opened Wrappers
  import opened Widths

  const MAX_PAIRED_BLOCKS: nat := 100_000
  const MAX_TIMEOUT_MS: nat := 7 * 24 * 60 * 60 * 1_000
  const PAIRED_RUNS_PER_BLOCK: nat := 4
  const MIN_PAIRED_MARGIN_MS: nat := 100

  datatype Limits = Limits(gateTimeoutMs: nat, subjectTimeoutMs: nat, pairedTimeoutMs: nat)

  datatype Artifact = Artifact(id: string)

  datatype Workload = Workload(id: string, count: nat, sessions: nat, calibrationBlocks: nat, minBlocks: nat, maxBlocks: nat)

  datatype Design = Design(orderSeed: nat, seeds: seq<nat>)

  datatype Plan = Plan(
    limits: Limits,
    maxCandidates: nat,
    baseline: Artifact,
    candidates: seq<Artifact>,
    workloads: seq<Workload>,
    calibration: Design,
    exploration: Design,
    confirmation: Design,
    minLowerBoundRatio: real)

  // ----- what is valid -----

  predicate IsAlphanumeric(c: char) {
    'a' <= c <= 'z' || 'A' <= c <= 'Z' || '0' <= c <= '9'
  }

  predicate IsIdChar(c: char) {
    IsAlphanumeric(c) || c == '-' || c == '_' || c == '.'
  }

  predicate ValidId(id: string) {
    1 <= |id| <= 128 && IsAlphanumeric(id[0]) && forall i :: 0 <= i < |id| ==> IsIdChar(id[i])
  }

  predicate ValidTimeout(ms: nat) {
    0 < ms <= MAX_TIMEOUT_MS
  }

  predicate ValidWorkload(w: Workload) {
    && ValidId(w.id)
    && w.count > 0 && w.sessions > 0 && w.count * w.sessions < U64
    && 2 <= w.calibrationBlocks <= MAX_PAIRED_BLOCKS
    && 2 <= w.minBlocks <= w.maxBlocks <= MAX_PAIRED_BLOCKS
  }

  /** What so many blocks of subject runs may take, with the margin for scheduling them. */
  function WorstCaseMs(blocks: nat, subjectTimeoutMs: nat): nat {
    var budget := PAIRED_RUNS_PER_BLOCK * blocks * subjectTimeoutMs;
    budget + if budget / 10 > MIN_PAIRED_MARGIN_MS then budget / 10 else MIN_PAIRED_MARGIN_MS
  }

  /** So many blocks end before the paired runner is stopped. */
  predicate FitsTimeout(limits: Limits, blocks: nat) {
    WorstCaseMs(blocks, limits.subjectTimeoutMs) < limits.pairedTimeoutMs
  }

  predicate DistinctArtifacts(plan: Plan) {
    && (forall i :: 0 <= i < |plan.candidates| ==> plan.candidates[i].id != plan.baseline.id)
    && (forall i, j :: 0 <= i < j < |plan.candidates| ==> plan.candidates[i].id != plan.candidates[j].id)
  }

  predicate DistinctWorkloads(workloads: seq<Workload>) {
    forall i, j :: 0 <= i < j < |workloads| ==> workloads[i].id != workloads[j].id
  }

  predicate ValidPlan(plan: Plan) {
    && ValidTimeout(plan.limits.gateTimeoutMs)
    && ValidTimeout(plan.limits.subjectTimeoutMs)
    && ValidTimeout(plan.limits.pairedTimeoutMs)
    && 0 < |plan.candidates| <= plan.maxCandidates
    && plan.workloads != []
    && plan.calibration.seeds != [] && plan.exploration.seeds != [] && plan.confirmation.seeds != []
    && plan.minLowerBoundRatio >= 1.0
    && plan.calibration.orderSeed != plan.exploration.orderSeed
    && plan.calibration.orderSeed != plan.confirmation.orderSeed
    && plan.exploration.orderSeed != plan.confirmation.orderSeed
    && (forall s :: s in plan.confirmation.seeds ==> s !in plan.exploration.seeds)
    && ValidId(plan.baseline.id)
    && (forall i :: 0 <= i < |plan.candidates| ==> ValidId(plan.candidates[i].id))
    && DistinctArtifacts(plan)
    && (forall i :: 0 <= i < |plan.workloads| ==> ValidWorkload(plan.workloads[i]))
    && DistinctWorkloads(plan.workloads)
    && (forall i :: 0 <= i < |plan.workloads| ==>
          FitsTimeout(plan.limits, plan.workloads[i].calibrationBlocks) && FitsTimeout(plan.limits, plan.workloads[i].maxBlocks))
  }

  // ----- what a block takes -----

  datatype Label = OfBaseline | OfCandidate

  datatype BlockOrder = Abba | Baab

  /** The subject runs of a block, in order. */
  function Labels(order: BlockOrder): seq<Label> {
    match order
    case Abba => [OfBaseline, OfCandidate, OfCandidate, OfBaseline]
    case Baab => [OfCandidate, OfBaseline, OfBaseline, OfCandidate]
  }

  function RunsOf(schedule: seq<BlockOrder>): seq<Label> {
    if schedule == [] then [] else Labels(schedule[0]) + RunsOf(schedule[1..])
  }

  function Sum(times: seq<nat>): nat {
    if times == [] then 0 else times[0] + Sum(times[1..])
  }

  lemma {:induction false} RunsCount(schedule: seq<BlockOrder>)
    ensures |RunsOf(schedule)| == PAIRED_RUNS_PER_BLOCK * |schedule|
    ensures multiset(RunsOf(schedule))[OfBaseline] == multiset(RunsOf(schedule))[OfCandidate]
  {
    if schedule != [] {
      RunsCount(schedule[1..]);
      assert multiset(RunsOf(schedule)) == multiset(Labels(schedule[0])) + multiset(RunsOf(schedule[1..]));
    }
  }

  lemma {:induction false} SumBound(times: seq<nat>, most: nat)
    requires forall k :: 0 <= k < |times| ==> times[k] <= most
    ensures Sum(times) <= |times| * most
  {
    if times != [] {
      SumBound(times[1..], most);
      assert |times| * most == most + (|times| - 1) * most;
    }
  }

  /**
   However the blocks are ordered and however long each subject run takes within its timeout,
   blocks that fit are done before the paired runner is stopped, with a tenth of their time to spare.
   */
  lemma ScheduleFits(limits: Limits, schedule: seq<BlockOrder>, times: seq<nat>)
    requires FitsTimeout(limits, |schedule|) && |times| == |RunsOf(schedule)|
    requires forall k :: 0 <= k < |times| ==> times[k] <= limits.subjectTimeoutMs
    ensures Sum(times) + Sum(times) / 10 < limits.pairedTimeoutMs
  {
    RunsCount(schedule);
    SumBound(times, limits.subjectTimeoutMs);
  }

  // ----- checking it -----

  lemma WorstCaseGrows(fewer: nat, more: nat, subjectTimeoutMs: nat)
    requires fewer <= more
    ensures WorstCaseMs(fewer, subjectTimeoutMs) <= WorstCaseMs(more, subjectTimeoutMs)
  {
    var a, b := PAIRED_RUNS_PER_BLOCK * fewer * subjectTimeoutMs, PAIRED_RUNS_PER_BLOCK * more * subjectTimeoutMs;
    assert b - a == PAIRED_RUNS_PER_BLOCK * (more - fewer) * subjectTimeoutMs;
  }

  /** Fewer blocks fit where more do. */
  lemma FewerFit(limits: Limits, fewer: nat, more: nat)
    requires fewer <= more && FitsTimeout(limits, more)
    ensures FitsTimeout(limits, fewer)
  {
    WorstCaseGrows(fewer, more, limits.subjectTimeoutMs);
  }

  /** The checked 64-bit arithmetic of the budget cannot overflow once the bounds were checked. */
  lemma BudgetFits(blocks: nat, subjectTimeoutMs: nat)
    requires blocks <= MAX_PAIRED_BLOCKS && subjectTimeoutMs <= MAX_TIMEOUT_MS
    ensures PAIRED_RUNS_PER_BLOCK * blocks * subjectTimeoutMs < U64 && WorstCaseMs(blocks, subjectTimeoutMs) < U64
  {
    var runs := PAIRED_RUNS_PER_BLOCK * blocks;
    assert runs * subjectTimeoutMs <= 400_000 * subjectTimeoutMs by {
      assert (400_000 - runs) * subjectTimeoutMs >= 0;
    }
  }

  method CheckWorkloads(workloads: seq<Workload>) returns (ok: bool, largest: nat)
    ensures ok <==> (forall i :: 0 <= i < |workloads| ==> ValidWorkload(workloads[i])) && DistinctWorkloads(workloads)
    ensures ok ==> forall i :: 0 <= i < |workloads| ==>
      workloads[i].calibrationBlocks <= largest && workloads[i].maxBlocks <= largest
    ensures ok && workloads != [] ==>
      exists i :: 0 <= i < |workloads| && (largest == workloads[i].calibrationBlocks || largest == workloads[i].maxBlocks)
    ensures ok ==> largest <= MAX_PAIRED_BLOCKS
  {
    ok, largest := true, 0;
    var ids := {};
    ghost var at: nat := 0;
    for i := 0 to |workloads|
      invariant forall k :: 0 <= k < i ==> ValidWorkload(workloads[k])
      invariant DistinctWorkloads(workloads[..i])
      invariant forall id :: id in ids <==> exists k :: 0 <= k < i && workloads[k].id == id
      invariant forall k :: 0 <= k < i ==> workloads[k].calibrationBlocks <= largest && workloads[k].maxBlocks <= largest
      invariant i == 0 ==> largest == 0
      invariant i > 0 ==>
        at < i && (largest == workloads[at].calibrationBlocks || largest == workloads[at].maxBlocks)
      invariant ok && largest <= MAX_PAIRED_BLOCKS
    {
      var w := workloads[i];
      if !ValidWorkload(w) || w.id in ids {
        return false, largest;
      }
      assert workloads[..i + 1] == workloads[..i] + [w];
      ids := ids + {w.id};
      at := if w.calibrationBlocks > largest || w.maxBlocks > largest then i else at;
      largest := if w.calibrationBlocks > largest then w.calibrationBlocks else largest;
      largest := if w.maxBlocks > largest then w.maxBlocks else largest;
    }
    assert workloads[..|workloads|] == workloads;
  }

  method CheckArtifacts(plan: Plan) returns (ok: bool)
    ensures ok <==>
      && ValidId(plan.baseline.id)
      && (forall i :: 0 <= i < |plan.candidates| ==> ValidId(plan.candidates[i].id))
      && DistinctArtifacts(plan)
  {
    var ids := {plan.baseline.id};
    ok := ValidId(plan.baseline.id);
    for i := 0 to |plan.candidates|
      invariant ok ==> ValidId(plan.baseline.id)
      invariant ok <==>
        && ValidId(plan.baseline.id)
        && (forall k :: 0 <= k < i ==> ValidId(plan.candidates[k].id))
        && (forall k :: 0 <= k < i ==> plan.candidates[k].id != plan.baseline.id)
        && (forall k, m :: 0 <= k < m < i ==> plan.candidates[k].id != plan.candidates[m].id)
      invariant forall id :: id in ids <==> id == plan.baseline.id || exists k :: 0 <= k < i && plan.candidates[k].id == id
    {
      ok := ok && ValidId(plan.candidates[i].id) && plan.candidates[i].id !in ids;
      ids := ids + {plan.candidates[i].id};
    }
  }

  /** Accept the plan exactly when it is valid; the largest block count stands for all of them. */
  method Validate(plan: Plan) returns (ok: bool)
    ensures ok <==> ValidPlan(plan)
  {
    if !ValidTimeout(plan.limits.gateTimeoutMs) || !ValidTimeout(plan.limits.subjectTimeoutMs)
      || !ValidTimeout(plan.limits.pairedTimeoutMs) {
      return false;
    }
    if |plan.candidates| == 0 || |plan.candidates| > plan.maxCandidates || plan.workloads == [] {
      return false;
    }
    if plan.calibration.seeds == [] || plan.exploration.seeds == [] || plan.confirmation.seeds == []
      || plan.minLowerBoundRatio < 1.0 {
      return false;
    }
    if |{plan.calibration.orderSeed, plan.exploration.orderSeed, plan.confirmation.orderSeed}| != 3 {
      return false;
    }
    if exists s :: s in plan.confirmation.seeds && s in plan.exploration.seeds {
      return false;
    }
    var artifacts := CheckArtifacts(plan);
    if !artifacts {
      return false;
    }
    var workloads, largest := CheckWorkloads(plan.workloads);
    if !workloads {
      return false;
    }
    BudgetFits(largest, plan.limits.subjectTimeoutMs);
    var budget := PAIRED_RUNS_PER_BLOCK * largest * plan.limits.subjectTimeoutMs;
    var margin := if budget / 10 > MIN_PAIRED_MARGIN_MS then budget / 10 else MIN_PAIRED_MARGIN_MS;
    if budget >= U64 || budget + margin >= U64 || plan.limits.pairedTimeoutMs <= budget + margin {
      return false;
    }
    forall i | 0 <= i < |plan.workloads|
      ensures FitsTimeout(plan.limits, plan.workloads[i].calibrationBlocks) && FitsTimeout(plan.limits, plan.workloads[i].maxBlocks)
    {
      FewerFit(plan.limits, plan.workloads[i].calibrationBlocks, largest);
      FewerFit(plan.limits, plan.workloads[i].maxBlocks, largest);
    }
    ok := true;
  }
}
