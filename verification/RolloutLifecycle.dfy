/**
 The rollout of a routing policy: from static over shadow and the canary steps
 to enforced, one passing observation at a time, with a human approval between
 shadow and canary, and back to static on any failure.
 */
module RolloutLifecycle {
  import opened Common

  datatype Stage = Static | Shadow | Canary | Enforced

  datatype Gates = Gates(
    maxP95Regression: real, maxErrorDelta: real, maxFallbackRate: real, maxSloViolationRate: real,
    maxPredictionMae: real, maxEvidenceErrorRate: real, requireExperimentPromotion: bool)

  datatype Config = Config(
    enabled: bool, requireHumanApproval: bool, minRequests: int, canarySteps: seq<real>, gates: Gates)

  datatype Observation = Observation(
    requests: int, p95Regression: real, errorDelta: real, fallbackRate: real, sloViolationRate: real,
    stateHealthy: bool, policyHealthy: bool, predictionMae: real, evidenceErrorRate: real,
    promotionEligible: bool, integrityHealthy: bool)

  datatype Reason =
    | Initialized | Disabled | HumanApproved | Unhealthy | MinimumRequestGate | QualityGateFailed | Drift
    | PromotionGateFailed | HumanApprovalRequired | QualityGatesPassed

  datatype State = State(stage: Stage, step: nat, reason: Reason, approved: bool, approvedBy: string)

  /** Strictly increasing values in (0, 1]. */
  ghost predicate Steps(steps: seq<real>) {
    (forall i :: 0 <= i < |steps| ==> 0.0 < steps[i] <= 1.0) &&
    (forall i, j :: 0 <= i < j < |steps| ==> steps[i] < steps[j])
  }

  ghost predicate ValidConfig(config: Config) {
    config.minRequests > 0 && config.canarySteps != [] && Steps(config.canarySteps)
  }

  // ---- one step ----

  datatype Verdict = Fails(reason: Reason) | TooFew | Passes

  function Judge(config: Config, o: Observation): Verdict {
    var gates := config.gates;
    if !o.stateHealthy || !o.policyHealthy then Fails(Unhealthy)
    else if o.requests < config.minRequests then TooFew
    else if o.p95Regression > gates.maxP95Regression || o.errorDelta > gates.maxErrorDelta ||
            o.fallbackRate > gates.maxFallbackRate || o.sloViolationRate > gates.maxSloViolationRate
    then Fails(QualityGateFailed)
    else if (gates.maxPredictionMae > 0.0 && o.predictionMae > gates.maxPredictionMae) ||
            (gates.maxEvidenceErrorRate > 0.0 && o.evidenceErrorRate > gates.maxEvidenceErrorRate)
    then Fails(Drift)
    else if gates.requireExperimentPromotion && (!o.promotionEligible || !o.integrityHealthy)
    then Fails(PromotionGateFailed)
    else Passes
  }

  function Observed(config: Config, s: State, o: Observation): State {
    if !config.enabled then s.(stage := Static, reason := Disabled)
    else
      match Judge(config, o)
      case Fails(reason) => State(Static, 0, reason, false, "")
      case TooFew => s.(reason := MinimumRequestGate)
      case Passes =>
        if s.stage.Shadow? && config.requireHumanApproval && !s.approved then s.(reason := HumanApprovalRequired)
        else
          match s.stage
          case Static => s.(stage := Shadow, reason := QualityGatesPassed)
          case Shadow => s.(stage := Canary, step := 0, reason := QualityGatesPassed)
          case Canary =>
            if s.step + 1 < |config.canarySteps| then s.(step := s.step + 1, reason := QualityGatesPassed)
            else s.(stage := Enforced, reason := QualityGatesPassed)
          case Enforced => s.(reason := QualityGatesPassed)
  }

  function Approved(config: Config, s: State, approver: string): State {
    if config.requireHumanApproval && s.stage.Shadow? && approver != ""
    then s.(approved := true, approvedBy := approver, reason := HumanApproved) else s
  }

  ghost predicate InRange(config: Config, s: State) {
    s.stage.Canary? ==> s.step < |config.canarySteps|
  }

  function Fraction(config: Config, s: State): real
    requires s.stage.Canary? ==> s.step < |config.canarySteps|
  {
    match s.stage
    case Canary => config.canarySteps[s.step]
    case Enforced => 1.0
    case _ => 0.0
  }

  /** `sample` spreads the request IDs over [0, 1). */
  predicate EnforcesAt(config: Config, s: State, sample: string -> real, id: string)
    requires s.stage.Canary? ==> s.step < |config.canarySteps|
  {
    s.stage.Enforced? || (s.stage.Canary? && sample(id) < Fraction(config, s))
  }

  class Lifecycle {
    const config: Config
    var stage: Stage
    var step: nat
    var lastReason: Reason
    var approved: bool
    var approvedBy: string

    function View(): State
      reads this
    {
      State(stage, step, lastReason, approved, approvedBy)
    }

    ghost predicate Valid()
      reads this
    {
      ValidConfig(config) && InRange(config, View())
    }

    constructor (config: Config)
      requires ValidConfig(config)
      ensures Valid() && this.config == config && View() == Start(config)
    {
      this.config := config;
      stage := if config.enabled then Shadow else Static;
      step, lastReason, approved, approvedBy := 0, Initialized, false, "";
    }

    /** Missing values are filled in; canary steps out of order or range are refused. */
    static method New(config: Config) returns (r: Option<Lifecycle>)
      ensures r.Some? <==> config.canarySteps == [] || Steps(config.canarySteps)
      ensures r.Some? ==> fresh(r.value) && r.value.Valid() && r.value.View() == Start(config)
      ensures r.Some? ==> FilledIn(config, r.value.config)
    {
      var filled := Filled(config);
      var previous := 0.0;
      for k := 0 to |filled.canarySteps|
        invariant Steps(filled.canarySteps[..k])
        invariant previous == if k == 0 then 0.0 else filled.canarySteps[k - 1]
      {
        var step := filled.canarySteps[k];
        if step <= previous || step <= 0.0 || step > 1.0 {
          return None;
        }
        previous := step;
      }
      assert filled.canarySteps[..|filled.canarySteps|] == filled.canarySteps;
      var lifecycle := new Lifecycle(filled);
      r := Some(lifecycle);
    }

    method Approve(approver: string)
      requires Valid()
      modifies this
      ensures Valid() && View() == Approved(config, old(View()), approver)
    {
      if config.requireHumanApproval && stage.Shadow? && approver != "" {
        approved, approvedBy, lastReason := true, approver, HumanApproved;
      }
    }

    method Enforces(sample: string -> real, id: string) returns (r: bool)
      requires Valid()
      ensures r == EnforcesAt(config, View(), sample, id)
    {
      var fraction := 0.0;
      if stage.Canary? {
        fraction := config.canarySteps[step];
      }
      if stage.Enforced? {
        fraction := 1.0;
      }
      r := stage.Enforced? || (stage.Canary? && sample(id) < fraction);
    }

    method Fall(reason: Reason)
      modifies this
      ensures View() == State(Static, 0, reason, false, "")
    {
      stage, step, lastReason, approved, approvedBy := Static, 0, reason, false, "";
    }

    method Observe(o: Observation)
      requires Valid()
      modifies this
      ensures Valid() && View() == Observed(config, old(View()), o)
    {
      if !config.enabled {
        stage, lastReason := Static, Disabled;
        return;
      }
      if !o.stateHealthy || !o.policyHealthy {
        Fall(Unhealthy);
        return;
      }
      if o.requests < config.minRequests {
        lastReason := MinimumRequestGate;
        return;
      }
      var gates := config.gates;
      if o.p95Regression > gates.maxP95Regression || o.errorDelta > gates.maxErrorDelta ||
         o.fallbackRate > gates.maxFallbackRate || o.sloViolationRate > gates.maxSloViolationRate {
        Fall(QualityGateFailed);
        return;
      }
      if (gates.maxPredictionMae > 0.0 && o.predictionMae > gates.maxPredictionMae) ||
         (gates.maxEvidenceErrorRate > 0.0 && o.evidenceErrorRate > gates.maxEvidenceErrorRate) {
        Fall(Drift);
        return;
      }
      if gates.requireExperimentPromotion && (!o.promotionEligible || !o.integrityHealthy) {
        Fall(PromotionGateFailed);
        return;
      }
      if stage.Shadow? && config.requireHumanApproval && !approved {
        lastReason := HumanApprovalRequired;
        return;
      }
      match stage {
        case Static => stage := Shadow;
        case Shadow => stage, step := Canary, 0;
        case Canary =>
          if step + 1 < |config.canarySteps| {
            step := step + 1;
          } else {
            stage := Enforced;
          }
        case Enforced =>
      }
      lastReason := QualityGatesPassed;
    }
  }

  function Filled(config: Config): Config {
    config.(minRequests := if config.minRequests <= 0 then 100 else config.minRequests,
            canarySteps := if config.canarySteps == [] then [0.05, 0.25, 0.5, 1.0] else config.canarySteps)
  }

  /** At least one request is asked for, by default a hundred, and no steps mean these four. */
  ghost predicate FilledIn(given: Config, filled: Config) {
    && filled == given.(minRequests := filled.minRequests, canarySteps := filled.canarySteps)
    && filled.minRequests == (if given.minRequests >= 1 then given.minRequests else 100)
    && (given.canarySteps != [] ==> filled.canarySteps == given.canarySteps)
    && (given.canarySteps == [] ==> filled.canarySteps == [0.05, 0.25, 0.50, 1.0])
  }

  // ---- when an observation makes the rollout fall, stay or climb ----

  ghost predicate Healthy(o: Observation) {
    o.stateHealthy && o.policyHealthy
  }

  ghost predicate QualityKept(gates: Gates, o: Observation) {
    o.p95Regression <= gates.maxP95Regression && o.errorDelta <= gates.maxErrorDelta &&
    o.fallbackRate <= gates.maxFallbackRate && o.sloViolationRate <= gates.maxSloViolationRate
  }

  /** The limits of the predictions count only where they are positive. */
  ghost predicate PredictionsKept(gates: Gates, o: Observation) {
    (gates.maxPredictionMae > 0.0 ==> o.predictionMae <= gates.maxPredictionMae) &&
    (gates.maxEvidenceErrorRate > 0.0 ==> o.evidenceErrorRate <= gates.maxEvidenceErrorRate)
  }

  ghost predicate PromotionKept(gates: Gates, o: Observation) {
    gates.requireExperimentPromotion ==> o.promotionEligible && o.integrityHealthy
  }

  ghost predicate Flawless(config: Config, o: Observation) {
    QualityKept(config.gates, o) && PredictionsKept(config.gates, o) && PromotionKept(config.gates, o)
  }

  /** Unhealthy, or measured on enough requests and not flawless. */
  ghost predicate Damning(config: Config, o: Observation) {
    !Healthy(o) || (o.requests >= config.minRequests && !Flawless(config, o))
  }

  ghost predicate WhyItFell(config: Config, o: Observation, reason: Reason) {
    if !Healthy(o) then reason == Unhealthy
    else if !QualityKept(config.gates, o) then reason == QualityGateFailed
    else if !PredictionsKept(config.gates, o) then reason == Drift
    else reason == PromotionGateFailed
  }

  /** In shadow, still waiting for a human. */
  ghost predicate Waiting(config: Config, s: State) {
    s.stage.Shadow? && config.requireHumanApproval && !s.approved
  }

  lemma JudgeIs(config: Config, o: Observation)
    ensures match Judge(config, o)
            case Fails(reason) => Damning(config, o) && WhyItFell(config, o, reason)
            case TooFew => !Damning(config, o) && o.requests < config.minRequests
            case Passes => !Damning(config, o) && o.requests >= config.minRequests
  {
  }

  /**
   A damning observation throws the rollout back to static and voids the
   approval; one on too few requests, or while a human is waited for, moves
   nothing; any other takes it up one rung, until it is enforced.
   */
  lemma ObservationMoves(config: Config, s: State, o: Observation)
    requires ValidConfig(config) && config.enabled && InRange(config, s)
    ensures var t := Observed(config, s, o);
            if Damning(config, o) then
              t.stage == Static && !t.approved && t.approvedBy == "" && WhyItFell(config, o, t.reason)
            else if o.requests < config.minRequests then t == s.(reason := MinimumRequestGate)
            else if Waiting(config, s) then t == s.(reason := HumanApprovalRequired)
            else
              t.reason == QualityGatesPassed && t.approved == s.approved && t.approvedBy == s.approvedBy && InRange(config, t) &&
              (if s.stage.Enforced? then t.stage.Enforced? else OneRungUp(config, s, t))
  {
    JudgeIs(config, o);
  }

  ghost predicate OneRungUp(config: Config, s: State, t: State) {
    match s.stage
    case Static => t.stage.Shadow?
    case Shadow => t.stage.Canary? && t.step == 0
    case Canary => if s.step == |config.canarySteps| - 1 then t.stage.Enforced? else t.stage.Canary? && t.step == s.step + 1
    case Enforced => false
  }

  /** At least as good in every measure. */
  ghost predicate NoWorse(better: Observation, o: Observation) {
    && better.requests >= o.requests
    && better.p95Regression <= o.p95Regression && better.errorDelta <= o.errorDelta
    && better.fallbackRate <= o.fallbackRate && better.sloViolationRate <= o.sloViolationRate
    && better.predictionMae <= o.predictionMae && better.evidenceErrorRate <= o.evidenceErrorRate
    && (o.stateHealthy ==> better.stateHealthy) && (o.policyHealthy ==> better.policyHealthy)
    && (o.promotionEligible ==> better.promotionEligible) && (o.integrityHealthy ==> better.integrityHealthy)
  }

  /** Doing no worse in any measure never turns a pass into anything else. */
  lemma NoWorsePasses(config: Config, o: Observation, better: Observation)
    requires NoWorse(better, o) && Judge(config, o).Passes?
    ensures Judge(config, better).Passes?
  {
  }

  /** Who is enforced: everyone at the end, at a canary step those whose sample is below its fraction, before that no one. */
  lemma EnforcedByStage(config: Config, s: State, sample: string -> real, id: string)
    requires InRange(config, s)
    ensures match s.stage
            case Static => !EnforcesAt(config, s, sample, id)
            case Shadow => !EnforcesAt(config, s, sample, id)
            case Canary => EnforcesAt(config, s, sample, id) <==> sample(id) < config.canarySteps[s.step]
            case Enforced => EnforcesAt(config, s, sample, id)
    ensures s.stage in {Static, Shadow} ==> Fraction(config, s) == 0.0
    ensures s.stage == Canary ==> Fraction(config, s) == config.canarySteps[s.step]
    ensures s.stage == Enforced ==> Fraction(config, s) == 1.0
  {
  }

  /** Only a named human's approval counts, and only while one is waited for in shadow. */
  lemma ApprovalCounts(config: Config, s: State, approver: string)
    ensures var t := Approved(config, s, approver);
            if s.stage == Shadow && config.requireHumanApproval && |approver| > 0
            then t == State(Shadow, s.step, HumanApproved, true, approver) else t == s
  {
  }

  // ---- runs ----

  datatype Op = Approve(approver: string) | Observe(observation: Observation)

  function Start(config: Config): State {
    State(if config.enabled then Shadow else Static, 0, Initialized, false, "")
  }

  function Next(config: Config, s: State, op: Op): State {
    match op
    case Approve(approver) => Approved(config, s, approver)
    case Observe(o) => Observed(config, s, o)
  }

  function After(config: Config, ops: seq<Op>): State {
    if ops == [] then Start(config) else Next(config, After(config, ops[..|ops| - 1]), ops[|ops| - 1])
  }

  lemma {:induction false} StepInRange(config: Config, ops: seq<Op>)
    requires ValidConfig(config)
    ensures InRange(config, After(config, ops))
  {
    if ops != [] {
      StepInRange(config, ops[..|ops| - 1]);
    }
  }

  /** Operation `i` approved, in shadow, and the lifecycle was never static from then to `n`. */
  ghost predicate ApprovedAt(config: Config, ops: seq<Op>, i: nat, n: nat) {
    && i < n <= |ops| && ops[i].Approve? && ops[i].approver != "" && After(config, ops[..i]).stage.Shadow?
    && forall j :: i < j <= n ==> !After(config, ops[..j]).stage.Static?
  }

  lemma ApprovedAtSnoc(config: Config, ops: seq<Op>, i: nat, n: nat)
    requires 0 < n <= |ops| && i < n
    ensures ApprovedAt(config, ops, i, n) <==>
            !After(config, ops[..n]).stage.Static? &&
            if i < n - 1 then ApprovedAt(config, ops, i, n - 1)
            else ops[i].Approve? && ops[i].approver != "" && After(config, ops[..i]).stage.Shadow?
  {
    hide After;
  }

  lemma ApprovalStep(config: Config, s: State, op: Op)
    requires config.enabled && config.requireHumanApproval && (s.approved ==> !s.stage.Static?)
    ensures var t := Next(config, s, op);
            t.approved <==>
            !t.stage.Static? && (s.approved || (op.Approve? && op.approver != "" && s.stage.Shadow?))
  {
    hide Judge;
  }

  /** The approval on record is a human's, given in shadow since the last fall to static. */
  lemma {:induction false} ApprovalIff(config: Config, ops: seq<Op>, n: nat)
    requires config.enabled && config.requireHumanApproval && n <= |ops|
    ensures After(config, ops[..n]).approved <==> exists i :: ApprovedAt(config, ops, i, n)
  {
    hide ApprovedAt;
    hide Next;
    if n == 0 {
      NotApprovedYet(config, ops);
    } else {
      var before, op := After(config, ops[..n - 1]), ops[n - 1];
      assert ops[..n][..n - 1] == ops[..n - 1];
      assert After(config, ops[..n]) == Next(config, before, op);
      hide After;
      ApprovalIff(config, ops, n - 1);
      NotStaticAfter(config, ops, n - 1);
      ApprovalStep(config, before, op);
      forall i: nat | i < n
        ensures ApprovedAt(config, ops, i, n) <==>
                !After(config, ops[..n]).stage.Static? &&
                if i < n - 1 then ApprovedAt(config, ops, i, n - 1)
                else op.Approve? && op.approver != "" && before.stage.Shadow?
      {
        ApprovedAtSnoc(config, ops, i, n);
      }
      if i: nat :| ApprovedAt(config, ops, i, n) {
        ApprovedBefore(config, ops, i, n);
      }
      var m := n - 1;
      if i: nat :| ApprovedAt(config, ops, i, m) {
        ApprovedBefore(config, ops, i, m);
        ApprovedAtSnoc(config, ops, i, n);
      }
      if op.Approve? && op.approver != "" && before.stage.Shadow? {
        ApprovedAtSnoc(config, ops, m, n);
      }
    }
  }

  lemma ApprovedBefore(config: Config, ops: seq<Op>, i: nat, n: nat)
    requires ApprovedAt(config, ops, i, n)
    ensures i < n
  {
  }

  lemma NotApprovedYet(config: Config, ops: seq<Op>)
    ensures forall i :: !ApprovedAt(config, ops, i, 0)
    ensures !After(config, ops[..0]).approved
  {
  }

  /** An approved lifecycle is not static. */
  lemma {:induction false} NotStaticAfter(config: Config, ops: seq<Op>, n: nat)
    requires config.enabled && n <= |ops|
    ensures After(config, ops[..n]).approved ==> !After(config, ops[..n]).stage.Static?
  {
    if n > 0 {
      assert ops[..n][..n - 1] == ops[..n - 1];
      NotStaticAfter(config, ops, n - 1);
    }
  }

  /** No request is enforced without an approval since the last fall. */
  lemma {:induction false} EnforcedNeedsApproval(config: Config, ops: seq<Op>)
    requires config.requireHumanApproval
    requires After(config, ops).stage.Canary? || After(config, ops).stage.Enforced?
    ensures config.enabled && exists i :: ApprovedAt(config, ops, i, |ops|)
  {
    CanaryIsApproved(config, ops);
    assert ops[..|ops|] == ops;
    ApprovalIff(config, ops, |ops|);
  }

  lemma {:induction false} CanaryIsApproved(config: Config, ops: seq<Op>)
    ensures !config.enabled ==> After(config, ops).stage.Static?
    ensures After(config, ops).stage.Canary? || After(config, ops).stage.Enforced? ==>
              config.requireHumanApproval ==> After(config, ops).approved
  {
    if ops != [] {
      CanaryIsApproved(config, ops[..|ops| - 1]);
    }
  }

  // ---- how high the rollout has climbed ----

  function Rank(config: Config, s: State): nat {
    match s.stage
    case Static => 0
    case Shadow => 1
    case Canary => 2 + s.step
    case Enforced => 2 + |config.canarySteps|
  }

  /** Passing observations since the last failing one; an enabled lifecycle starts one up. */
  function PassesSinceFall(config: Config, ops: seq<Op>): nat {
    if ops == [] then if config.enabled then 1 else 0
    else
      var before := PassesSinceFall(config, ops[..|ops| - 1]);
      match ops[|ops| - 1]
      case Approve(_) => before
      case Observe(o) =>
        match Judge(config, o)
        case Fails(_) => 0
        case TooFew => before
        case Passes => before + 1
  }

  /** Each rung of the rollout takes one passing observation, and a failing one starts over. */
  lemma {:induction false} RankNeedsPasses(config: Config, ops: seq<Op>)
    requires ValidConfig(config)
    ensures Rank(config, After(config, ops)) <= PassesSinceFall(config, ops)
  {
    if ops != [] {
      RankNeedsPasses(config, ops[..|ops| - 1]);
      StepInRange(config, ops[..|ops| - 1]);
      CanaryIsApproved(config, ops);
    }
  }

  /** From a static state to an enforced one it takes a passing observation for every canary step and two more. */
  lemma EnforcedNeedsPasses(config: Config, ops: seq<Op>)
    requires ValidConfig(config) && After(config, ops).stage.Enforced?
    ensures PassesSinceFall(config, ops) >= |config.canarySteps| + 2
  {
    RankNeedsPasses(config, ops);
  }

  /** Without the wait for an approval the climb is exactly as fast as that. */
  lemma {:induction false} RankIsPasses(config: Config, ops: seq<Op>)
    requires ValidConfig(config) && config.enabled && !config.requireHumanApproval
    ensures var top := |config.canarySteps| + 2;
            var passes := PassesSinceFall(config, ops);
            Rank(config, After(config, ops)) == if passes < top then passes else top
  {
    if ops != [] {
      RankIsPasses(config, ops[..|ops| - 1]);
      StepInRange(config, ops[..|ops| - 1]);
    }
  }

  // ---- who is enforced ----

  lemma {:induction false} RankNeverDrops(config: Config, ops: seq<Op>, i: nat, n: nat)
    requires ValidConfig(config) && i <= n <= |ops|
    requires forall j :: i < j <= n ==> !After(config, ops[..j]).stage.Static?
    ensures Rank(config, After(config, ops[..i])) <= Rank(config, After(config, ops[..n]))
  {
    if i < n {
      RankNeverDrops(config, ops, i, n - 1);
      assert ops[..n][..n - 1] == ops[..n - 1];
      StepInRange(config, ops[..n - 1]);
    }
  }

  /** A request once enforced stays enforced until the rollout falls to static. */
  lemma EnforcedSetGrows(config: Config, ops: seq<Op>, i: nat, n: nat, sample: string -> real, id: string)
    requires ValidConfig(config) && i <= n <= |ops|
    requires forall j :: i < j <= n ==> !After(config, ops[..j]).stage.Static?
    ensures InRange(config, After(config, ops[..i])) && InRange(config, After(config, ops[..n]))
    ensures EnforcesAt(config, After(config, ops[..i]), sample, id) ==>
            EnforcesAt(config, After(config, ops[..n]), sample, id)
  {
    StepInRange(config, ops[..i]);
    StepInRange(config, ops[..n]);
    RankNeverDrops(config, ops, i, n);
  }
}
