/**
 The routing decision: hard constraints, confidence-weighted scores, the queue
 veto of policy kv-v2, and the choice of the best candidate.
 */
module RoutingPlan {
  import opened Common
  import opened StringOrder
  import opened KvEventIndex
  import opened BackendRegistry
  import Lifecycle = RolloutLifecycle
  import Experiment

  datatype Mode = Static | LoadAware | Shadow | Enforced

  datatype Signal = Signal(value: real, hasValue: bool, quality: Quality)

  datatype Snapshot = Snapshot(observedAt: int, signals: map<string, Signal>)

  datatype Predictor = Predictor(
    model: string, gpuType: string, engine: string, engineVersion: string, baseMs: real, promptTokenMs: real,
    cachedTokenMs: real, queuePenaltyMs: real, pressurePenalty: real, sloScaleMs: real, useObservedRate: bool)

  const HEURISTIC := Predictor("", "", "", "", 12.0, 0.08, 0.07, 8.0, 45.0, 25.0, true)

  datatype Request = Request(
    id: string, tenant: string, model: string, cacheKey: string, promptTokens: int,
    requirements: map<string, string>, sloMs: real)

  /** `decay` is exp(-lambda age), `logistic` is 1 / (1 + exp(-x)), `sample` a hash over [0, 1]. */
  datatype Curves = Curves(decay: int -> real, logistic: real -> real, sample: (string, string) -> real)

  datatype Setting = Setting(
    mode: Mode, maxStateAge: int, states: map<string, Snapshot>, evidence: string -> Evidence, predictor: Predictor,
    lifecycle: Option<(Lifecycle.Stage, bool)>, experiment: Option<Experiment.Controller>, now: int, curves: Curves)

  // ---- which mode applies ----

  datatype Resolved = Resolved(mode: Mode, enforced: bool, policy: string, pool: seq<string>)

  predicate Steers(mode: Mode) {
    mode.Enforced? || mode.LoadAware?
  }

  /** The lifecycle overrides the configured mode, and an experiment's policy overrides both. */
  function Resolve(s: Setting, requestId: string): Resolved
    requires s.experiment.Some? ==> Experiment.Sound(s.experiment.value)
  {
    var mode :=
      if s.lifecycle.None? then s.mode
      else if s.lifecycle.value.0.Static? then Static
      else if s.lifecycle.value.0.Shadow? then Shadow
      else Enforced;
    var enforced := if s.lifecycle.None? then Steers(s.mode) else s.lifecycle.value.1;
    if s.experiment.None? then Resolved(mode, enforced, "", [])
    else
      var a := if s.lifecycle.Some? && !enforced then Experiment.Inactive(s.experiment.value)
               else Experiment.Assign(s.experiment.value, s.curves.sample, requestId, s.now);
      var effective :=
        if a.policy == "static" then Static
        else if a.policy == "load-aware" then LoadAware
        else if a.policy == "kv-v1" || a.policy == "kv-v2" then Enforced
        else mode;
      Resolved(effective, Steers(effective) && (s.lifecycle.None? || enforced), a.policy, a.pool)
  }

  // ---- one candidate ----

  datatype Reason = Scored | HardConstraintMismatch | QueuePenaltyExceedsCacheBenefit

  datatype Candidate = Candidate(
    id: string, eligible: bool, evidence: Evidence, stateConfidence: real, queue: real, pressure: real, rate: real,
    penaltyMs: real, predictedMs: real, violation: real, score: real, reason: Reason)

  function Value(s: Snapshot, name: string): Option<real> {
    if name in s.signals && s.signals[name].hasValue && !s.signals[name].quality.Missing? && !s.signals[name].quality.Invalid?
    then Some(s.signals[name].value) else None
  }

  function SignalValue(s: Snapshot, name: string): real {
    match Value(s, name)
    case Some(value) => if s.signals[name].quality.Fresh? then value else 0.0
    case None => 0.0
  }

  function Attribute(attributes: map<string, string>, key: string): string {
    if key in attributes then attributes[key] else ""
  }

  /** An absent attribute counts as empty. */
  ghost predicate Meets(requirements: map<string, string>, attributes: map<string, string>) {
    forall key :: key in requirements ==> Attribute(attributes, key) == requirements[key]
  }

  /** An empty pool is no restriction. */
  predicate InPool(pool: seq<string>, id: string) {
    pool == [] || id in pool
  }

  predicate Matches(p: Predictor, model: string, attributes: map<string, string>) {
    (p.model == "" || p.model == model) && (p.gpuType == "" || p.gpuType == Attribute(attributes, "gpu_type")) &&
    (p.engine == "" || p.engine == Attribute(attributes, "engine")) &&
    (p.engineVersion == "" || p.engineVersion == Attribute(attributes, "engine_version"))
  }

  function Predict(p: Predictor, promptTokens: int, matched: int, queue: real, pressure: real, rate: real): real {
    var uncached := AtLeastZero(promptTokens - matched) as real;
    Max(0.0, p.baseMs + PrefillMs(p, uncached, rate) + matched as real * p.cachedTokenMs + queue * p.queuePenaltyMs + pressure * p.pressurePenalty)
  }

  function PrefillMs(p: Predictor, uncached: real, rate: real): real {
    if p.useObservedRate && rate > 0.0 then uncached / rate * 1000.0 else uncached * p.promptTokenMs
  }

  function Violation(p: Predictor, logistic: real -> real, predicted: real, slo: real): real {
    if slo <= 0.0 then 0.0
    else
      var scale := if p.sloScaleMs <= 0.0 then 25.0 else p.sloScaleMs;
      logistic((predicted - slo) / scale)
  }

  function StateConfidence(s: Setting, state: Snapshot): real {
    var age := AtLeastZero(s.now - state.observedAt);
    if state.observedAt > 0 && (s.maxStateAge <= 0 || age <= s.maxStateAge) then Clamp01(s.curves.decay(age)) else 0.0
  }

  function Score(confidence: real, ratio: real, queue: real, pressure: real, violation: real): real {
    Discounted(confidence, Worth(ratio, queue, pressure, violation))
  }

  function Worth(ratio: real, queue: real, pressure: real, violation: real): real {
    ratio * 100.0 - queue * 8.0 - pressure * 35.0 - violation * 60.0
  }

  function Discounted(confidence: real, worth: real): real {
    confidence * worth
  }

  function Excluded(id: string): Candidate {
    Candidate(id, false, MISSING, 0.0, 0.0, 0.0, 0.0, 0.0, 0.0, 0.0, 0.0, HardConstraintMismatch)
  }

  function StateOf(s: Setting, id: string): Snapshot {
    if id in s.states then s.states[id] else Snapshot(0, map[])
  }

  function Rate(state: Snapshot): real {
    var recent := SignalValue(state, "recent_prefill_tokens_per_second");
    if recent == 0.0 then SignalValue(state, "prefill_tokens_per_second") else recent
  }

  /** A missing pressure is read off the free share, fresh or not. */
  function Pressure(state: Snapshot): real {
    var pressure := SignalValue(state, "kv_pressure");
    match Value(state, "cold_free_perc")
    case Some(free) => if pressure == 0.0 then 1.0 - Clamp01(free) else pressure
    case None => pressure
  }

  function ScoredCandidate(s: Setting, mode: Mode, request: Request, backend: Backend): Candidate {
    var state := StateOf(s, backend.id);
    var evidence := s.evidence(backend.id);
    var queue, pressure, rate := SignalValue(state, "queue_depth"), Pressure(state), Rate(state);
    var p := if Matches(s.predictor, request.model, backend.attributes) then s.predictor else HEURISTIC;
    var predicted := Predict(p, request.promptTokens, evidence.matchedTokens, queue, pressure, rate);
    var violation := Violation(p, s.curves.logistic, predicted, request.sloMs);
    var confidence := if mode.LoadAware? then Max(StateConfidence(s, state), 0.01) else evidence.confidence;
    Candidate(backend.id, true, evidence, StateConfidence(s, state), queue, pressure, rate, p.queuePenaltyMs, predicted,
              violation, Score(confidence, evidence.matchRatio, queue, pressure, violation), Scored)
  }

  ghost function CandidateOf(s: Setting, r: Resolved, request: Request, backend: Backend): Candidate {
    if InPool(r.pool, backend.id) && Meets(request.requirements, backend.attributes)
    then ScoredCandidate(s, r.mode, request, backend) else Excluded(backend.id)
  }

  // ---- the queue veto ----

  const VETO := 1_000_000.0

  /** The shortest queue among the eligible; nothing if there is none. */
  function LeastQueue(candidates: seq<Candidate>): Option<real> {
    if candidates == [] then None
    else
      var c := candidates[|candidates| - 1];
      match LeastQueue(candidates[..|candidates| - 1])
      case None => if c.eligible then Some(c.queue) else None
      case Some(q) => if c.eligible && c.queue < q then Some(c.queue) else Some(q)
  }

  /** Waiting longer than at the shortest queue costs more than the cached tokens save. */
  predicate Outweighed(c: Candidate, least: real) {
    var rate := if c.rate <= 0.0 then 8000.0 else c.rate;
    c.eligible && c.evidence.matchedTokens > 0 && c.queue > least &&
    (c.queue - least) * c.penaltyMs > c.evidence.matchedTokens as real / rate * 1000.0
  }

  function Vetoed(c: Candidate, least: real): Candidate {
    if Outweighed(c, least) then c.(score := c.score - VETO, reason := QueuePenaltyExceedsCacheBenefit) else c
  }

  function AfterVeto(candidates: seq<Candidate>): seq<Candidate> {
    match LeastQueue(candidates)
    case None => candidates
    case Some(least) =>
      seq(|candidates|, i requires 0 <= i < |candidates| => Vetoed(candidates[i], least))
  }

  // ---- the order of candidates ----

  /** Eligible first, then the higher score, then the smaller ID. */
  predicate Ahead(a: Candidate, b: Candidate) {
    if a.eligible != b.eligible then a.eligible
    else if a.score == b.score then Below(a.id, b.id)
    else a.score > b.score
  }

  function Insert(c: Candidate, sorted: seq<Candidate>): seq<Candidate> {
    if sorted == [] || Ahead(c, sorted[0]) then [c] + sorted else [sorted[0]] + Insert(c, sorted[1..])
  }

  function Ranked(candidates: seq<Candidate>): seq<Candidate> {
    if candidates == [] then []
    else Insert(candidates[|candidates| - 1], Ranked(candidates[..|candidates| - 1]))
  }

  ghost predicate InRank(candidates: seq<Candidate>) {
    forall i, j :: 0 <= i < j < |candidates| ==> !Ahead(candidates[j], candidates[i])
  }

  lemma AheadChains(a: Candidate, b: Candidate, c: Candidate)
    requires !Ahead(b, a) && !Ahead(c, b)
    ensures !Ahead(c, a)
  {
    if Ahead(c, a) {
      BelowTotal(a.id, b.id);
      BelowTotal(b.id, c.id);
      BelowTotal(a.id, c.id);
      if Below(c.id, a.id) && Below(a.id, b.id) {
        BelowChains(c.id, a.id, b.id);
      }
      if Below(b.id, c.id) && Below(c.id, a.id) {
        BelowChains(b.id, c.id, a.id);
      }
    }
  }

  lemma AheadOneWay(a: Candidate, b: Candidate)
    requires Ahead(a, b)
    ensures !Ahead(b, a)
  {
    if Below(a.id, b.id) && Below(b.id, a.id) {
      BelowChains(a.id, b.id, a.id);
      NotBelowItself(a.id);
    }
  }

  lemma {:induction false} InsertKeeps(c: Candidate, sorted: seq<Candidate>)
    ensures multiset(Insert(c, sorted)) == multiset(sorted) + multiset{c}
    ensures forall d :: d in Insert(c, sorted) ==> d == c || d in sorted
  {
    hide Ahead;
    if sorted != [] && !Ahead(c, sorted[0]) {
      InsertKeeps(c, sorted[1..]);
      assert sorted == [sorted[0]] + sorted[1..];
      assert Insert(c, sorted) == [sorted[0]] + Insert(c, sorted[1..]);
    }
  }

  lemma {:induction false} InsertRanks(c: Candidate, sorted: seq<Candidate>)
    requires InRank(sorted)
    ensures InRank(Insert(c, sorted))
  {
    hide Ahead;
    if sorted == [] {
    } else if Ahead(c, sorted[0]) {
      forall j | 0 <= j < |sorted| ensures !Ahead(sorted[j], c) {
        AheadOneWay(c, sorted[0]);
        if j > 0 {
          AheadChains(c, sorted[0], sorted[j]);
        }
      }
    } else {
      InsertRanks(c, sorted[1..]);
      InsertKeeps(c, sorted[1..]);
      var rest := Insert(c, sorted[1..]);
      forall j | 0 <= j < |rest| ensures !Ahead(rest[j], sorted[0]) {
        if rest[j] != c {
          assert rest[j] in rest;
          var k :| 0 <= k < |sorted[1..]| && sorted[1..][k] == rest[j];
          assert !Ahead(sorted[k + 1], sorted[0]);
        }
      }
    }
  }

  /** The ranking keeps every candidate and puts none behind one it is ahead of. */
  lemma {:induction false} RankedIs(candidates: seq<Candidate>)
    ensures InRank(Ranked(candidates)) && multiset(Ranked(candidates)) == multiset(candidates)
    ensures |Ranked(candidates)| == |candidates| && forall c :: c in Ranked(candidates) <==> c in candidates
  {
    hide InRank;
    if candidates == [] {
      NothingInRank();
    } else {
      var n := |candidates| - 1;
      RankedIs(candidates[..n]);
      InsertRanks(candidates[n], Ranked(candidates[..n]));
      InsertKeeps(candidates[n], Ranked(candidates[..n]));
      TakeDrop(candidates, n);
      assert candidates == candidates[..n] + [candidates[n]];
    }
    assert |multiset(Ranked(candidates))| == |multiset(candidates)|;
    forall c ensures c in Ranked(candidates) <==> c in candidates {
      assert c in multiset(Ranked(candidates)) <==> c in multiset(candidates);
    }
  }

  lemma NothingInRank()
    ensures InRank([])
  {
  }

  // ---- the choice ----

  datatype Outcome =
    | NoUsableBackendState | StaticRoundRobin | NoUsableQueueState | NoConfidentCacheEvidence
    | HighestScore | NoEligibleBackend

  datatype Decision = Decision(
    mode: Mode, enforced: bool, selected: Option<string>, fallback: bool, outcome: Outcome, candidates: seq<Candidate>)

  predicate Confident(mode: Mode, c: Candidate) {
    if mode.LoadAware? then c.stateConfidence > 0.0 else c.evidence.confidence > 0.0
  }

  function Chosen(mode: Mode, enforced: bool, ranked: seq<Candidate>): Decision {
    if ranked == [] || !ranked[0].eligible then Decision(mode, enforced, None, true, NoEligibleBackend, ranked)
    else if mode.Static? then Decision(mode, enforced, None, false, StaticRoundRobin, ranked)
    else if !Confident(mode, ranked[0]) then
      Decision(mode, enforced, None, true, if mode.LoadAware? then NoUsableQueueState else NoConfidentCacheEvidence, ranked)
    else Decision(mode, enforced, Some(ranked[0].id), false, HighestScore, ranked)
  }

  ghost function AllCandidates(s: Setting, r: Resolved, request: Request, backends: seq<Backend>): seq<Candidate> {
    seq(|backends|, i requires 0 <= i < |backends| => CandidateOf(s, r, request, backends[i]))
  }

  ghost function Judged(s: Setting, r: Resolved, request: Request, backends: seq<Backend>): seq<Candidate> {
    var all := AllCandidates(s, r, request, backends);
    if r.policy == "kv-v2" then AfterVeto(all) else all
  }

  ghost function PlanOf(s: Setting, request: Request, backends: seq<Backend>): Decision
    requires s.experiment.Some? ==> Experiment.Sound(s.experiment.value)
  {
    var r := Resolve(s, request.id);
    Chosen(r.mode, r.enforced, Ranked(Judged(s, r, request, backends)))
  }

  method MeetsAll(requirements: map<string, string>, attributes: map<string, string>) returns (ok: bool)
    ensures ok == Meets(requirements, attributes)
  {
    ok := true;
    var keys := requirements.Keys;
    while keys != {}
      invariant keys <= requirements.Keys
      invariant ok == forall key :: key in requirements && key !in keys ==> Attribute(attributes, key) == requirements[key]
      decreases keys
    {
      var key :| key in keys;
      if Attribute(attributes, key) != requirements[key] {
        ok := false;
      }
      keys := keys - {key};
    }
  }

  method ApplyQueueVeto(candidates: array<Candidate>)
    modifies candidates
    ensures candidates[..] == AfterVeto(old(candidates[..]))
  {
    hide Outweighed;
    ghost var before := candidates[..];
    var least: Option<real> := None;
    for k := 0 to candidates.Length
      invariant candidates[..] == before && least == LeastQueue(before[..k])
    {
      assert before[..k + 1][..k] == before[..k];
      var c := candidates[k];
      if c.eligible && (least.None? || c.queue < least.value) {
        least := Some(c.queue);
      }
    }
    assert before[..|before|] == before;
    if least.None? {
      return;
    }
    for k := 0 to candidates.Length
      invariant forall i :: 0 <= i < k ==> candidates[i] == Vetoed(before[i], least.value)
      invariant forall i :: k <= i < candidates.Length ==> candidates[i] == before[i]
    {
      if Outweighed(candidates[k], least.value) {
        candidates[k] := candidates[k].(score := candidates[k].score - VETO, reason := QueuePenaltyExceedsCacheBenefit);
      }
    }
  }

  /** Stands for the library's sort. */
  method SortCandidates(candidates: array<Candidate>)
    modifies candidates
    ensures candidates[..] == Ranked(old(candidates[..]))
  {
    hide Insert;
    ghost var before := candidates[..];
    var sorted: seq<Candidate> := [];
    for k := 0 to candidates.Length
      invariant candidates[..] == before && sorted == Ranked(before[..k]) && |sorted| == k
    {
      assert before[..k + 1][..k] == before[..k];
      sorted := Insert(candidates[k], sorted);
      RankedIs(before[..k + 1]);
    }
    assert before[..|before|] == before;
    for k := 0 to candidates.Length
      invariant candidates[..k] == sorted[..k]
    {
      candidates[k] := sorted[k];
    }
    assert candidates[..] == candidates[..candidates.Length] && sorted == sorted[..|sorted|];
  }

  /** The first eligible candidate decides. */
  method Choose(mode: Mode, enforced: bool, ranked: seq<Candidate>) returns (decision: Decision)
    requires InRank(ranked)
    ensures decision == Chosen(mode, enforced, ranked)
  {
    decision := Decision(mode, enforced, None, true, NoUsableBackendState, ranked);
    var found := false;
    for k := 0 to |ranked|
      invariant !found && decision == Decision(mode, enforced, None, true, NoUsableBackendState, ranked)
      invariant forall i :: 0 <= i < k ==> !ranked[i].eligible
    {
      if !ranked[k].eligible {
        continue;
      }
      assert k > 0 ==> Ahead(ranked[k], ranked[0]);
      found := true;
      if mode.Static? {
        decision := decision.(outcome := StaticRoundRobin, fallback := false);
      } else if mode.LoadAware? && ranked[k].stateConfidence <= 0.0 {
        decision := decision.(outcome := NoUsableQueueState);
      } else if !mode.LoadAware? && ranked[k].evidence.confidence <= 0.0 {
        decision := decision.(outcome := NoConfidentCacheEvidence);
      } else {
        decision := decision.(selected := Some(ranked[k].id), fallback := false, outcome := HighestScore);
      }
      break;
    }
    if !found {
      decision := decision.(outcome := NoEligibleBackend);
    }
  }

  method Plan(s: Setting, request: Request, backends: seq<Backend>) returns (decision: Decision)
    requires s.experiment.Some? ==> Experiment.Sound(s.experiment.value)
    ensures decision == PlanOf(s, request, backends)
  {
    hide Resolve;
    hide ScoredCandidate;
    hide Ranked;
    hide InRank;
    hide AfterVeto;
    hide Chosen;
    var r := Resolve(s, request.id);
    var built := BuildCandidates(s, r, request, backends);
    var candidates := new Candidate[|built|](i requires 0 <= i < |built| => built[i]);
    assert candidates[..] == built;
    if r.policy == "kv-v2" {
      ApplyQueueVeto(candidates);
    }
    RankedIs(candidates[..]);
    SortCandidates(candidates);
    decision := Choose(r.mode, r.enforced, candidates[..]);
  }

  method BuildCandidates(s: Setting, r: Resolved, request: Request, backends: seq<Backend>)
    returns (built: seq<Candidate>)
    ensures built == AllCandidates(s, r, request, backends)
  {
    hide ScoredCandidate;
    hide Meets;
    built := [];
    for k := 0 to |backends|
      invariant built == AllCandidates(s, r, request, backends)[..k]
    {
      var backend := backends[k];
      var meets := MeetsAll(request.requirements, backend.attributes);
      if (r.pool != [] && backend.id !in r.pool) || !meets {
        built := built + [Excluded(backend.id)];
      } else {
        built := built + [ScoredCandidate(s, r.mode, request, backend)];
      }
    }
  }

  // ---- placement is safe ----

  /** Nothing eligible has a higher score, nor the same score and a smaller ID. */
  ghost predicate Best(candidates: seq<Candidate>, c: Candidate) {
    c in candidates && c.eligible &&
    forall d :: d in candidates && d.eligible ==> d.score < c.score || (d.score == c.score && AtMost(c.id, d.id))
  }

  lemma HeadIsBest(candidates: seq<Candidate>)
    requires candidates != [] && InRank(candidates) && candidates[0].eligible
    ensures Best(candidates, candidates[0])
  {
    var c := candidates[0];
    forall d | d in candidates && d.eligible ensures d.score < c.score || (d.score == c.score && AtMost(c.id, d.id)) {
      var j :| 0 <= j < |candidates| && candidates[j] == d;
      BelowTotal(c.id, d.id);
      if j > 0 {
        assert !Ahead(candidates[j], candidates[0]);
      }
    }
  }

  /** The candidate of backend `b` in a plan, before the ranking. */
  ghost predicate Describes(s: Setting, r: Resolved, request: Request, b: Backend, c: Candidate) {
    c.id == b.id && (c.eligible <==> InPool(r.pool, b.id) && Meets(request.requirements, b.attributes))
  }

  lemma JudgedAt(s: Setting, r: Resolved, request: Request, backends: seq<Backend>, i: nat)
    requires i < |backends|
    ensures var judged := Judged(s, r, request, backends);
            |judged| == |backends| && Describes(s, r, request, backends[i], judged[i])
  {
    hide Outweighed;
    hide Meets;
    hide LeastQueue;
    var all := AllCandidates(s, r, request, backends);
    assert all[i] == CandidateOf(s, r, request, backends[i]);
  }

  lemma JudgedLength(s: Setting, r: Resolved, request: Request, backends: seq<Backend>)
    ensures |Judged(s, r, request, backends)| == |backends|
  {
  }

  /**
   Whatever is selected is a backend of the list that lies in the experiment's
   pool and meets every requirement; no other one that does has a better score;
   and the evidence it was selected on is not void.
   */
  lemma PlacementIsSafe(s: Setting, request: Request, backends: seq<Backend>) returns (b: Backend, c: Candidate)
    requires s.experiment.Some? ==> Experiment.Sound(s.experiment.value)
    requires PlanOf(s, request, backends).selected.Some?
    ensures var d, r := PlanOf(s, request, backends), Resolve(s, request.id);
            && b in backends && b.id == c.id == d.selected.value
            && InPool(r.pool, b.id) && Meets(request.requirements, b.attributes)
            && Best(d.candidates, c) && Confident(r.mode, c) && !r.mode.Static? && !d.fallback
  {
    hide Resolve;
    hide Judged;
    hide Ranked;
    hide Meets;
    hide Best;
    hide InRank;
    var d, r := PlanOf(s, request, backends), Resolve(s, request.id);
    var judged := Judged(s, r, request, backends);
    RankedIs(judged);
    HeadIsBest(d.candidates);
    c := d.candidates[0];
    assert c in judged;
    var i :| 0 <= i < |judged| && judged[i] == c;
    JudgedLength(s, r, request, backends);
    b := backends[i];
    JudgedAt(s, r, request, backends, i);
  }

  /** Every backend is among the candidates once, and is eligible exactly if it meets the constraints. */
  lemma CandidatesDescribeBackends(s: Setting, request: Request, backends: seq<Backend>, id: string)
    requires s.experiment.Some? ==> Experiment.Sound(s.experiment.value)
    ensures var d, r := PlanOf(s, request, backends), Resolve(s, request.id);
            && |d.candidates| == |backends|
            && ((exists c :: c in d.candidates && c.eligible && c.id == id) <==>
                exists b :: b in backends && b.id == id && InPool(r.pool, id) && Meets(request.requirements, b.attributes))
  {
    hide Resolve;
    hide Judged;
    hide Ranked;
    hide Meets;
    hide InRank;
    var d, r := PlanOf(s, request, backends), Resolve(s, request.id);
    var judged := Judged(s, r, request, backends);
    RankedIs(judged);
    JudgedLength(s, r, request, backends);
    if c :| c in d.candidates && c.eligible && c.id == id {
      assert c in judged;
      var i :| 0 <= i < |judged| && judged[i] == c;
      JudgedAt(s, r, request, backends, i);
      assert backends[i] in backends;
    }
    if b :| b in backends && b.id == id && InPool(r.pool, id) && Meets(request.requirements, b.attributes) {
      var i :| 0 <= i < |backends| && backends[i] == b;
      JudgedAt(s, r, request, backends, i);
      assert judged[i] in judged;
      assert judged[i] in d.candidates;
    }
  }

  // ---- the veto holds ----

  /** A scored candidate of an enforced mode, its inputs within their ranges. */
  ghost predicate Sane(c: Candidate) {
    c.eligible ==>
      && 0.0 <= c.evidence.matchRatio <= 1.0 && 0.0 <= c.evidence.confidence <= 1.0
      && c.queue >= 0.0 && 0.0 <= c.pressure <= 1.0 && 0.0 <= c.violation <= 1.0
      && c.score == Score(c.evidence.confidence, c.evidence.matchRatio, c.queue, c.pressure, c.violation)
      && c.reason == Scored
  }

  ghost predicate SaneList(candidates: seq<Candidate>, least: real) {
    (forall c :: c in candidates ==> Sane(c)) && LeastQueue(candidates) == Some(least)
  }

  ghost predicate SelectsVetoed(candidates: seq<Candidate>) {
    var d := Chosen(Enforced, true, Ranked(AfterVeto(candidates)));
    d.selected.Some? && d.candidates[0].reason == QueuePenaltyExceedsCacheBenefit
  }

  lemma LeastScore(confidence: real, ratio: real, queue: real, pressure: real, violation: real)
    requires 0.0 <= confidence <= 1.0 && 0.0 <= ratio && queue >= 0.0 && pressure <= 1.0 && violation <= 1.0
    ensures Score(confidence, ratio, queue, pressure, violation) >= -(8.0 * queue + 95.0)
  {
    hide Discounted;
    DiscountShrinks(confidence, Worth(ratio, queue, pressure, violation));
  }

  lemma VetoedScore(confidence: real, ratio: real, queue: real, pressure: real, violation: real, least: real)
    requires 0.0 < confidence <= 1.0 && ratio <= 1.0 && queue > least >= 0.0 && 0.0 <= pressure && 0.0 <= violation
    requires 8.0 * least + 95.0 <= VETO
    ensures Score(confidence, ratio, queue, pressure, violation) - VETO < -(8.0 * least + 95.0)
  {
    hide Discounted;
    DiscountShrinks(confidence, Worth(ratio, queue, pressure, violation));
  }

  lemma DiscountShrinks(confidence: real, worth: real)
    requires 0.0 <= confidence <= 1.0
    ensures worth < 0.0 ==> worth <= Discounted(confidence, worth) <= 0.0
    ensures worth < 0.0 && confidence > 0.0 ==> Discounted(confidence, worth) < 0.0
    ensures worth >= 0.0 ==> 0.0 <= Discounted(confidence, worth) <= worth
  {
  }

  lemma {:induction false} LeastQueueIs(candidates: seq<Candidate>)
    ensures match LeastQueue(candidates)
            case None => forall c :: c in candidates ==> !c.eligible
            case Some(q) =>
              (exists c :: c in candidates && c.eligible && c.queue == q) &&
              forall c :: c in candidates && c.eligible ==> c.queue >= q
  {
    if candidates != [] {
      var n := |candidates| - 1;
      LeastQueueIs(candidates[..n]);
      TakeDrop(candidates, n);
      assert forall c :: c in candidates <==> c in candidates[..n] || c == candidates[n];
    }
  }

  /** With a shortest queue of at most 124,988.125 the penalty outweighs any score. */
  lemma VetoHolds(candidates: seq<Candidate>, enforced: bool, least: real)
    requires SaneList(candidates, least) && 8.0 * least + 95.0 <= VETO
    ensures var d := Chosen(Enforced, enforced, Ranked(AfterVeto(candidates)));
            d.selected.Some? ==> d.candidates[0].reason == Scored
  {
    hide Outweighed;
    hide Score;
    hide Ranked;
    hide InRank;
    hide Ahead;
    var judged := AfterVeto(candidates);
    var ranked := Ranked(judged);
    LeastQueueIs(candidates);
    RankedIs(judged);
    var d := Chosen(Enforced, enforced, ranked);
    if d.selected.Some? {
      var head := ranked[0];
      HeadIsBest(ranked);
      assert head in judged;
      var i :| 0 <= i < |judged| && judged[i] == head;
      var v := candidates[i];
      assert v in candidates && Sane(v) && head == Vetoed(v, least);
      if Outweighed(v, least) {
        var shortest :| shortest in candidates && shortest.eligible && shortest.queue == least;
        var k :| 0 <= k < |candidates| && candidates[k] == shortest;
        NotOutweighed(shortest, least);
        assert judged[k] == shortest && judged[k] in judged && shortest in ranked;
        OutweighedWaits(v, least);
        LeastScore(shortest.evidence.confidence, shortest.evidence.matchRatio, least, shortest.pressure, shortest.violation);
        VetoedScore(v.evidence.confidence, v.evidence.matchRatio, v.queue, v.pressure, v.violation, least);
      }
    }
  }

  lemma OutweighedWaits(c: Candidate, least: real)
    requires Outweighed(c, least)
    ensures c.eligible && c.queue > least
  {
  }

  lemma NotOutweighed(c: Candidate, least: real)
    requires c.queue <= least
    ensures !Outweighed(c, least)
  {
  }

  function Loaded(queue: real): Candidate {
    Candidate("a", true, Evidence(0, 0.0, None, Fresh, 1.0), 0.0, queue, 1.0, 0.0, 8.0, 0.0, 1.0,
              Score(1.0, 0.0, queue, 1.0, 1.0), Scored)
  }

  function Doubtful(queue: real, confidence: real): Candidate {
    Candidate("b", true, Evidence(1, 1.0, None, Fresh, confidence), 0.0, queue, 0.0, 0.0, 8.0, 0.0, 0.0,
              Score(confidence, 1.0, queue, 0.0, 0.0), Scored)
  }

  /** Beyond that, a candidate hardly anything is known of passes the loaded one in spite of its veto. */
  lemma VetoFails(least: real)
    requires least >= 0.0 && 8.0 * least + 95.0 > VETO
    ensures exists candidates :: SaneList(candidates, least) && SelectsVetoed(candidates)
  {
    var gap := 8.0 * least + 95.0 - VETO;
    var confidence := gap / (8.0 * least + 95.0);
    assert confidence * (8.0 * least + 95.0) == gap;
    assert 0.0 < confidence < 1.0;
    var l, v := Loaded(least), Doubtful(least + 1.0, confidence);
    ScoresCross(least, confidence);
    var candidates := [l, v];
    assert candidates[..1] == [l] && [l][..0] == [];
    assert LeastQueue([l]) == Some(least);
    assert LeastQueue(candidates) == Some(least);
    assert Outweighed(v, least) && !Outweighed(l, least);
    var judged := AfterVeto(candidates);
    assert judged == [l, Vetoed(v, least)];
    assert judged[..1] == [l] && Ranked([l]) == [l];
    assert Ranked(judged) == [Vetoed(v, least)] + [l];
    assert SaneList(candidates, least) && SelectsVetoed(candidates);
  }

  lemma ScoresCross(least: real, confidence: real)
    requires 8.0 * least + 95.0 > VETO && confidence > 0.0
    requires confidence * (8.0 * least + 95.0) == 8.0 * least + 95.0 - VETO
    ensures Doubtful(least + 1.0, confidence).score - VETO > Loaded(least).score
  {
    var worth := Worth(1.0, least + 1.0, 0.0, 0.0);
    assert worth == 187.0 - (8.0 * least + 95.0);
    assert Discounted(confidence, worth) == confidence * 187.0 - confidence * (8.0 * least + 95.0);
    assert Discounted(1.0, Worth(0.0, least, 1.0, 1.0)) == -(8.0 * least + 95.0);
  }

  /** The veto is safe exactly up to that queue length. */
  lemma VetoHoldsIff(least: real)
    requires least >= 0.0
    ensures (forall candidates :: SaneList(candidates, least) ==> !SelectsVetoed(candidates)) <==>
            8.0 * least + 95.0 <= VETO
  {
    hide SaneList;
    hide SelectsVetoed;
    if 8.0 * least + 95.0 <= VETO {
      forall candidates | SaneList(candidates, least) ensures !SelectsVetoed(candidates) {
        VetoKept(candidates, least);
      }
    } else {
      VetoFails(least);
    }
  }

  lemma VetoKept(candidates: seq<Candidate>, least: real)
    requires SaneList(candidates, least) && 8.0 * least + 95.0 <= VETO
    ensures !SelectsVetoed(candidates)
  {
    hide Ranked;
    hide AfterVeto;
    VetoHolds(candidates, true, least);
  }

  /** The measurements of a backend are within their ranges. */
  ghost predicate SaneBackend(s: Setting, id: string) {
    var state := StateOf(s, id);
    && 0.0 <= s.evidence(id).matchRatio <= 1.0 && 0.0 <= s.evidence(id).confidence <= 1.0
    && SignalValue(state, "queue_depth") >= 0.0 && 0.0 <= Pressure(state) <= 1.0
  }

  ghost predicate InUnit(curve: real -> real) {
    forall x :: 0.0 <= curve(x) <= 1.0
  }

  /** Under kv-v2 a plan never selects a vetoed backend, as long as one eligible queue is short enough. */
  lemma PlanKeepsVeto(s: Setting, request: Request, backends: seq<Backend>, shortest: Backend)
    requires s.experiment.Some? ==> Experiment.Sound(s.experiment.value)
    requires Resolve(s, request.id).policy == "kv-v2" && InUnit(s.curves.logistic)
    requires forall b :: b in backends ==> SaneBackend(s, b.id)
    requires shortest in backends && InPool(Resolve(s, request.id).pool, shortest.id)
    requires Meets(request.requirements, shortest.attributes)
    requires 8.0 * SignalValue(StateOf(s, shortest.id), "queue_depth") + 95.0 <= VETO
    ensures var d := PlanOf(s, request, backends); d.selected.Some? ==> d.candidates[0].reason == Scored
  {
    hide Ranked;
    hide AfterVeto;
    hide SaneBackend;
    hide InUnit;
    hide Meets;
    hide SaneList;
    hide Sane;
    var r := Resolve(s, request.id);
    KvV2IsEnforced(s, request.id);
    var all := AllCandidates(s, r, request, backends);
    SaneCandidates(s, r, request, backends);
    var i :| 0 <= i < |backends| && backends[i] == shortest;
    assert all[i] == CandidateOf(s, r, request, shortest) && all[i] in all;
    QueueOf(s, r, request, shortest);
    LeastQueueIs(all);
    SaneListed(all, LeastQueue(all).value);
    VetoHolds(all, r.enforced, LeastQueue(all).value);
  }

  lemma SaneListed(all: seq<Candidate>, least: real)
    requires (forall c :: c in all ==> Sane(c)) && LeastQueue(all) == Some(least)
    ensures SaneList(all, least)
  {
  }

  lemma KvV2IsEnforced(s: Setting, requestId: string)
    requires s.experiment.Some? ==> Experiment.Sound(s.experiment.value)
    requires Resolve(s, requestId).policy == "kv-v2"
    ensures Resolve(s, requestId).mode.Enforced?
  {
  }

  lemma QueueOf(s: Setting, r: Resolved, request: Request, b: Backend)
    requires InPool(r.pool, b.id) && Meets(request.requirements, b.attributes)
    ensures var c := CandidateOf(s, r, request, b);
            c.eligible && c.queue == SignalValue(StateOf(s, b.id), "queue_depth")
  {
    hide Meets;
    hide Predict;
  }

  lemma SaneCandidates(s: Setting, r: Resolved, request: Request, backends: seq<Backend>)
    requires r.mode.Enforced? && InUnit(s.curves.logistic) && forall b :: b in backends ==> SaneBackend(s, b.id)
    ensures forall c :: c in AllCandidates(s, r, request, backends) ==> Sane(c)
  {
    hide Score;
    hide Meets;
    hide Predict;
    hide Rate;
    hide Pressure;
    hide StateConfidence;
    var all := AllCandidates(s, r, request, backends);
    forall c | c in all ensures Sane(c) {
      var i :| 0 <= i < |all| && all[i] == c;
      assert backends[i] in backends && c == CandidateOf(s, r, request, backends[i]);
    }
  }
}
