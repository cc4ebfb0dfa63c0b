/**
 What decides a plan, told from what was measured: how cached prefix, queue,
 cache pressure and latency risk weigh against each other, how far the evidence
 is trusted, and which backend is selected on that.
 */
module PlanScores {
  import opened Common
  import opened StringOrder
  import opened KvEventIndex
  import opened BackendRegistry
  import opened RoutingPlan
  import Lifecycle = RolloutLifecycle
  import Experiment

  // ---- what a candidate weighs ----

  /** Undiscounted: what the cached prefix is worth less what waiting, pressure and a late answer cost. */
  ghost function Merit(c: Candidate): real {
    100.0 * c.evidence.matchRatio - 8.0 * c.queue - 35.0 * c.pressure - 60.0 * c.violation
  }

  /** Under load-aware routing the state is what is trusted, and never less than a hundredth. */
  ghost function Trust(mode: Mode, c: Candidate): real {
    if mode.LoadAware? then if c.stateConfidence < 0.01 then 0.01 else c.stateConfidence
    else c.evidence.confidence
  }

  /** What the cached tokens save; an unknown rate counts as 8000 tokens a second. */
  ghost function SavedMs(c: Candidate): real {
    1000.0 * (c.evidence.matchedTokens as real / if c.rate > 0.0 then c.rate else 8000.0)
  }

  /** Some eligible backend has so much shorter a queue that the cached tokens do not make up for it. */
  ghost predicate Overlong(candidates: seq<Candidate>, c: Candidate) {
    c.evidence.matchedTokens > 0 && exists d :: d in candidates && LosesTo(c, d)
  }

  ghost predicate LosesTo(c: Candidate, d: Candidate) {
    d.eligible && d.queue < c.queue && (c.queue - d.queue) * c.penaltyMs > SavedMs(c)
  }

  ghost function Weight(r: Resolved, candidates: seq<Candidate>, c: Candidate): real {
    Trust(r.mode, c) * Merit(c) - if r.policy == "kv-v2" && Overlong(candidates, c) then 1_000_000.0 else 0.0
  }

  /** Heavier, or as heavy and of the smaller ID. */
  ghost predicate Outdoes(r: Resolved, candidates: seq<Candidate>, c: Candidate, d: Candidate) {
    Weight(r, candidates, c) > Weight(r, candidates, d) ||
    (Weight(r, candidates, c) == Weight(r, candidates, d) && AtMost(c.id, d.id))
  }

  // ---- the scores are these weights ----

  lemma Product(a: real, b: real, c: real)
    requires b == c
    ensures a * b == a * c
  {
  }

  /** The score a candidate enters the ranking with. */
  lemma ScoredWeight(s: Setting, r: Resolved, request: Request, b: Backend)
    ensures var c := CandidateOf(s, r, request, b);
            c.eligible ==> c.score == Trust(r.mode, c) * Merit(c) && c.reason == Scored
  {
    hide Meets;
    hide Predict;
    hide Violation;
    hide Pressure;
    hide Rate;
    hide StateConfidence;
    hide SignalValue;
    hide StateOf;
    hide Matches;
    var c := CandidateOf(s, r, request, b);
    if c.eligible {
      Product(Trust(r.mode, c), Worth(c.evidence.matchRatio, c.queue, c.pressure, c.violation), Merit(c));
    }
  }

  lemma GapsOrdered(c: Candidate, d: Candidate, least: real)
    requires LosesTo(c, d) && least <= d.queue && c.evidence.matchedTokens > 0
    ensures (c.queue - least) * c.penaltyMs > SavedMs(c)
  {
    var n, rate := c.evidence.matchedTokens as real, if c.rate > 0.0 then c.rate else 8000.0;
    PositiveQuotient(n, rate);
    Steeper(c.queue - d.queue, c.queue - least, c.penaltyMs);
  }

  lemma PositiveQuotient(n: real, rate: real)
    requires n > 0.0 && rate > 0.0
    ensures n / rate > 0.0
  {
  }

  lemma Steeper(gap: real, longer: real, penalty: real)
    requires 0.0 < gap <= longer && gap * penalty > 0.0
    ensures longer * penalty >= gap * penalty
  {
  }

  /** A candidate is vetoed exactly if some eligible queue is so much shorter. */
  lemma OutweighedIff(candidates: seq<Candidate>, c: Candidate)
    requires c in candidates && c.eligible
    ensures LeastQueue(candidates).Some? && (Outweighed(c, LeastQueue(candidates).value) <==> Overlong(candidates, c))
  {
    hide LeastQueue;
    LeastQueueIs(candidates);
    var least := LeastQueue(candidates).value;
    if Outweighed(c, least) {
      var d :| d in candidates && d.eligible && d.queue == least;
      assert LosesTo(c, d);
    }
    if Overlong(candidates, c) {
      var d :| d in candidates && LosesTo(c, d);
      GapsOrdered(c, d, least);
    }
  }

  /** The candidate with the score it had before the veto. */
  ghost predicate Stems(c: Candidate, before: Candidate) {
    c == before.(score := c.score, reason := c.reason)
  }

  lemma JudgedFrom(s: Setting, r: Resolved, request: Request, backends: seq<Backend>, i: nat)
    requires i < |backends|
    ensures var all, judged := AllCandidates(s, r, request, backends), Judged(s, r, request, backends);
            && |judged| == |all| == |backends| && all[i] == CandidateOf(s, r, request, backends[i])
            && Stems(judged[i], all[i])
            && (all[i].eligible ==>
                  var vetoed := r.policy == "kv-v2" && Overlong(all, all[i]);
                  judged[i].score == all[i].score - (if vetoed then 1_000_000.0 else 0.0) &&
                  judged[i].reason == if vetoed then QueuePenaltyExceedsCacheBenefit else all[i].reason)
  {
    hide CandidateOf;
    hide LeastQueue;
    hide Outweighed;
    hide Overlong;
    var all := AllCandidates(s, r, request, backends);
    LeastQueueIs(all);
    if all[i].eligible {
      assert all[i] in all;
      OutweighedIff(all, all[i]);
    } else if LeastQueue(all).Some? {
      EligibleOnly(all[i], LeastQueue(all).value);
    }
  }

  lemma EligibleOnly(c: Candidate, least: real)
    requires !c.eligible
    ensures !Outweighed(c, least)
  {
  }

  lemma OverlongStems(all: seq<Candidate>, judged: seq<Candidate>, c: Candidate, before: Candidate)
    requires Stems(c, before) && |all| == |judged| && forall i :: 0 <= i < |all| ==> Stems(judged[i], all[i])
    ensures Overlong(judged, c) <==> Overlong(all, before)
  {
    hide Stems;
    if Overlong(all, before) {
      var d :| d in all && LosesTo(before, d);
      var i :| 0 <= i < |all| && all[i] == d;
      LosesStems(c, before, judged[i], d);
      assert judged[i] in judged;
    }
    if Overlong(judged, c) {
      var d :| d in judged && LosesTo(c, d);
      var i :| 0 <= i < |judged| && judged[i] == d;
      LosesStems(c, before, d, all[i]);
      assert all[i] in all;
    }
    MatchedStems(c, before);
  }

  lemma MatchedStems(c: Candidate, before: Candidate)
    requires Stems(c, before)
    ensures c.evidence == before.evidence
  {
  }

  lemma LosesStems(c: Candidate, before: Candidate, d: Candidate, other: Candidate)
    requires Stems(c, before) && Stems(d, other)
    ensures LosesTo(c, d) <==> LosesTo(before, other)
  {
  }

  lemma OverlongMembers(a: seq<Candidate>, b: seq<Candidate>, c: Candidate)
    requires forall d :: d in a <==> d in b
    ensures Overlong(a, c) <==> Overlong(b, c)
  {
    hide LosesTo;
  }

  lemma PlanCandidates(s: Setting, request: Request, backends: seq<Backend>)
    requires s.experiment.Some? ==> Experiment.Sound(s.experiment.value)
    ensures var r := Resolve(s, request.id);
            PlanOf(s, request, backends) == Chosen(r.mode, r.enforced, Ranked(Judged(s, r, request, backends))) &&
            PlanOf(s, request, backends).candidates == Ranked(Judged(s, r, request, backends))
  {
    hide Resolve;
    hide Judged;
    hide Ranked;
  }

  /** Every eligible candidate of a plan has its weight for a score, and says whether it was vetoed. */
  lemma ScoreIsWeight(s: Setting, request: Request, backends: seq<Backend>, c: Candidate)
    requires s.experiment.Some? ==> Experiment.Sound(s.experiment.value)
    requires c in PlanOf(s, request, backends).candidates && c.eligible
    ensures var d, r := PlanOf(s, request, backends), Resolve(s, request.id);
            && c.score == Weight(r, d.candidates, c)
            && (c.reason == QueuePenaltyExceedsCacheBenefit <==> r.policy == "kv-v2" && Overlong(d.candidates, c))
  {
    hide Resolve;
    hide Judged;
    hide Ranked;
    hide InRank;
    hide PlanOf;
    hide CandidateOf;
    hide Overlong;
    hide Merit;
    hide Trust;
    hide AllCandidates;
    var d, r := PlanOf(s, request, backends), Resolve(s, request.id);
    var all, judged := AllCandidates(s, r, request, backends), Judged(s, r, request, backends);
    PlanCandidates(s, request, backends);
    RankedIs(judged);
    JudgedLength(s, r, request, backends);
    assert c in judged;
    var i :| 0 <= i < |judged| && judged[i] == c;
    forall k | 0 <= k < |judged| ensures |all| == |judged| && Stems(judged[k], all[k]) {
      JudgedFrom(s, r, request, backends, k);
    }
    JudgedFrom(s, r, request, backends, i);
    ScoredWeight(s, r, request, backends[i]);
    OverlongStems(all, judged, c, all[i]);
    OverlongMembers(judged, d.candidates, c);
    WeighsStems(r.mode, c, all[i]);
  }

  lemma WeighsStems(mode: Mode, c: Candidate, before: Candidate)
    requires Stems(c, before)
    ensures Trust(mode, c) * Merit(c) == Trust(mode, before) * Merit(before)
  {
  }

  // ---- which backend is selected ----

  /** Candidates come with the eligible ones first, the heavier before the lighter, and then by ID. */
  lemma CandidatesInOrder(s: Setting, request: Request, backends: seq<Backend>, i: nat, j: nat)
    requires s.experiment.Some? ==> Experiment.Sound(s.experiment.value)
    requires i < j < |PlanOf(s, request, backends).candidates|
    ensures var d, r := PlanOf(s, request, backends), Resolve(s, request.id);
            d.candidates[j].eligible ==>
              d.candidates[i].eligible && Outdoes(r, d.candidates, d.candidates[i], d.candidates[j])
  {
    hide Resolve;
    hide Judged;
    hide Ranked;
    hide PlanOf;
    hide Weight;
    hide Below;
    var d, r := PlanOf(s, request, backends), Resolve(s, request.id);
    PlanCandidates(s, request, backends);
    RankedIs(Judged(s, r, request, backends));
    var a, b := d.candidates[i], d.candidates[j];
    assert a in d.candidates && b in d.candidates;
    assert !Ahead(b, a);
    if b.eligible {
      assert a.eligible;
      ScoreIsWeight(s, request, backends, a);
      ScoreIsWeight(s, request, backends, b);
      BelowTotal(a.id, b.id);
    }
  }

  /** What the selected candidate must bring along: evidence that is not void, of the state or of the cache. */
  ghost predicate Substantiated(mode: Mode, c: Candidate) {
    match mode
    case Static => false
    case LoadAware => c.stateConfidence > 0.0
    case _ => c.evidence.confidence > 0.0
  }

  ghost predicate Leads(r: Resolved, candidates: seq<Candidate>, c: Candidate) {
    c in candidates && c.eligible && forall e :: e in candidates && e.eligible ==> Outdoes(r, candidates, c, e)
  }

  lemma LeadersShareId(r: Resolved, candidates: seq<Candidate>, c: Candidate, e: Candidate)
    requires Leads(r, candidates, c) && Leads(r, candidates, e)
    ensures c.id == e.id && Weight(r, candidates, c) == Weight(r, candidates, e)
  {
    hide Weight;
    hide Below;
    assert Outdoes(r, candidates, c, e) && Outdoes(r, candidates, e, c);
    if c.id != e.id {
      BelowChains(c.id, e.id, c.id);
      NotBelowItself(c.id);
    }
  }

  lemma HeadLeads(s: Setting, request: Request, backends: seq<Backend>)
    requires s.experiment.Some? ==> Experiment.Sound(s.experiment.value)
    ensures var d, r := PlanOf(s, request, backends), Resolve(s, request.id);
            if d.candidates != [] && d.candidates[0].eligible then Leads(r, d.candidates, d.candidates[0])
            else forall c :: c in d.candidates ==> !c.eligible
  {
    hide Resolve;
    hide PlanOf;
    hide Weight;
    hide Below;
    var d, r := PlanOf(s, request, backends), Resolve(s, request.id);
    forall e | e in d.candidates && e.eligible
      ensures d.candidates[0].eligible && Outdoes(r, d.candidates, d.candidates[0], e)
    {
      var j :| 0 <= j < |d.candidates| && d.candidates[j] == e;
      if j > 0 {
        CandidatesInOrder(s, request, backends, 0, j);
      }
    }
  }

  /**
   The backend of a plan: it is the eligible one that outdoes every other
   eligible one, provided its evidence is not void and the policy steers at all.
   The head of the candidates speaks for every leader of the same ID.
   */
  lemma SelectedIs(s: Setting, request: Request, backends: seq<Backend>)
    requires s.experiment.Some? ==> Experiment.Sound(s.experiment.value)
    ensures var d, r := PlanOf(s, request, backends), Resolve(s, request.id);
            && d.mode == r.mode && d.enforced == r.enforced
            && (if exists c :: Leads(r, d.candidates, c) then
                  d.candidates != [] && Leads(r, d.candidates, d.candidates[0]) &&
                  (d.selected.Some? <==> Substantiated(r.mode, d.candidates[0])) &&
                  (d.selected.Some? ==> forall c :: Leads(r, d.candidates, c) ==> d.selected == Some(c.id)) &&
                  (d.fallback <==> d.selected.None? && !r.mode.Static?) &&
                  (d.fallback ==> d.outcome == if r.mode.LoadAware? then NoUsableQueueState else NoConfidentCacheEvidence)
                else d.selected.None? && d.fallback && d.outcome == NoEligibleBackend)
            && (d.outcome == HighestScore <==> d.selected.Some?)
            && (d.outcome == StaticRoundRobin <==> d.selected.None? && !d.fallback)
  {
    hide Resolve;
    hide Judged;
    hide Ranked;
    hide PlanOf;
    hide Leads;
    var d, r := PlanOf(s, request, backends), Resolve(s, request.id);
    PlanCandidates(s, request, backends);
    HeadLeads(s, request, backends);
    if d.candidates != [] && d.candidates[0].eligible {
      forall c | Leads(r, d.candidates, c) ensures c.id == d.candidates[0].id {
        LeadersShareId(r, d.candidates, c, d.candidates[0]);
      }
    } else {
      forall c ensures !Leads(r, d.candidates, c) {
        LeaderEligible(r, d.candidates, c);
      }
    }
  }

  lemma LeaderEligible(r: Resolved, candidates: seq<Candidate>, c: Candidate)
    ensures Leads(r, candidates, c) ==> c in candidates && c.eligible
  {
  }

  /**
   Between equally trusted backends, the differences decide: of the match ratio,
   the queue, the pressure and the risk of a late answer; at zero, the ID.
   */
  lemma DifferencesDecide(s: Setting, request: Request, backends: seq<Backend>, c: Candidate, e: Candidate)
    requires s.experiment.Some? ==> Experiment.Sound(s.experiment.value)
    requires var d, r := PlanOf(s, request, backends), Resolve(s, request.id);
             && d.selected == Some(c.id) && Leads(r, d.candidates, c) && e in d.candidates && e.eligible
             && r.policy != "kv-v2" && Trust(r.mode, c) == Trust(r.mode, e) > 0.0
    ensures var gain := 100.0 * (c.evidence.matchRatio - e.evidence.matchRatio) - 8.0 * (c.queue - e.queue)
                        - 35.0 * (c.pressure - e.pressure) - 60.0 * (c.violation - e.violation);
            gain > 0.0 || (gain == 0.0 && AtMost(c.id, e.id))
  {
    hide Resolve;
    hide PlanOf;
    hide Below;
    var d, r := PlanOf(s, request, backends), Resolve(s, request.id);
    assert Outdoes(r, d.candidates, c, e);
    Scales(Trust(r.mode, c), Merit(c), Merit(e));
  }

  lemma Scales(trust: real, x: real, y: real)
    requires trust > 0.0
    ensures trust * x > trust * y <==> x > y
    ensures trust * x == trust * y <==> x == y
  {
    assert trust * x - trust * y == trust * (x - y);
    SignOf(trust, x - y);
  }

  lemma SignOf(trust: real, z: real)
    requires trust > 0.0
    ensures (trust * z > 0.0 <==> z > 0.0) && (trust * z == 0.0 <==> z == 0.0)
  {
  }

  // ---- which mode applies ----

  ghost predicate ModeOfStage(stage: Lifecycle.Stage, mode: Mode) {
    match stage
    case Static => mode == Static
    case Shadow => mode == Shadow
    case _ => mode == Enforced
  }

  /**
   The policy of an experiment decides the mode, without one the stage of a
   lifecycle, without that the setting; and nothing is enforced that steers
   nothing or that the lifecycle holds back.
   */
  lemma ModeIs(s: Setting, requestId: string)
    requires s.experiment.Some? ==> Experiment.Sound(s.experiment.value)
    ensures var r := Resolve(s, requestId);
            && (r.policy == "static" ==> r.mode == Static) && (r.policy == "load-aware" ==> r.mode == LoadAware)
            && (r.policy in {"kv-v1", "kv-v2"} ==> r.mode == Enforced)
            && (r.policy !in {"static", "load-aware", "kv-v1", "kv-v2"} ==>
                  if s.lifecycle.None? then r.mode == s.mode else ModeOfStage(s.lifecycle.value.0, r.mode))
            && (s.lifecycle.None? ==> (r.enforced <==> r.mode in {Enforced, LoadAware}))
            && (s.lifecycle.Some? && s.experiment.None? ==> (r.enforced <==> s.lifecycle.value.1))
            && (s.lifecycle.Some? && s.experiment.Some? ==>
                  (r.enforced <==> s.lifecycle.value.1 && r.mode in {Enforced, LoadAware}))
            && (s.experiment.None? ==> r.policy == "" && r.pool == [])
  {
    hide Experiment.Assign;
    hide Experiment.Inactive;
  }

  // ---- where a candidate's measurements come from ----

  /** The fresh value of a signal, and zero without one. */
  ghost predicate Reads(state: Snapshot, name: string, value: real) {
    if exists signal :: GoodSignal(state, name, signal) && signal.quality.Fresh?
    then GoodSignal(state, name, Signal(value, true, Fresh))
    else value == 0.0
  }

  /** The signal was measured, and neither missing nor invalid. */
  ghost predicate GoodSignal(state: Snapshot, name: string, signal: Signal) {
    name in state.signals && state.signals[name] == signal && signal.hasValue && signal.quality !in {Missing, Invalid}
  }

  /** The pressure measured, or the share of the cache that is not free where none was. */
  ghost predicate PressureIs(state: Snapshot, pressure: real) {
    exists measured :: Reads(state, "kv_pressure", measured) &&
      if measured != 0.0 || !(exists free :: GoodSignal(state, "cold_free_perc", free)) then pressure == measured
      else exists free :: GoodSignal(state, "cold_free_perc", free) && NearestShare(1.0 - pressure, free.value)
  }

  ghost predicate RateIs(state: Snapshot, rate: real) {
    exists recent :: Reads(state, "recent_prefill_tokens_per_second", recent) &&
      if recent != 0.0 then rate == recent else Reads(state, "prefill_tokens_per_second", rate)
  }

  /** The state counts, by its age, if it was ever observed and is not too old. */
  ghost predicate StateTrusted(s: Setting, state: Snapshot, confidence: real) {
    var age := if state.observedAt <= s.now then s.now - state.observedAt else 0;
    if state.observedAt > 0 && (s.maxStateAge > 0 ==> age <= s.maxStateAge)
    then NearestShare(confidence, s.curves.decay(age)) else confidence == 0.0
  }

  /** The predictor that fits the model and the backend, or the built-in one. */
  ghost predicate PredictorFor(s: Setting, request: Request, b: Backend, p: Predictor) {
    var fits := s.predictor.model in {"", request.model} &&
                s.predictor.gpuType in {"", Attribute(b.attributes, "gpu_type")} &&
                s.predictor.engine in {"", Attribute(b.attributes, "engine")} &&
                s.predictor.engineVersion in {"", Attribute(b.attributes, "engine_version")};
    p == if fits then s.predictor
         else Predictor("", "", "", "", 12.0, 0.08, 0.07, 8.0, 45.0, 25.0, true)
  }

  /** The candidate says of the backend what was measured there and is predicted from that. */
  ghost predicate Measured(s: Setting, request: Request, b: Backend, c: Candidate) {
    var state := if b.id in s.states then s.states[b.id] else Snapshot(0, map[]);
    && c.id == b.id && c.evidence == s.evidence(b.id)
    && Reads(state, "queue_depth", c.queue) && PressureIs(state, c.pressure) && RateIs(state, c.rate)
    && StateTrusted(s, state, c.stateConfidence)
    && exists p :: PredictorFor(s, request, b, p) && Forecast(s, request, c, p)
  }

  ghost predicate Forecast(s: Setting, request: Request, c: Candidate, p: Predictor) {
    && c.penaltyMs == p.queuePenaltyMs
    && c.predictedMs == Predict(p, request.promptTokens, c.evidence.matchedTokens, c.queue, c.pressure, c.rate)
    && c.violation == Violation(p, s.curves.logistic, c.predictedMs, request.sloMs)
  }

  lemma ReadsValue(state: Snapshot, name: string)
    ensures Reads(state, name, SignalValue(state, name))
    ensures forall v :: Reads(state, name, v) ==> v == SignalValue(state, name)
  {
    if name in state.signals {
      var signal := state.signals[name];
      if signal.hasValue && signal.quality.Fresh? {
        assert GoodSignal(state, name, signal) && signal == Signal(signal.value, true, Fresh);
      }
    }
  }

  lemma ValueIs(state: Snapshot, name: string)
    ensures match Value(state, name)
            case Some(value) => exists signal :: GoodSignal(state, name, signal) && signal.value == value
            case None => forall signal :: !GoodSignal(state, name, signal)
    ensures forall x, y :: GoodSignal(state, name, x) && GoodSignal(state, name, y) ==> x == y
  {
    if Value(state, name).Some? {
      assert GoodSignal(state, name, state.signals[name]);
    }
  }

  lemma PressureRead(state: Snapshot)
    ensures PressureIs(state, Pressure(state))
  {
    hide Reads;
    hide GoodSignal;
    hide SignalValue;
    hide Value;
    ReadsValue(state, "kv_pressure");
    ValueIs(state, "cold_free_perc");
    assert Reads(state, "kv_pressure", SignalValue(state, "kv_pressure"));
  }

  lemma RateRead(state: Snapshot)
    ensures RateIs(state, Rate(state))
  {
    hide Reads;
    hide SignalValue;
    ReadsValue(state, "recent_prefill_tokens_per_second");
    ReadsValue(state, "prefill_tokens_per_second");
    assert Reads(state, "recent_prefill_tokens_per_second", SignalValue(state, "recent_prefill_tokens_per_second"));
  }

  lemma StateTrustedIs(s: Setting, state: Snapshot)
    ensures StateTrusted(s, state, StateConfidence(s, state))
  {
  }

  lemma PredictorIs(s: Setting, request: Request, b: Backend)
    ensures PredictorFor(s, request, b, if Matches(s.predictor, request.model, b.attributes) then s.predictor else HEURISTIC)
  {
  }

  lemma ScoredMeasured(s: Setting, r: Resolved, request: Request, b: Backend)
    requires CandidateOf(s, r, request, b).eligible
    ensures Measured(s, request, b, CandidateOf(s, r, request, b))
  {
    hide Meets;
    hide Predict;
    hide Violation;
    hide Pressure;
    hide Rate;
    hide StateConfidence;
    hide SignalValue;
    hide Matches;
    hide Score;
    hide Reads;
    hide PressureIs;
    hide RateIs;
    hide StateTrusted;
    hide PredictorFor;
    var state := StateOf(s, b.id);
    ReadsValue(state, "queue_depth");
    PressureRead(state);
    RateRead(state);
    StateTrustedIs(s, state);
    PredictorIs(s, request, b);
    var p := if Matches(s.predictor, request.model, b.attributes) then s.predictor else HEURISTIC;
    assert Forecast(s, request, CandidateOf(s, r, request, b), p);
  }

  /** Every eligible candidate of a plan is measured at a backend of the list, and every eligible backend has one. */
  lemma CandidatesAreMeasured(s: Setting, request: Request, backends: seq<Backend>)
    requires s.experiment.Some? ==> Experiment.Sound(s.experiment.value)
    ensures var d, r := PlanOf(s, request, backends), Resolve(s, request.id);
            && (forall c :: c in d.candidates && c.eligible ==> exists b :: b in backends && Measured(s, request, b, c))
            && (forall b :: b in backends && InPool(r.pool, b.id) && Meets(request.requirements, b.attributes) ==>
                  exists c :: c in d.candidates && c.eligible && Measured(s, request, b, c))
            && (forall c :: c in d.candidates && !c.eligible ==> Unscored(c))
  {
    hide Resolve;
    hide Judged;
    hide Ranked;
    hide InRank;
    hide PlanOf;
    hide CandidateOf;
    hide Overlong;
    hide Meets;
    hide Measured;
    hide AllCandidates;
    var d, r := PlanOf(s, request, backends), Resolve(s, request.id);
    var all, judged := AllCandidates(s, r, request, backends), Judged(s, r, request, backends);
    PlanCandidates(s, request, backends);
    RankedIs(judged);
    JudgedLength(s, r, request, backends);
    forall i | 0 <= i < |judged| && judged[i].eligible ensures Measured(s, request, backends[i], judged[i]) {
      JudgedFrom(s, r, request, backends, i);
      ScoredMeasured(s, r, request, backends[i]);
      MeasuredStems(s, request, backends[i], judged[i], all[i]);
    }
    forall c | c in d.candidates && !c.eligible ensures Unscored(c) {
      assert c in judged;
      var i :| 0 <= i < |judged| && judged[i] == c;
      UnscoredIs(s, r, request, backends, i);
    }
    forall c | c in d.candidates && c.eligible ensures exists b :: b in backends && Measured(s, request, b, c) {
      assert c in judged;
      var i :| 0 <= i < |judged| && judged[i] == c;
      assert backends[i] in backends;
    }
    forall b | b in backends && InPool(r.pool, b.id) && Meets(request.requirements, b.attributes)
      ensures exists c :: c in d.candidates && c.eligible && Measured(s, request, b, c)
    {
      var i :| 0 <= i < |backends| && backends[i] == b;
      JudgedAt(s, r, request, backends, i);
      assert judged[i] in judged && judged[i] in d.candidates;
    }
  }

  /** Nothing is measured of a backend that is not eligible. */
  ghost predicate Unscored(c: Candidate) {
    && c.evidence.matchedTokens == 0 && c.evidence.matchRatio == 0.0 && c.evidence.confidence == 0.0
    && c.evidence.quality == Quality.Missing && c.stateConfidence == 0.0 && c.queue == 0.0 && c.pressure == 0.0
    && c.rate == 0.0 && c.penaltyMs == 0.0 && c.predictedMs == 0.0 && c.violation == 0.0 && c.score == 0.0
    && c.reason == HardConstraintMismatch
  }

  lemma UnscoredIs(s: Setting, r: Resolved, request: Request, backends: seq<Backend>, i: nat)
    requires i < |Judged(s, r, request, backends)| && !Judged(s, r, request, backends)[i].eligible
    ensures Unscored(Judged(s, r, request, backends)[i])
  {
    hide Meets;
    hide LeastQueue;
    hide ScoredCandidate;
    var all := AllCandidates(s, r, request, backends);
    JudgedLength(s, r, request, backends);
    assert all[i] == CandidateOf(s, r, request, backends[i]);
    ScoredIsEligible(s, r.mode, request, backends[i]);
    if LeastQueue(all).Some? && !all[i].eligible {
      EligibleOnly(all[i], LeastQueue(all).value);
    }
  }

  lemma ScoredIsEligible(s: Setting, mode: Mode, request: Request, b: Backend)
    ensures ScoredCandidate(s, mode, request, b).eligible
  {
    hide Predict;
    hide Violation;
  }

  lemma MeasuredStems(s: Setting, request: Request, b: Backend, c: Candidate, before: Candidate)
    requires Stems(c, before) && Measured(s, request, b, before)
    ensures Measured(s, request, b, c)
  {
    hide Predict;
    hide Violation;
    hide PredictorFor;
    hide PressureIs;
    hide RateIs;
    hide Reads;
    hide StateTrusted;
    var p :| PredictorFor(s, request, b, p) && Forecast(s, request, before, p);
    assert Forecast(s, request, c, p);
  }

  // ---- what is predicted ----

  /** The time to work off one token that is not cached. */
  ghost function TokenMs(p: Predictor, rate: real): real {
    if p.useObservedRate && rate > 0.0 then 1000.0 / rate else p.promptTokenMs
  }

  lemma PrefillIs(p: Predictor, n: real, rate: real)
    ensures PrefillMs(p, n, rate) == n * TokenMs(p, rate)
  {
  }

  /** What a prompt costs of which `matched` tokens are cached. */
  ghost function TokensMs(p: Predictor, promptTokens: int, matched: int, rate: real): real {
    (promptTokens - matched) as real * TokenMs(p, rate) + matched as real * p.cachedTokenMs
  }

  ghost function UnloadedCost(p: Predictor, promptTokens: int, matched: int, rate: real): real {
    var uncached := AtLeastZero(promptTokens - matched) as real;
    p.baseMs + PrefillMs(p, uncached, rate) + matched as real * p.cachedTokenMs
  }

  /** What waiting and pressure cost. */
  ghost function LoadMs(p: Predictor, queue: real, pressure: real): real {
    queue * p.queuePenaltyMs + pressure * p.pressurePenalty
  }

  lemma PredictFrom(p: Predictor, promptTokens: int, matched: int, queue: real, pressure: real, rate: real)
    ensures Predict(p, promptTokens, matched, queue, pressure, rate) ==
            Max(0.0, UnloadedCost(p, promptTokens, matched, rate) + LoadMs(p, queue, pressure))
  {
    hide AtLeastZero;
    hide PrefillMs;
  }

  lemma UnloadedIs(p: Predictor, promptTokens: int, matched: int, rate: real)
    requires 0 <= matched <= promptTokens
    ensures UnloadedCost(p, promptTokens, matched, rate) == p.baseMs + TokensMs(p, promptTokens, matched, rate)
  {
    hide TokenMs;
    hide PrefillMs;
    PrefillIs(p, (promptTokens - matched) as real, rate);
  }

  /** Not clipped, the prediction is the cost of an idle backend, of the tokens by kind, of waiting and of pressure. */
  lemma PredictIs(p: Predictor, promptTokens: int, matched: int, queue: real, pressure: real, rate: real)
    requires 0 <= matched <= promptTokens
    ensures var cost := p.baseMs + TokensMs(p, promptTokens, matched, rate) + LoadMs(p, queue, pressure);
            var predicted := Predict(p, promptTokens, matched, queue, pressure, rate);
            predicted >= 0.0 && (cost >= 0.0 ==> predicted == cost) && (cost < 0.0 ==> predicted == 0.0)
  {
    hide Predict;
    hide UnloadedCost;
    hide TokensMs;
    hide LoadMs;
    PredictFrom(p, promptTokens, matched, queue, pressure, rate);
    UnloadedIs(p, promptTokens, matched, rate);
  }

  /** More cached tokens make the answer faster exactly if a cached token costs less than one to be worked off. */
  lemma CachedIsFasterIff(p: Predictor, promptTokens: int, less: int, more: int, queue: real, pressure: real, rate: real)
    requires 0 <= less < more <= promptTokens
    requires Predict(p, promptTokens, more, queue, pressure, rate) > 0.0
    ensures Predict(p, promptTokens, more, queue, pressure, rate) < Predict(p, promptTokens, less, queue, pressure, rate) <==>
            p.cachedTokenMs < TokenMs(p, rate)
  {
    hide Predict;
    hide TokenMs;
    hide TokensMs;
    hide LoadMs;
    PredictIs(p, promptTokens, less, queue, pressure, rate);
    PredictIs(p, promptTokens, more, queue, pressure, rate);
    MoreCached(p, promptTokens, less, more, rate);
  }

  lemma MoreCached(p: Predictor, promptTokens: int, less: int, more: int, rate: real)
    requires less < more
    ensures TokensMs(p, promptTokens, more, rate) < TokensMs(p, promptTokens, less, rate) <==> p.cachedTokenMs < TokenMs(p, rate)
  {
    hide TokenMs;
    Exchange((promptTokens - less) as real, (promptTokens - more) as real, less as real, more as real,
             TokenMs(p, rate), p.cachedTokenMs);
    SignOf((more - less) as real, TokenMs(p, rate) - p.cachedTokenMs);
  }

  lemma Exchange(left: real, still: real, less: real, more: real, uncached: real, cached: real)
    requires left - still == more - less
    ensures (left * uncached + less * cached) - (still * uncached + more * cached) == (more - less) * (uncached - cached)
  {
    assert left == still + (more - less);
    Spread(still, more - less, uncached);
    Spread(less, more - less, cached);
  }

  lemma Spread(x: real, d: real, factor: real)
    ensures (x + d) * factor == x * factor + d * factor
  {
  }

  /** A longer queue or a higher pressure never makes the answer faster, as long as neither is credited. */
  lemma LoadIsSlower(p: Predictor, promptTokens: int, matched: int, queue: real, pressure: real, busier: real, fuller: real, rate: real)
    requires p.queuePenaltyMs >= 0.0 && p.pressurePenalty >= 0.0 && queue <= busier && pressure <= fuller
    ensures Predict(p, promptTokens, matched, queue, pressure, rate) <= Predict(p, promptTokens, matched, busier, fuller, rate)
  {
    hide Predict;
    hide UnloadedCost;
    hide LoadMs;
    PredictFrom(p, promptTokens, matched, queue, pressure, rate);
    PredictFrom(p, promptTokens, matched, busier, fuller, rate);
    LoadGrows(p, queue, pressure, busier, fuller);
  }

  lemma LoadGrows(p: Predictor, queue: real, pressure: real, busier: real, fuller: real)
    requires p.queuePenaltyMs >= 0.0 && p.pressurePenalty >= 0.0 && queue <= busier && pressure <= fuller
    ensures LoadMs(p, queue, pressure) <= LoadMs(p, busier, fuller)
  {
    Wider(queue, busier, p.queuePenaltyMs);
    Wider(pressure, fuller, p.pressurePenalty);
  }

  lemma Wider(x: real, y: real, factor: real)
    requires x <= y && factor >= 0.0
    ensures x * factor <= y * factor
  {
  }

  /** Without an objective there is no risk; with one it is read off the curve, in units of the predictor's scale. */
  lemma ViolationIs(p: Predictor, logistic: real -> real, predicted: real, slo: real, excess: real)
    requires excess * (if p.sloScaleMs > 0.0 then p.sloScaleMs else 25.0) == predicted - slo
    ensures Violation(p, logistic, predicted, slo) == if slo > 0.0 then logistic(excess) else 0.0
  {
    var scale := if p.sloScaleMs > 0.0 then p.sloScaleMs else 25.0;
    OnlyQuotient(excess, scale, predicted - slo);
  }

  lemma OnlyQuotient(x: real, scale: real, y: real)
    requires scale > 0.0 && x * scale == y
    ensures y / scale == x
  {
  }
}
