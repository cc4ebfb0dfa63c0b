/**
 How long the shortest queue may be for the queue veto to hold in whole plans:
 the bound of the candidate lists, reached by backends one can set up.
 */
module VetoPlans {
  import opened Common
  import opened KvEventIndex
  import opened BackendRegistry
  import opened RoutingPlan
  import Experiment

  /** Policy kv-v2 on measurements in their ranges, the shortest queue of an eligible backend being `least`. */
  ghost predicate Situation(s: Setting, request: Request, backends: seq<Backend>, least: real) {
    && (s.experiment.Some? ==> Experiment.Sound(s.experiment.value))
    && Resolve(s, request.id).policy == "kv-v2" && InUnit(s.curves.logistic)
    && (forall b :: b in backends ==> SaneBackend(s, b.id))
    && LeastQueue(AllCandidates(s, Resolve(s, request.id), request, backends)) == Some(least)
  }

  ghost predicate PlanSelectsVetoed(s: Setting, request: Request, backends: seq<Backend>)
    requires s.experiment.Some? ==> Experiment.Sound(s.experiment.value)
  {
    var d := PlanOf(s, request, backends);
    d.selected.Some? && d.candidates != [] && d.candidates[0].reason == QueuePenaltyExceedsCacheBenefit
  }

  // ---- two backends: one loaded, one that hardly anything is known of ----

  const LOADED := Backend("a", 1, {}, map[])
  const DOUBTFUL := Backend("b", 1, {}, map[])
  const ANY := Request("", "", "", "", 0, map[], 20.07)

  const TRIAL := Experiment.Controller(
    Experiment.Config("t", Experiment.Arm("kv-v2", []), Experiment.Arm("kv-v2", []), Experiment.Switchback,
                      Experiment.Given(1), Experiment.Absent, Experiment.Absent, "s", 0.5, None, Experiment.Absent),
    1, 0, 0, 0)

  function States(least: real): map<string, Snapshot> {
    map["a" := Snapshot(0, map["queue_depth" := Signal(least, true, Fresh), "kv_pressure" := Signal(1.0, true, Fresh)]),
        "b" := Snapshot(0, map["queue_depth" := Signal(least + 1.0, true, Fresh)])]
  }

  function Known(id: string, confidence: real): Evidence {
    if id == "a" then Evidence(0, 0.0, None, Fresh, 1.0) else Evidence(1, 1.0, None, Fresh, confidence)
  }

  function Sharp(x: real): real {
    if x > 0.0 then 1.0 else 0.0
  }

  /** The latency objective is what the doubtful backend is predicted to keep, and the loaded one to miss. */
  function Objective(least: real): real {
    8.0 * least + 20.07
  }

  function Wish(least: real): Request {
    ANY.(sloMs := Objective(least))
  }

  function Rig(least: real, confidence: real): Setting {
    Setting(Enforced, 0, States(least), id => Known(id, confidence), HEURISTIC, None, Some(TRIAL), 0,
            Curves(_ => 1.0, Sharp, (_, _) => 0.0))
  }

  lemma TrialIsSound()
    ensures Experiment.Sound(TRIAL)
  {
  }

  lemma TrialSteers(least: real, confidence: real)
    ensures Experiment.Sound(TRIAL) && Resolve(Rig(least, confidence), Wish(least).id) == Resolved(Enforced, true, "kv-v2", [])
  {
    TrialIsSound();
  }

  lemma LoadedCandidate(least: real, confidence: real)
    requires least >= 0.0
    ensures var c := CandidateOf(Rig(least, confidence), Resolved(Enforced, true, "kv-v2", []), Wish(least), LOADED);
            && c.eligible && c.id == "a" && c.queue == least && c.pressure == 1.0 && c.violation == 1.0 && c.reason == Scored
            && c.evidence == Known("a", confidence)
            && c.score == Score(1.0, 0.0, least, 1.0, 1.0)
  {
    hide Score;
    var s := Rig(least, confidence);
    assert Meets(map[], map[]);
    var state := StateOf(s, "a");
    assert SignalValue(state, "queue_depth") == least && Pressure(state) == 1.0 && Rate(state) == 0.0;
    assert Predict(HEURISTIC, 0, 0, least, 1.0, 0.0) == 8.0 * least + 57.0;
    ScaledAbove(8.0 * least + 57.0, Objective(least));
  }

  lemma ScaledAbove(predicted: real, slo: real)
    ensures predicted > slo ==> Sharp((predicted - slo) / 25.0) == 1.0
    ensures predicted <= slo ==> Sharp((predicted - slo) / 25.0) == 0.0
  {
    var gap := predicted - slo;
    assert (gap / 25.0) * 25.0 == gap;
  }

  lemma DoubtfulCandidate(least: real, confidence: real)
    requires least >= 0.0
    ensures var c := CandidateOf(Rig(least, confidence), Resolved(Enforced, true, "kv-v2", []), Wish(least), DOUBTFUL);
            && c.eligible && c.id == "b" && c.queue == least + 1.0 && c.reason == Scored
            && c.evidence == Known("b", confidence) && c.rate == 0.0 && c.penaltyMs == 8.0
            && c.score == Score(confidence, 1.0, least + 1.0, 0.0, 0.0)
  {
    hide Score;
    var s := Rig(least, confidence);
    assert Meets(map[], map[]);
    var state := StateOf(s, "b");
    assert SignalValue(state, "queue_depth") == least + 1.0 && Pressure(state) == 0.0 && Rate(state) == 0.0;
    assert Predict(HEURISTIC, 0, 1, least + 1.0, 0.0, 0.0) == 8.0 * least + 20.07;
    ScaledAbove(8.0 * least + 20.07, Objective(least));
  }

  /** The doubtful candidate stays ahead of the loaded one in spite of its veto. */
  lemma VetoedLeads(l: Candidate, v: Candidate, least: real)
    requires l.eligible && v.eligible && l.queue == least && v.queue == least + 1.0
    requires Outweighed(v, least) && v.score - VETO > l.score && v.evidence.confidence > 0.0
    ensures LeastQueue([l, v]) == Some(least)
    ensures var d := Chosen(Enforced, true, Ranked(AfterVeto([l, v])));
            d.selected.Some? && d.candidates != [] && d.candidates[0].reason == QueuePenaltyExceedsCacheBenefit
  {
    var candidates := [l, v];
    assert candidates[..1] == [l] && [l][..0] == [];
    assert LeastQueue([l]) == Some(least);
    NotOutweighed(l, least);
    var judged := AfterVeto(candidates);
    assert judged == [l, Vetoed(v, least)];
    assert judged[..1] == [l] && Ranked([l]) == [l];
    assert Ranked(judged) == [Vetoed(v, least)] + [l];
  }

  lemma RigIsSane(least: real, confidence: real)
    requires least >= 0.0 && 0.0 < confidence < 1.0
    ensures InUnit(Sharp) && InUnit(Rig(least, confidence).curves.logistic)
    ensures SaneBackend(Rig(least, confidence), "a") && SaneBackend(Rig(least, confidence), "b")
  {
  }

  /** Beyond the bound there are two backends whose plan selects the vetoed one. */
  lemma PlanFails(least: real) returns (s: Setting, request: Request, backends: seq<Backend>)
    requires least >= 0.0 && 8.0 * least + 95.0 > VETO
    ensures Situation(s, request, backends, least) && PlanSelectsVetoed(s, request, backends)
  {
    hide Ranked;
    hide AfterVeto;
    hide Score;
    hide CandidateOf;
    hide SaneBackend;
    hide InUnit;
    hide Resolve;
    var gap := 8.0 * least + 95.0 - VETO;
    var confidence := gap / (8.0 * least + 95.0);
    assert confidence * (8.0 * least + 95.0) == gap;
    assert 0.0 < confidence < 1.0;
    s, request, backends := Rig(least, confidence), Wish(least), [LOADED, DOUBTFUL];
    TrialSteers(least, confidence);
    LoadedCandidate(least, confidence);
    DoubtfulCandidate(least, confidence);
    RigIsSane(least, confidence);
    var r := Resolve(s, request.id);
    var l, v := CandidateOf(s, r, request, LOADED), CandidateOf(s, r, request, DOUBTFUL);
    assert AllCandidates(s, r, request, backends) == [l, v];
    CrossedScores(least, confidence);
    VetoedLeads(l, v, least);
  }

  lemma CrossedScores(least: real, confidence: real)
    requires 8.0 * least + 95.0 > VETO && confidence > 0.0
    requires confidence * (8.0 * least + 95.0) == 8.0 * least + 95.0 - VETO
    ensures Score(confidence, 1.0, least + 1.0, 0.0, 0.0) - VETO > Score(1.0, 0.0, least, 1.0, 1.0)
  {
    ScoresCross(least, confidence);
  }

  lemma PlanHolds(s: Setting, request: Request, backends: seq<Backend>, least: real)
    requires Situation(s, request, backends, least) && 8.0 * least + 95.0 <= VETO
    ensures !PlanSelectsVetoed(s, request, backends)
  {
    hide Ranked;
    hide AfterVeto;
    hide SaneBackend;
    hide InUnit;
    hide Sane;
    hide SaneList;
    var r := Resolve(s, request.id);
    KvV2IsEnforced(s, request.id);
    var all := AllCandidates(s, r, request, backends);
    SaneCandidates(s, r, request, backends);
    SaneListed(all, least);
    VetoHolds(all, r.enforced, least);
  }

  /**
   For whole plans: whatever backends, request and curves, no vetoed backend is
   selected, if and only if the shortest queue is within the bound.
   */
  lemma PlanVetoIff(least: real)
    requires least >= 0.0
    ensures (forall s, request, backends :: Situation(s, request, backends, least) ==> !PlanSelectsVetoed(s, request, backends))
            <==> 8.0 * least + 95.0 <= VETO
  {
    hide Situation;
    hide PlanSelectsVetoed;
    if 8.0 * least + 95.0 <= VETO {
      forall s, request, backends | Situation(s, request, backends, least)
        ensures SoundOf(s) && !PlanSelectsVetoed(s, request, backends)
      {
        SituationSound(s, request, backends, least);
        PlanHolds(s, request, backends, least);
      }
    } else {
      var s, request, backends := PlanFails(least);
    }
  }

  ghost predicate SoundOf(s: Setting) {
    s.experiment.Some? ==> Experiment.Sound(s.experiment.value)
  }

  lemma SituationSound(s: Setting, request: Request, backends: seq<Backend>, least: real)
    requires Situation(s, request, backends, least)
    ensures SoundOf(s)
  {
  }
}
