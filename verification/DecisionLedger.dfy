/**
 The bounded decision ledger and its two append-only journals. A restart
 replays every journaled decision, then every journaled outcome.
 */
module DecisionLedger {
  import opened Common

  datatype Candidate = Candidate(
    backendId: string, predictorVersion: string, predictedTtftMs: real, prefixMatch: real, evidenceQuality: string)

  datatype Outcome = Outcome(
    requestId: string, actualBackend: string, ttftMs: real, e2eMs: real, success: bool, statusCode: int,
    observedCacheHitRatio: Option<real>, completedAt: Option<nat>)

  datatype CacheError = CacheError(predicted: real, actual: real, absolute: real)

  datatype PredictionError = PredictionError(
    predictorVersion: string, predictedTtftMs: real, actualTtftMs: real, signedMs: real, absoluteMs: real,
    cache: Option<CacheError>, evidenceQuality: string)

  datatype Decision = Decision(
    requestId: string, selected: string, candidates: seq<Candidate>, predictorVersion: string,
    actualSelected: string, outcome: Option<Outcome>, predictionError: Option<PredictionError>)

  function Absolute(x: real): real {
    if x < 0.0 then -x else x
  }

  function CandidateFor(candidates: seq<Candidate>, backendId: string): Option<Candidate> {
    if candidates == [] then None
    else if candidates[0].backendId == backendId then Some(candidates[0])
    else CandidateFor(candidates[1..], backendId)
  }

  function ErrorOf(c: Candidate, o: Outcome): PredictionError {
    var signed := o.ttftMs - c.predictedTtftMs;
    var cache := match o.observedCacheHitRatio
      case None => None
      case Some(actual) => Some(CacheError(c.prefixMatch, actual, Absolute(actual - c.prefixMatch)));
    PredictionError(c.predictorVersion, c.predictedTtftMs, o.ttftMs, signed, Absolute(signed), cache, c.evidenceQuality)
  }

  predicate Blank(o: Outcome) {
    o.completedAt.None? && o.ttftMs == 0.0 && o.e2eMs == 0.0 && o.statusCode == 0
  }

  /** An outcome applied to the decision it belongs to. */
  function Settle(d: Decision, o: Outcome): Decision {
    var routed := d.(actualSelected := o.actualBackend);
    if Blank(o) then routed
    else
      var settled := routed.(outcome := Some(o));
      match CandidateFor(d.candidates, o.actualBackend)
      case Some(c) =>
        if o.success && o.ttftMs > 0.0 then
          settled.(predictorVersion := c.predictorVersion, predictionError := Some(ErrorOf(c, o)))
        else settled
      case None => settled
  }

  // ---- the ledger as a value ----

  datatype Ledger = Ledger(order: seq<string>, entries: map<string, Decision>)

  const EMPTY := Ledger([], map[])

  /** Oldest first out, until at most `max` are left. */
  function Evict(max: nat, l: Ledger): Ledger
    decreases |l.order|
  {
    if |l.order| > max then Evict(max, Ledger(l.order[1..], l.entries - {l.order[0]})) else l
  }

  function Recorded(max: nat, l: Ledger, d: Decision): Ledger {
    var order := if d.requestId in l.entries then l.order else l.order + [d.requestId];
    Evict(max, Ledger(order, l.entries[d.requestId := d]))
  }

  function Settled(l: Ledger, o: Outcome): Ledger {
    if o.requestId in l.entries
    then l.(entries := l.entries[o.requestId := Settle(l.entries[o.requestId], o)])
    else l
  }

  function Routed(l: Ledger, id: string, backend: string): Ledger {
    if id in l.entries then l.(entries := l.entries[id := l.entries[id].(actualSelected := backend)]) else l
  }

  ghost predicate WellFormed(max: nat, l: Ledger) {
    && (forall i, j :: 0 <= i < j < |l.order| ==> l.order[i] != l.order[j])
    && (forall id :: id in l.entries <==> id in l.order)
    && |l.order| <= max
    && (forall id :: id in l.entries ==> l.entries[id].requestId == id)
  }

  // ---- journals and restart ----

  datatype Journal = Journal(decisions: seq<Decision>, outcomes: seq<Outcome>)

  function RecordAll(max: nat, decisions: seq<Decision>): Ledger {
    if decisions == [] then EMPTY
    else Recorded(max, RecordAll(max, decisions[..|decisions| - 1]), decisions[|decisions| - 1])
  }

  function SettleAll(l: Ledger, outcomes: seq<Outcome>): Ledger {
    if outcomes == [] then l
    else Settled(SettleAll(l, outcomes[..|outcomes| - 1]), outcomes[|outcomes| - 1])
  }

  function Restore(max: nat, journal: Journal): Ledger {
    SettleAll(RecordAll(max, journal.decisions), journal.outcomes)
  }

  // ---- runs ----

  /** `fails`: the append to the journal, if one is made, fails. A restart leaves nothing but the journals. */
  datatype Op =
    | Record(decision: Decision, fails: bool)
    | RecordOutcome(outcome: Outcome, fails: bool)
    | UpdateActual(id: string, backend: string)
    | Restart

  /** `failed` is sticky: after one failing append nothing more is journaled until a restart. */
  datatype System = System(ledger: Ledger, journal: Journal, failed: bool)

  const START := System(EMPTY, Journal([], []), false)

  function Apply(max: nat, s: System, op: Op): System {
    match op
    case Record(d, fails) =>
      if d.requestId == "" then s
      else
        var ledger := Recorded(max, s.ledger, d);
        if s.failed then s.(ledger := ledger)
        else if fails then s.(ledger := ledger, failed := true)
        else s.(ledger := ledger, journal := s.journal.(decisions := s.journal.decisions + [d]))
    case RecordOutcome(o, fails) =>
      if o.requestId == "" || o.requestId !in s.ledger.entries then s
      else
        var ledger := Settled(s.ledger, o);
        if s.failed then s.(ledger := ledger)
        else if fails then s.(ledger := ledger, failed := true)
        else s.(ledger := ledger, journal := s.journal.(outcomes := s.journal.outcomes + [o]))
    case UpdateActual(id, backend) =>
      s.(ledger := Routed(s.ledger, id, backend))
    case Restart =>
      System(Restore(max, s.journal), s.journal, false)
  }

  function Run(max: nat, ops: seq<Op>): System {
    if ops == [] then START else Apply(max, Run(max, ops[..|ops| - 1]), ops[|ops| - 1])
  }

  /** Operation `k` appends to a journal, as the ledger stands then, and the append fails. */
  ghost predicate AppendFails(max: nat, ops: seq<Op>, k: int)
    requires 0 <= k < |ops|
  {
    match ops[k]
    case Record(d, fails) => d.requestId != "" && fails
    case RecordOutcome(o, fails) => o.requestId != "" && o.requestId in Run(max, ops[..k]).ledger.entries && fails
    case _ => false
  }

  ghost predicate FailsSince(max: nat, ops: seq<Op>, k: int)
    requires 0 <= k < |ops|
  {
    AppendFails(max, ops, k) && forall j :: k < j < |ops| ==> !ops[j].Restart?
  }

  /** The journal counts as failed exactly if an append failed since the last restart. */
  lemma {:induction false} FailedIff(max: nat, ops: seq<Op>)
    ensures Run(max, ops).failed <==> exists k :: 0 <= k < |ops| && FailsSince(max, ops, k)
  {
    hide FailsSince;
    hide AppendFails;
    hide Apply;
    if ops != [] {
      var n := |ops| - 1;
      var init := ops[..n];
      var s := Run(max, init);
      FailedIff(max, init);
      FailsNow(max, ops);
      ApplyFails(max, s, ops);
      if k :| 0 <= k < n && FailsSince(max, init, k) {
        FailsInit(max, ops, k);
      }
      if k :| 0 <= k < |ops| && FailsSince(max, ops, k) {
        if k < n {
          FailsInit(max, ops, k);
        }
      }
    }
  }

  lemma FailsInit(max: nat, ops: seq<Op>, k: int)
    requires 0 <= k < |ops| - 1
    ensures FailsSince(max, ops, k) <==> FailsSince(max, ops[..|ops| - 1], k) && !ops[|ops| - 1].Restart?
  {
    hide Run;
    var n := |ops| - 1;
    var init := ops[..n];
    assert ops[..k] == init[..k] && ops[k] == init[k];
    assert forall j :: k < j < n ==> ops[j] == init[j];
  }

  lemma FailsNow(max: nat, ops: seq<Op>)
    requires ops != []
    ensures FailsSince(max, ops, |ops| - 1) <==> AppendFails(max, ops, |ops| - 1)
    ensures AppendFails(max, ops, |ops| - 1) ==> !ops[|ops| - 1].Restart?
  {
  }

  lemma ApplyFails(max: nat, s: System, ops: seq<Op>)
    requires ops != [] && s == Run(max, ops[..|ops| - 1])
    ensures Apply(max, s, ops[|ops| - 1]).failed <==>
            !ops[|ops| - 1].Restart? && (s.failed || AppendFails(max, ops, |ops| - 1))
  {
    hide Run;
  }

  predicate HasOutcome(outcomes: seq<Outcome>, id: string) {
    exists k :: 0 <= k < |outcomes| && outcomes[k].requestId == id
  }

  /** No decision is recorded for a request that already has a journaled outcome. */
  ghost predicate Fresh(max: nat, ops: seq<Op>) {
    forall k :: 0 <= k < |ops| && ops[k].Record? ==>
      !HasOutcome(Run(max, ops[..k]).journal.outcomes, ops[k].decision.requestId)
  }

  /** Each request is recorded at most once. */
  ghost predicate UniqueIds(ops: seq<Op>) {
    forall i, j :: 0 <= i < j < |ops| && ops[i].Record? && ops[j].Record? ==>
      ops[i].decision.requestId != ops[j].decision.requestId
  }

  function WithoutActual(d: Decision): Decision {
    d.(actualSelected := "")
  }

  /** Requests whose actual backend was last set by UpdateActual, which is not journaled. */
  function Unjournaled(ops: seq<Op>): set<string> {
    if ops == [] then {}
    else
      var before := Unjournaled(ops[..|ops| - 1]);
      match ops[|ops| - 1]
      case Record(d, _) => before - {d.requestId}
      case RecordOutcome(o, _) => before - {o.requestId}
      case UpdateActual(id, _) => before + {id}
      case Restart => {}
  }

  /** Equal, but for the actual backend of the requests in `except`. */
  ghost predicate Same(a: Ledger, b: Ledger, except: set<string>) {
    && a.order == b.order
    && a.entries.Keys == b.entries.Keys
    && (forall id :: id in a.entries && id !in except ==> a.entries[id] == b.entries[id])
    && (forall id :: id in a.entries ==> WithoutActual(a.entries[id]) == WithoutActual(b.entries[id]))
  }

  // ---- an outcome and a later decision of another request commute ----

  lemma {:induction false} EvictSettled(max: nat, l: Ledger, o: Outcome)
    requires forall id :: id in l.order ==> id in l.entries
    requires forall i, j :: 0 <= i < j < |l.order| ==> l.order[i] != l.order[j]
    ensures Evict(max, Settled(l, o)) == Settled(Evict(max, l), o)
    decreases |l.order|
  {
    if |l.order| > max {
      var next := Ledger(l.order[1..], l.entries - {l.order[0]});
      EvictSettled(max, next, o);
      var settled := Settled(l, o);
      assert Ledger(settled.order[1..], settled.entries - {settled.order[0]}) == Settled(next, o);
    }
  }

  lemma RecordedSettled(max: nat, l: Ledger, d: Decision, o: Outcome)
    requires WellFormed(max, l)
    ensures Settled(Recorded(max, l, d), o) ==
            Recorded(max, Settled(l, o), if o.requestId == d.requestId then Settle(d, o) else d)
  {
    hide Settle;
    var order := if d.requestId in l.entries then l.order else l.order + [d.requestId];
    var grown := Ledger(order, l.entries[d.requestId := d]);
    EvictSettled(max, grown, o);
    SettleKeepsId(d, o);
    if o.requestId == d.requestId {
      assert Settled(grown, o).entries == Settled(l, o).entries[d.requestId := Settle(d, o)];
    } else if o.requestId in l.entries {
      var s := Settle(l.entries[o.requestId], o);
      assert l.entries[o.requestId := s][d.requestId := d] == l.entries[d.requestId := d][o.requestId := s];
    }
  }

  lemma SettleKeepsId(d: Decision, o: Outcome)
    ensures Settle(d, o).requestId == d.requestId
  {
  }

  lemma {:induction false} EvictWellFormed(max: nat, l: Ledger)
    requires WellFormed(|l.order|, l)
    ensures WellFormed(max, Evict(max, l))
    decreases |l.order|
  {
    if |l.order| > max {
      var next := Ledger(l.order[1..], l.entries - {l.order[0]});
      assert WellFormed(|next.order|, next) by {
        assert l.order == [l.order[0]] + next.order;
        forall id ensures id in next.entries <==> id in next.order {
          assert id in l.order <==> id == l.order[0] || id in next.order;
          assert l.order[0] !in next.order;
        }
      }
      EvictWellFormed(max, next);
    }
  }

  /** What eviction leaves: the newest `max` of the order, and the entries of no one else. */
  lemma {:induction false} EvictKeepsNewest(max: nat, l: Ledger)
    ensures var drop := if |l.order| > max then |l.order| - max else 0;
            Evict(max, l) == Ledger(l.order[drop..], map id | id in l.entries && id !in l.order[..drop] :: l.entries[id])
    decreases |l.order|
  {
    if |l.order| > max {
      var drop := |l.order| - max;
      EvictKeepsNewest(max, Ledger(l.order[1..], l.entries - {l.order[0]}));
      DropDrop(l.order, 1, drop - 1);
      assert l.order[..drop] == [l.order[0]] + l.order[1..][..drop - 1];
    }
  }

  lemma RecordedWellFormed(max: nat, l: Ledger, d: Decision)
    requires WellFormed(max, l)
    ensures WellFormed(max, Recorded(max, l, d))
  {
    var order := if d.requestId in l.entries then l.order else l.order + [d.requestId];
    EvictWellFormed(max, Ledger(order, l.entries[d.requestId := d]));
  }

  lemma SettledWellFormed(max: nat, l: Ledger, o: Outcome)
    requires WellFormed(max, l)
    ensures WellFormed(max, Settled(l, o))
  {
  }

  lemma {:induction false} RecordAllWellFormed(max: nat, decisions: seq<Decision>)
    ensures WellFormed(max, RecordAll(max, decisions))
  {
    if decisions != [] {
      RecordAllWellFormed(max, decisions[..|decisions| - 1]);
      RecordedWellFormed(max, RecordAll(max, decisions[..|decisions| - 1]), decisions[|decisions| - 1]);
    }
  }

  lemma {:induction false} SettleAllWellFormed(max: nat, l: Ledger, outcomes: seq<Outcome>)
    requires WellFormed(max, l)
    ensures WellFormed(max, SettleAll(l, outcomes))
  {
    if outcomes != [] {
      SettleAllWellFormed(max, l, outcomes[..|outcomes| - 1]);
      SettledWellFormed(max, SettleAll(l, outcomes[..|outcomes| - 1]), outcomes[|outcomes| - 1]);
    }
  }

  /** A decision as the outcomes of its request leave it. */
  function SettledBy(d: Decision, outcomes: seq<Outcome>): (e: Decision)
    ensures e.requestId == d.requestId
  {
    if outcomes == [] then d
    else
      var e := SettledBy(d, outcomes[..|outcomes| - 1]);
      var o := outcomes[|outcomes| - 1];
      if o.requestId == d.requestId then Settle(e, o) else e
  }

  lemma {:induction false} RecordedSettleAll(max: nat, l: Ledger, d: Decision, outcomes: seq<Outcome>)
    requires WellFormed(max, l)
    ensures SettleAll(Recorded(max, l, d), outcomes) == Recorded(max, SettleAll(l, outcomes), SettledBy(d, outcomes))
  {
    hide Settle;
    hide Recorded;
    hide Settled;
    if outcomes != [] {
      var init, last := outcomes[..|outcomes| - 1], outcomes[|outcomes| - 1];
      RecordedSettleAll(max, l, d, init);
      SettleAllWellFormed(max, l, init);
      RecordedSettled(max, SettleAll(l, init), SettledBy(d, init), last);
    }
  }

  /** Journaling one more decision restores to recording it, as its journaled outcomes leave it, after the restart. */
  lemma RestoreDecision(max: nat, journal: Journal, d: Decision)
    ensures Restore(max, journal.(decisions := journal.decisions + [d])) ==
            Recorded(max, Restore(max, journal), SettledBy(d, journal.outcomes))
  {
    RecordAllWellFormed(max, journal.decisions);
    SnocInit(journal.decisions, d);
    RecordedSettleAll(max, RecordAll(max, journal.decisions), d, journal.outcomes);
  }

  lemma {:induction false} NothingSettled(d: Decision, outcomes: seq<Outcome>)
    requires !HasOutcome(outcomes, d.requestId)
    ensures SettledBy(d, outcomes) == d
  {
    if outcomes != [] {
      NothingSettled(d, outcomes[..|outcomes| - 1]);
    }
  }

  lemma RestoreOutcome(max: nat, journal: Journal, o: Outcome)
    ensures Restore(max, journal.(outcomes := journal.outcomes + [o])) == Settled(Restore(max, journal), o)
  {
    SnocInit(journal.outcomes, o);
  }

  // ---- sameness is kept ----

  lemma {:induction false} EvictSame(max: nat, a: Ledger, b: Ledger, except: set<string>)
    requires Same(a, b, except)
    ensures Same(Evict(max, a), Evict(max, b), except)
    decreases |a.order|
  {
    if |a.order| > max {
      EvictSame(max, Ledger(a.order[1..], a.entries - {a.order[0]}), Ledger(b.order[1..], b.entries - {b.order[0]}), except);
    }
  }

  lemma RecordedSame(max: nat, a: Ledger, b: Ledger, d: Decision, except: set<string>)
    requires Same(a, b, except)
    ensures Same(Recorded(max, a, d), Recorded(max, b, d), except - {d.requestId})
  {
    var order := if d.requestId in a.entries then a.order else a.order + [d.requestId];
    var grownA, grownB := Ledger(order, a.entries[d.requestId := d]), Ledger(order, b.entries[d.requestId := d]);
    assert Same(grownA, grownB, except - {d.requestId});
    EvictSame(max, grownA, grownB, except - {d.requestId});
  }

  lemma SettledSame(a: Ledger, b: Ledger, o: Outcome, except: set<string>)
    requires Same(a, b, except)
    ensures Same(Settled(a, o), Settled(b, o), except - {o.requestId})
  {
    if o.requestId in a.entries {
      assert WithoutActual(a.entries[o.requestId]) == WithoutActual(b.entries[o.requestId]);
      assert Settle(a.entries[o.requestId], o) == Settle(b.entries[o.requestId], o);
    }
  }

  // ---- the theorems ----

  lemma FreshInit(max: nat, ops: seq<Op>)
    requires ops != [] && Fresh(max, ops)
    ensures Fresh(max, ops[..|ops| - 1])
  {
    var init := ops[..|ops| - 1];
    forall k | 0 <= k < |init| && init[k].Record?
      ensures !HasOutcome(Run(max, init[..k]).journal.outcomes, init[k].decision.requestId)
    {
      assert ops[k] == init[k] && init[..k] == ops[..k];
    }
  }

  /** While no append has failed since the last restart, a restart gives back the live ledger. */
  lemma {:induction false} RestoreIsLive(max: nat, ops: seq<Op>)
    requires Fresh(max, ops) && !Run(max, ops).failed
    ensures Same(Restore(max, Run(max, ops).journal), Run(max, ops).ledger, Unjournaled(ops))
  {
    if ops != [] {
      var init, op := ops[..|ops| - 1], ops[|ops| - 1];
      var s := Run(max, init);
      FreshInit(max, ops);
      if !op.Restart? {
        RestoreIsLive(max, init);
      }
      match op
      case Record(d, _) =>
        RestoreDecision(max, s.journal, d);
        assert init == ops[..|init|];
        NothingSettled(d, s.journal.outcomes);
        RecordedSame(max, Restore(max, s.journal), s.ledger, d, Unjournaled(init));
        LiveIdsNamed(max, init);
      case RecordOutcome(o, _) =>
        RestoreOutcome(max, s.journal, o);
        SettledSame(Restore(max, s.journal), s.ledger, o, Unjournaled(init));
        LiveIdsNamed(max, init);
      case UpdateActual(id, backend) =>
      case Restart =>
    }
  }

  predicate HasDecision(decisions: seq<Decision>, id: string) {
    exists k :: 0 <= k < |decisions| && decisions[k].requestId == id
  }

  lemma {:induction false} RecordAllIds(max: nat, decisions: seq<Decision>, id: string)
    requires id in RecordAll(max, decisions).entries
    ensures HasDecision(decisions, id)
  {
    if decisions != [] {
      var init, d := decisions[..|decisions| - 1], decisions[|decisions| - 1];
      RecordedIds(max, RecordAll(max, init), d);
      if id != d.requestId {
        RecordAllIds(max, init, id);
        var k :| 0 <= k < |init| && init[k].requestId == id;
        assert decisions[k] == init[k];
      }
    }
  }

  lemma RecordedIds(max: nat, l: Ledger, d: Decision)
    ensures Recorded(max, l, d).entries.Keys <= l.entries.Keys + {d.requestId}
  {
    var order := if d.requestId in l.entries then l.order else l.order + [d.requestId];
    EvictShrinks(max, Ledger(order, l.entries[d.requestId := d]));
  }

  lemma {:induction false} SettleAllIds(l: Ledger, outcomes: seq<Outcome>)
    ensures SettleAll(l, outcomes).entries.Keys == l.entries.Keys
  {
    hide Settle;
    if outcomes != [] {
      SettleAllIds(l, outcomes[..|outcomes| - 1]);
    }
  }

  lemma {:induction false} LiveIdsNamed(max: nat, ops: seq<Op>)
    ensures "" !in Run(max, ops).ledger.entries && !HasDecision(Run(max, ops).journal.decisions, "")
  {
    hide Recorded;
    if ops != [] {
      var s, op := Run(max, ops[..|ops| - 1]), ops[|ops| - 1];
      LiveIdsNamed(max, ops[..|ops| - 1]);
      match op
      case Record(d, _) => RecordedIds(max, s.ledger, d);
      case RecordOutcome(o, _) =>
      case UpdateActual(id, backend) =>
      case Restart =>
        SettleAllIds(RecordAll(max, s.journal.decisions), s.journal.outcomes);
        if "" in Run(max, ops).ledger.entries {
          RecordAllIds(max, s.journal.decisions, "");
        }
    }
  }

  /** Without UpdateActual the restored ledger is the live one. */
  lemma {:induction false} NothingUnjournaled(ops: seq<Op>)
    requires forall k :: 0 <= k < |ops| ==> !ops[k].UpdateActual?
    ensures Unjournaled(ops) == {}
  {
    if ops != [] {
      NothingUnjournaled(ops[..|ops| - 1]);
    }
  }

  lemma RestoreIsExact(max: nat, ops: seq<Op>)
    requires UniqueIds(ops) && !Run(max, ops).failed
    requires forall k :: 0 <= k < |ops| ==> !ops[k].UpdateActual?
    ensures Restore(max, Run(max, ops).journal) == Run(max, ops).ledger
  {
    UniqueIsFresh(max, ops);
    RestoreIsLive(max, ops);
    NothingUnjournaled(ops);
  }

  /** Whatever fails, a restart gives back the live ledger of the moment before the first failing append. */
  lemma {:induction false} RestoreIsLiveBeforeFailure(max: nat, ops: seq<Op>) returns (k: nat)
    requires Fresh(max, ops)
    ensures k <= |ops| && !Run(max, ops[..k]).failed
    ensures Run(max, ops).journal == Run(max, ops[..k]).journal
    ensures Same(Restore(max, Run(max, ops).journal), Run(max, ops[..k]).ledger, Unjournaled(ops[..k]))
    ensures k < |ops| ==> Run(max, ops[..k + 1]).failed
  {
    if !Run(max, ops).failed {
      k := |ops|;
      assert ops[..k] == ops;
      RestoreIsLive(max, ops);
    } else {
      var init := ops[..|ops| - 1];
      FreshInit(max, ops);
      k := RestoreIsLiveBeforeFailure(max, init);
      assert init[..k] == ops[..k];
      if k < |init| {
        assert init[..k + 1] == ops[..k + 1];
      } else {
        assert init[..k] == init && ops[..k + 1] == ops;
      }
    }
  }

  lemma {:induction false} OutcomesWereRecorded(max: nat, ops: seq<Op>, id: string)
    requires var s := Run(max, ops);
             HasOutcome(s.journal.outcomes, id) || HasDecision(s.journal.decisions, id) || id in s.ledger.entries
    ensures exists k :: 0 <= k < |ops| && ops[k].Record? && ops[k].decision.requestId == id
  {
    hide Recorded;
    if ops != [] {
      var init, op := ops[..|ops| - 1], ops[|ops| - 1];
      var s := Run(max, init);
      if !(op.Record? && op.decision.requestId == id) {
        assert HasOutcome(s.journal.outcomes, id) || HasDecision(s.journal.decisions, id) || id in s.ledger.entries by {
          match op
          case Record(d, _) => RecordedIds(max, s.ledger, d);
          case RecordOutcome(o, _) =>
          case UpdateActual(_, backend) =>
          case Restart =>
            SettleAllIds(RecordAll(max, s.journal.decisions), s.journal.outcomes);
            if id in Run(max, ops).ledger.entries {
              RecordAllIds(max, s.journal.decisions, id);
            }
        }
        OutcomesWereRecorded(max, init, id);
        var k :| 0 <= k < |init| && init[k].Record? && init[k].decision.requestId == id;
        assert ops[k] == init[k];
      }
    }
  }

  lemma {:induction false} EvictShrinks(max: nat, l: Ledger)
    ensures Evict(max, l).entries.Keys <= l.entries.Keys
    decreases |l.order|
  {
    if |l.order| > max {
      EvictShrinks(max, Ledger(l.order[1..], l.entries - {l.order[0]}));
    }
  }

  /** Unique request IDs are enough. */
  lemma UniqueIsFresh(max: nat, ops: seq<Op>)
    requires UniqueIds(ops)
    ensures Fresh(max, ops)
  {
    forall k | 0 <= k < |ops| && ops[k].Record?
      ensures !HasOutcome(Run(max, ops[..k]).journal.outcomes, ops[k].decision.requestId)
    {
      if HasOutcome(Run(max, ops[..k]).journal.outcomes, ops[k].decision.requestId) {
        OutcomesWereRecorded(max, ops[..k], ops[k].decision.requestId);
      }
    }
  }

  // ---- a decision recorded again ----

  lemma {:induction false} NewestKept(max: nat, l: Ledger)
    requires max > 0 && l.order != [] && forall i :: 0 <= i < |l.order| - 1 ==> l.order[i] != l.order[|l.order| - 1]
    requires l.order[|l.order| - 1] in l.entries
    ensures var id := l.order[|l.order| - 1]; id in Evict(max, l).entries && Evict(max, l).entries[id] == l.entries[id]
    decreases |l.order|
  {
    if |l.order| > max {
      NewestKept(max, Ledger(l.order[1..], l.entries - {l.order[0]}));
    }
  }

  lemma RecordedPresent(max: nat, l: Ledger, d: Decision)
    requires max > 0 && WellFormed(max, l)
    ensures d.requestId in Recorded(max, l, d).entries && Recorded(max, l, d).entries[d.requestId] == d
  {
    if d.requestId !in l.entries {
      NewestKept(max, Ledger(l.order + [d.requestId], l.entries[d.requestId := d]));
    }
  }

  /**
   After a fresh run a further decision is restored faithfully, exactly when
   the journaled outcomes of its request leave it as it is.
   */
  lemma RecordAgainIff(max: nat, ops: seq<Op>, d: Decision)
    requires max > 0 && Fresh(max, ops) && !Run(max, ops).failed && d.requestId != ""
    ensures var s := Run(max, ops + [Record(d, false)]);
            Same(Restore(max, s.journal), s.ledger, Unjournaled(ops + [Record(d, false)])) <==>
            SettledBy(d, Run(max, ops).journal.outcomes) == d
  {
    hide Recorded;
    hide Restore;
    var s := Run(max, ops);
    var except := Unjournaled(ops);
    SnocInit(ops, Record(d, false));
    assert Unjournaled(ops + [Record(d, false)]) == except - {d.requestId};
    RestoreIsLive(max, ops);
    RestoreDecision(max, s.journal, d);
    var e := SettledBy(d, s.journal.outcomes);
    RestoredWellFormed(max, s.journal);
    LiveWellFormed(max, ops);
    RecordedPresent(max, Restore(max, s.journal), e);
    RecordedPresent(max, s.ledger, d);
    if e == d {
      RecordedSame(max, Restore(max, s.journal), s.ledger, d, except);
    }
  }

  lemma RestoredWellFormed(max: nat, journal: Journal)
    ensures WellFormed(max, Restore(max, journal))
  {
    RecordAllWellFormed(max, journal.decisions);
    SettleAllWellFormed(max, RecordAll(max, journal.decisions), journal.outcomes);
  }

  /** The backend that the last outcome of a request names. */
  function LastBackend(outcomes: seq<Outcome>, id: string, none: string): string {
    if outcomes == [] then none
    else if outcomes[|outcomes| - 1].requestId == id then outcomes[|outcomes| - 1].actualBackend
    else LastBackend(outcomes[..|outcomes| - 1], id, none)
  }

  /** No outcome of the request carries data. */
  predicate OnlyBlank(outcomes: seq<Outcome>, id: string) {
    outcomes == [] ||
    (OnlyBlank(outcomes[..|outcomes| - 1], id) &&
     (outcomes[|outcomes| - 1].requestId == id ==> Blank(outcomes[|outcomes| - 1])))
  }

  lemma {:induction false} SettledBlank(d: Decision, outcomes: seq<Outcome>)
    ensures OnlyBlank(outcomes, d.requestId) ==>
              SettledBy(d, outcomes) == d.(actualSelected := LastBackend(outcomes, d.requestId, d.actualSelected))
    ensures !OnlyBlank(outcomes, d.requestId) ==> SettledBy(d, outcomes).outcome.Some?
  {
    if outcomes != [] {
      SettledBlank(d, outcomes[..|outcomes| - 1]);
    }
  }

  /**
   For a decision as the router makes it, without an outcome: recording it
   again is restored faithfully, exactly when no outcome with data was journaled
   for its request and the last blank one names the backend it carries.
   */
  lemma RecordPlainAgainIff(max: nat, ops: seq<Op>, d: Decision)
    requires max > 0 && Fresh(max, ops) && !Run(max, ops).failed && d.requestId != "" && d.outcome.None?
    ensures var s := Run(max, ops + [Record(d, false)]);
            var outcomes := Run(max, ops).journal.outcomes;
            Same(Restore(max, s.journal), s.ledger, Unjournaled(ops + [Record(d, false)])) <==>
            OnlyBlank(outcomes, d.requestId) &&
            LastBackend(outcomes, d.requestId, d.actualSelected) == d.actualSelected
  {
    hide Run;
    hide Restore;
    hide Same;
    RecordAgainIff(max, ops, d);
    SettledBlank(d, Run(max, ops).journal.outcomes);
  }

  lemma {:induction false} LiveWellFormed(max: nat, ops: seq<Op>)
    ensures WellFormed(max, Run(max, ops).ledger)
  {
    if ops != [] {
      var s, op := Run(max, ops[..|ops| - 1]), ops[|ops| - 1];
      LiveWellFormed(max, ops[..|ops| - 1]);
      match op
      case Record(d, _) => RecordedWellFormed(max, s.ledger, d);
      case RecordOutcome(o, _) => SettledWellFormed(max, s.ledger, o);
      case UpdateActual(id, backend) =>
      case Restart => RestoredWellFormed(max, s.journal);
    }
  }

  // ---- what an outcome does to its decision ----

  /** The first candidate of the backend that served. */
  ghost predicate FirstOf(candidates: seq<Candidate>, backendId: string, k: int) {
    0 <= k < |candidates| && candidates[k].backendId == backendId &&
    forall j :: 0 <= j < k ==> candidates[j].backendId != backendId
  }

  ghost predicate Listed(candidates: seq<Candidate>, backendId: string) {
    exists c :: c in candidates && c.backendId == backendId
  }

  lemma {:induction false} CandidateForIs(candidates: seq<Candidate>, backendId: string)
    ensures CandidateFor(candidates, backendId).Some? <==> Listed(candidates, backendId)
    ensures match CandidateFor(candidates, backendId)
            case None => true
            case Some(c) => exists k :: FirstOf(candidates, backendId, k) && candidates[k] == c
  {
    if candidates != [] {
      HeadAndTail(candidates);
      if candidates[0].backendId == backendId {
        assert FirstOf(candidates, backendId, 0);
      } else {
        CandidateForIs(candidates[1..], backendId);
        if CandidateFor(candidates[1..], backendId).Some? {
          var k :| FirstOf(candidates[1..], backendId, k) && candidates[1..][k] == CandidateFor(candidates[1..], backendId).value;
          assert forall j :: 0 < j < k + 1 ==> candidates[j] == candidates[1..][j - 1];
          assert FirstOf(candidates, backendId, k + 1);
        }
        assert Listed(candidates, backendId) ==> Listed(candidates[1..], backendId);
      }
    }
  }

  /** The difference of what was measured and what the candidate promised. */
  ghost predicate ErrorAgainst(e: PredictionError, c: Candidate, o: Outcome) {
    && e.predictorVersion == c.predictorVersion && e.evidenceQuality == c.evidenceQuality
    && e.predictedTtftMs == c.predictedTtftMs && e.actualTtftMs == o.ttftMs
    && e.predictedTtftMs + e.signedMs == e.actualTtftMs
    && e.absoluteMs >= 0.0 && (e.absoluteMs == e.signedMs || e.absoluteMs == -e.signedMs)
    && (e.cache.Some? <==> o.observedCacheHitRatio.Some?)
    && (e.cache.Some? ==>
          && e.cache.value.predicted == c.prefixMatch && e.cache.value.actual == o.observedCacheHitRatio.value
          && e.cache.value.absolute >= 0.0
          && (e.cache.value.predicted + e.cache.value.absolute == e.cache.value.actual ||
              e.cache.value.predicted - e.cache.value.absolute == e.cache.value.actual))
  }

  /** An outcome that says nothing but which backend it was. */
  predicate SaysNothing(o: Outcome) {
    o == Outcome(o.requestId, o.actualBackend, 0.0, 0.0, o.success, 0, o.observedCacheHitRatio, None)
  }

  /**
   What a known outcome makes of the decision it belongs to: the backend that
   served is on record, and the outcome itself unless it says nothing; the
   prediction is measured, against the first candidate of the backend that
   served, if the request succeeded with a first token, and else left as it was.
   */
  ghost predicate SettledAs(d: Decision, o: Outcome, t: Decision) {
    && t.requestId == d.requestId && t.selected == d.selected && t.candidates == d.candidates
    && t.actualSelected == o.actualBackend
    && t.outcome == (if SaysNothing(o) then d.outcome else Some(o))
    && (if !SaysNothing(o) && o.success && o.ttftMs > 0.0 && Listed(d.candidates, o.actualBackend) then
          exists k :: FirstOf(d.candidates, o.actualBackend, k) && t.predictorVersion == d.candidates[k].predictorVersion &&
                      t.predictionError.Some? && ErrorAgainst(t.predictionError.value, d.candidates[k], o)
        else t.predictionError == d.predictionError && t.predictorVersion == d.predictorVersion)
  }

  lemma SettleIs(d: Decision, o: Outcome)
    ensures SettledAs(d, o, Settle(d, o))
  {
    hide CandidateFor;
    CandidateForIs(d.candidates, o.actualBackend);
    match CandidateFor(d.candidates, o.actualBackend)
    case None =>
    case Some(c) =>
      var k :| FirstOf(d.candidates, o.actualBackend, k) && d.candidates[k] == c;
      assert ErrorAgainst(ErrorOf(c, o), c, o);
  }

  /** In every run an outcome settles the decision of its request as just told, and no other one. */
  lemma OutcomeSettles(max: nat, ops: seq<Op>, o: Outcome, fails: bool)
    requires o.requestId != ""
    ensures var before, after := Run(max, ops).ledger, Run(max, ops + [RecordOutcome(o, fails)]).ledger;
            && after.order == before.order && after.entries.Keys == before.entries.Keys
            && (forall id :: id in before.entries && id != o.requestId ==> after.entries[id] == before.entries[id])
            && (o.requestId in before.entries ==> SettledAs(before.entries[o.requestId], o, after.entries[o.requestId]))
  {
    hide Settle;
    hide SettledAs;
    SnocInit(ops, RecordOutcome(o, fails));
    var before := Run(max, ops).ledger;
    if o.requestId in before.entries {
      SettleIs(before.entries[o.requestId], o);
    }
  }

  // ---- the ledger as the gateway keeps it ----

  /** Two append-only logs; an append may fail. */
  class DecisionJournal {
    var decisions: seq<Decision>
    var outcomes: seq<Outcome>

    function View(): Journal
      reads this
    {
      Journal(decisions, outcomes)
    }

    constructor (decisions: seq<Decision>, outcomes: seq<Outcome>)
      ensures View() == Journal(decisions, outcomes)
    {
      this.decisions, this.outcomes := decisions, outcomes;
    }

    method AppendDecision(d: Decision, fails: bool) returns (ok: bool)
      modifies `decisions
      ensures ok == !fails && decisions == if fails then old(decisions) else old(decisions) + [d]
    {
      if !fails {
        decisions := decisions + [d];
      }
      ok := !fails;
    }

    method AppendOutcome(o: Outcome, fails: bool) returns (ok: bool)
      modifies `outcomes
      ensures ok == !fails && outcomes == if fails then old(outcomes) else old(outcomes) + [o]
    {
      if !fails {
        outcomes := outcomes + [o];
      }
      ok := !fails;
    }
  }

  class LiveLedger {
    const max: nat
    const journal: DecisionJournal
    var order: seq<string>
    var entries: map<string, Decision>
    var failed: bool

    ghost function View(): System
      reads this, journal
    {
      System(Ledger(order, entries), journal.View(), failed)
    }

    /** A restart: every journaled decision, then every journaled outcome. */
    constructor (limit: int, journal: DecisionJournal)
      ensures max == (if limit <= 0 then 4096 else limit) && this.journal == journal
      ensures View() == System(Restore(max, journal.View()), journal.View(), false)
    {
      max := if limit <= 0 then 4096 else limit;
      this.journal := journal;
      order, entries, failed := [], map[], false;
      new;
      for k := 0 to |journal.decisions|
        invariant Ledger(order, entries) == RecordAll(max, journal.decisions[..k])
        invariant journal.View() == old(journal.View()) && !failed
      {
        assert journal.decisions[..k + 1][..k] == journal.decisions[..k];
        RecordLocked(journal.decisions[k]);
      }
      assert journal.decisions[..|journal.decisions|] == journal.decisions;
      ghost var recorded := Ledger(order, entries);
      for k := 0 to |journal.outcomes|
        invariant Ledger(order, entries) == SettleAll(recorded, journal.outcomes[..k])
        invariant journal.View() == old(journal.View()) && !failed
      {
        assert journal.outcomes[..k + 1][..k] == journal.outcomes[..k];
        var _ := RecordOutcomeLocked(journal.outcomes[k]);
      }
      assert journal.outcomes[..|journal.outcomes|] == journal.outcomes;
    }

    method RecordLocked(d: Decision)
      modifies `order, `entries
      ensures Ledger(order, entries) == Recorded(max, old(Ledger(order, entries)), d)
    {
      if d.requestId !in entries {
        order := order + [d.requestId];
      }
      entries := entries[d.requestId := d];
      ghost var grown := Ledger(order, entries);
      while |order| > max
        invariant Evict(max, Ledger(order, entries)) == Evict(max, grown)
        decreases |order|
      {
        entries := entries - {order[0]};
        order := order[1..];
      }
    }

    method RecordOutcomeLocked(o: Outcome) returns (known: bool)
      modifies `entries
      ensures known == (o.requestId in old(entries))
      ensures Ledger(order, entries) == Settled(old(Ledger(order, entries)), o)
    {
      if o.requestId !in entries {
        return false;
      }
      var d := entries[o.requestId];
      d := d.(actualSelected := o.actualBackend);
      if Blank(o) {
        entries := entries[o.requestId := d];
        return true;
      }
      d := d.(outcome := Some(o));
      match CandidateFor(d.candidates, o.actualBackend) {
        case Some(c) =>
          if o.success && o.ttftMs > 0.0 {
            d := d.(predictorVersion := c.predictorVersion, predictionError := Some(ErrorOf(c, o)));
          }
        case None =>
      }
      entries := entries[o.requestId := d];
      known := true;
    }

    method Record(d: Decision, fails: bool)
      modifies this, journal
      ensures View() == Apply(max, old(View()), Op.Record(d, fails))
    {
      if d.requestId == "" {
        return;
      }
      RecordLocked(d);
      if !failed {
        var ok := journal.AppendDecision(d, fails);
        failed := !ok;
      }
    }

    method RecordOutcome(o: Outcome, fails: bool)
      modifies this, journal
      ensures View() == Apply(max, old(View()), Op.RecordOutcome(o, fails))
    {
      if o.requestId == "" {
        return;
      }
      var known := RecordOutcomeLocked(o);
      if known && !failed {
        var ok := journal.AppendOutcome(o, fails);
        failed := !ok;
      }
    }

    method UpdateActual(id: string, backend: string)
      modifies `entries
      ensures View() == Apply(max, old(View()), Op.UpdateActual(id, backend))
    {
      if id !in entries {
        return;
      }
      entries := entries[id := entries[id].(actualSelected := backend)];
    }

    /** The newest decisions, newest first. */
    method Recent(limit: int) returns (output: seq<Decision>)
      requires WellFormed(max, Ledger(order, entries))
      ensures var n := if limit <= 0 || limit > 1000 then 20 else limit;
              |output| == if n < |order| then n else |order|
      ensures forall k :: 0 <= k < |output| ==> output[k].requestId == order[|order| - 1 - k]
      ensures forall k :: 0 <= k < |output| ==> order[|order| - 1 - k] in entries
                                                && output[k] == entries[order[|order| - 1 - k]]
    {
      var n := if limit <= 0 || limit > 1000 then 20 else limit;
      output := [];
      var index := |order| - 1;
      while index >= 0 && |output| < n
        invariant -1 <= index < |order| && |output| == |order| - 1 - index <= n
        invariant forall k :: 0 <= k < |output| ==> order[|order| - 1 - k] in entries
                                                    && output[k] == entries[order[|order| - 1 - k]]
      {
        assert order[index] in order;
        output := output + [entries[order[index]]];
        index := index - 1;
      }
    }
  }
}
