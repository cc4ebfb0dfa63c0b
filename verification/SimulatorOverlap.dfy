/**
 How many requests the simulator really lets run at once: never more than the
 slots, if and only if the requests are admitted in their order.
 */
module SimulatorOverlap {
  import opened Common
  import opened WorkloadSimulator

  ghost function LastService(c: Config, policy: Policy, trace: seq<Signature>): Service
    requires ValidConfig(c) && ValidTrace(trace) && trace != []
  {
    var n := |trace| - 1;
    ServiceOf(c, policy, After(c, policy, trace[..n]), trace[n], n)
  }

  ghost function LastAdmitted(c: Config, policy: Policy, trace: seq<Signature>): real
    requires ValidConfig(c) && ValidTrace(trace)
  {
    if trace == [] then 0.0 else LastService(c, policy, trace).admitted
  }

  /** No request is admitted earlier than the one before it. */
  ghost predicate InOrder(c: Config, policy: Policy, trace: seq<Signature>)
    requires ValidConfig(c) && ValidTrace(trace)
  {
    trace == [] ||
    (var init := trace[..|trace| - 1];
     InOrder(c, policy, init) && LastAdmitted(c, policy, init) <= LastAdmitted(c, policy, trace))
  }

  /** How many requests are admitted and not finished at `t`. */
  ghost function Overlap(c: Config, policy: Policy, trace: seq<Signature>, t: real): nat
    requires ValidConfig(c) && ValidTrace(trace)
  {
    if trace == [] then 0
    else
      var v := LastService(c, policy, trace);
      Overlap(c, policy, trace[..|trace| - 1], t) + if v.admitted <= t < v.end then 1 else 0
  }

  // ---- what is still to finish, counted ----

  lemma AllLater(values: seq<real>, t: real)
    requires forall x :: x in values ==> x > t
    ensures |Later(values, t)| == |values|
  {
    hide Later;
    var p, q := multiset(Later(values, t)), multiset(values);
    forall x ensures p[x] == q[x] {
      LaterCounts(values, t, x);
      assert x in q <==> x in values;
    }
    assert p == q;
  }

  /** From the admission on, nothing that still runs is forgotten. */
  lemma AdmissionForgetsNothing(max: nat, active: seq<real>, arrival: real, t: real)
    requires max > 0 && t >= Admit(max, active, arrival).time
    ensures |Later(Admit(max, active, arrival).active, t)| == |Later(active, t)|
  {
    hide Later;
    hide Sorted;
    var a := Admit(max, active, arrival);
    var waiting := Later(active, arrival);
    AdmittedLate(max, active, arrival);
    forall x | x > t ensures multiset(a.active)[x] == multiset(active)[x] {
      LaterCounts(active, arrival, x);
      if |waiting| >= max {
        SortedIs(waiting);
        LaterCounts(Sorted(waiting), a.time, x);
      }
    }
    SameCountsLater(a.active, active, t);
  }

  /** Whoever waits, waits for the first of at least `max` finishing times. */
  lemma AdmittedLate(max: nat, active: seq<real>, arrival: real)
    requires max > 0
    ensures var a := Admit(max, active, arrival);
            && a.time >= arrival && (forall x :: x in a.active ==> x > a.time)
            && (|Later(active, arrival)| < max ==> a.time == arrival)
            && (|Later(active, arrival)| >= max ==> a.time in Later(active, arrival))
            && (|Later(active, arrival)| >= max ==> forall x :: x in Later(active, arrival) ==> x >= a.time)
            && forall t :: arrival <= t < a.time ==> |Later(active, t)| >= max
  {
    hide Later;
    hide Sorted;
    var a := Admit(max, active, arrival);
    var waiting := Later(active, arrival);
    LaterShrinks(active, arrival);
    if |waiting| >= max {
      var sorted := Sorted(waiting);
      SortedIs(waiting);
      LaterShrinks(sorted, sorted[0]);
      assert sorted[0] in sorted;
      forall x ensures x in sorted <==> x in waiting {
        assert x in multiset(sorted) <==> x in multiset(waiting);
      }
      forall t | arrival <= t < a.time ensures |Later(active, t)| >= max {
        AllLater(waiting, t);
        forall x | x > t ensures multiset(waiting)[x] == multiset(active)[x] {
          LaterCounts(active, arrival, x);
        }
        SameCountsLater(waiting, active, t);
      }
    }
  }

  // ---- the slots are what runs, while admissions are in order ----

  lemma LaterSnoc(values: seq<real>, x: real, t: real)
    ensures |Later(values + [x], t)| == |Later(values, t)| + if x > t then 1 else 0
  {
    SnocInit(values, x);
  }

  /** The parts of a step that admission is about. */
  lemma StepAdmits(c: Config, policy: Policy, trace: seq<Signature>)
    requires ValidConfig(c) && ValidTrace(trace) && trace != []
    ensures var n := |trace| - 1;
            var s, t := After(c, policy, trace[..n]), After(c, policy, trace);
            var a := Admit(c.maxConcurrency, s.active, t.arrival);
            var v := LastService(c, policy, trace);
            && t.arrival == s.arrival + trace[n].arrivalDelta >= s.arrival
            && v.admitted == a.time && v.end > v.admitted && t.active == a.active + [v.end]
  {
    hide Admit;
    hide Route;
    hide Millis;
    hide Ttft;
    hide Cached;
    var n := |trace| - 1;
    ServiceFollows(c, policy, After(c, policy, trace[..n]), trace[n], n);
  }

  /** From the last admission on the slots count what runs; between the last arrival and it all slots are taken. */
  lemma {:induction false} SlotsCount(c: Config, policy: Policy, trace: seq<Signature>, t: real)
    requires ValidConfig(c) && ValidTrace(trace) && InOrder(c, policy, trace)
    ensures var s := After(c, policy, trace);
            && (t >= LastAdmitted(c, policy, trace) ==> Overlap(c, policy, trace, t) == |Later(s.active, t)|)
            && (s.arrival <= t < LastAdmitted(c, policy, trace) ==> Overlap(c, policy, trace, t) >= c.maxConcurrency)
  {
    hide Step;
    hide Later;
    hide Admit;
    hide ServiceOf;
    if trace == [] {
      assert Later([], t) == [] by { LaterShrinks([], t); }
    } else {
      hide After;
      var init := trace[..|trace| - 1];
      var s, u := After(c, policy, init), After(c, policy, trace);
      SlotsCount(c, policy, init, t);
      StepAdmits(c, policy, trace);
      AdmittedLate(c.maxConcurrency, s.active, u.arrival);
      var a := Admit(c.maxConcurrency, s.active, u.arrival);
      if t >= a.time {
        AdmissionForgetsNothing(c.maxConcurrency, s.active, u.arrival, t);
        LaterSnoc(a.active, LastService(c, policy, trace).end, t);
      }
    }
  }

  lemma {:induction false} OrderedOverlap(c: Config, policy: Policy, trace: seq<Signature>, t: real)
    requires ValidConfig(c) && ValidTrace(trace) && InOrder(c, policy, trace)
    ensures Overlap(c, policy, trace, t) <= c.maxConcurrency
  {
    hide After;
    hide LastService;
    hide Accounted;
    if trace != [] {
      OrderedOverlap(c, policy, trace[..|trace| - 1], t);
      if t >= LastAdmitted(c, policy, trace) {
        SlotsCount(c, policy, trace, t);
        Accounts(c, policy, trace);
        LaterShrinks(After(c, policy, trace).active, t);
      }
    }
  }

  /** Where an admission goes back, one request too many runs. */
  lemma BackIsTooMany(c: Config, policy: Policy, trace: seq<Signature>)
    requires ValidConfig(c) && ValidTrace(trace) && trace != []
    requires InOrder(c, policy, trace[..|trace| - 1]) && !InOrder(c, policy, trace)
    ensures Overlap(c, policy, trace, LastAdmitted(c, policy, trace)) > c.maxConcurrency
  {
    hide After;
    hide Admit;
    hide ServiceOf;
    var init := trace[..|trace| - 1];
    var t := LastAdmitted(c, policy, trace);
    StepAdmits(c, policy, trace);
    AdmittedLate(c.maxConcurrency, After(c, policy, init).active, After(c, policy, trace).arrival);
    SlotsCount(c, policy, init, t);
  }

  lemma {:induction false} SomeTooMany(c: Config, policy: Policy, trace: seq<Signature>) returns (t: real)
    requires ValidConfig(c) && ValidTrace(trace) && !InOrder(c, policy, trace)
    ensures Overlap(c, policy, trace, t) > c.maxConcurrency
  {
    var init := trace[..|trace| - 1];
    if InOrder(c, policy, init) {
      BackIsTooMany(c, policy, trace);
      t := LastAdmitted(c, policy, trace);
    } else {
      t := SomeTooMany(c, policy, init);
    }
  }

  /**
   The concurrency limit holds at every moment of a simulation, if and only if
   no request is admitted earlier than the one before it.
   */
  lemma OverlapBoundedIff(c: Config, policy: Policy, trace: seq<Signature>)
    requires ValidConfig(c) && ValidTrace(trace)
    ensures (forall t :: Overlap(c, policy, trace, t) <= c.maxConcurrency) <==> InOrder(c, policy, trace)
  {
    hide InOrder;
    hide Overlap;
    if InOrder(c, policy, trace) {
      forall t ensures Overlap(c, policy, trace, t) <= c.maxConcurrency {
        OrderedOverlap(c, policy, trace, t);
      }
    } else {
      var t := SomeTooMany(c, policy, trace);
    }
  }

  // ---- when an admission goes back ----

  /**
   A request is admitted before its predecessor, exactly when it arrives while
   the predecessor still waits and that wait freed more than one slot.
   */
  lemma AdmittedBackIff(c: Config, policy: Policy, trace: seq<Signature>)
    requires ValidConfig(c) && ValidTrace(trace) && |trace| >= 2
    ensures var init := trace[..|trace| - 1];
            LastAdmitted(c, policy, trace) < LastAdmitted(c, policy, init) <==>
            After(c, policy, trace).arrival < LastAdmitted(c, policy, init) &&
            |After(c, policy, init).active| < c.maxConcurrency
  {
    hide After;
    hide Admit;
    hide ServiceOf;
    hide Later;
    var init := trace[..|trace| - 1];
    var s := After(c, policy, init);
    var arrival := After(c, policy, trace).arrival;
    StepAdmits(c, policy, init);
    StepAdmits(c, policy, trace);
    var first := init[..|init| - 1];
    AdmittedLate(c.maxConcurrency, After(c, policy, first).active, s.arrival);
    AdmittedLate(c.maxConcurrency, s.active, arrival);
    Accounts(c, policy, init);
    LaterShrinks(s.active, arrival);
    if arrival < LastAdmitted(c, policy, init) {
      AllLater(s.active, arrival);
    }
  }

  // ---- an input that exceeds the limit ----

  const TWO_SLOTS := Config(2, 0.0, 2, Strict, 1000.0, 1000.0, 1000.0)

  const SHORT := Signature(1, 0, "", 0, 0.0, "m")

  lemma LaterOfTwo(x: real, y: real, t: real)
    ensures Later([], t) == [] && Later([x], t) == if x > t then [x] else []
    ensures Later([x, y], t) == (if x > t then [x] else []) + if y > t then [y] else []
  {
    assert [x, y][..1] == [x] && [x][..0] == [];
  }

  lemma SortedOfTwo(x: real)
    ensures Sorted([x, x]) == [x, x]
  {
    assert [x, x][..1] == [x] && [x][..0] == [];
  }

  /** On an idle backend the short request takes nine milliseconds. */
  lemma ShortStep(s: Sim, index: nat)
    requires Fits(TWO_SLOTS, s) && s.arrival == 0.0
    requires var a := Admit(2, s.active, 0.0); s.available[index % 2] <= a.time
    ensures var a := Admit(2, s.active, 0.0);
            var t := Step(TWO_SLOTS, RoundRobin, s, SHORT, index);
            && t.active == a.active + [a.time + 9.0] && t.arrival == 0.0
            && t.available == s.available[index % 2 := a.time + 9.0]
  {
    hide Admit;
    assert Millis(1, 1000.0) == 1.0 && Millis(0, 1000.0) == 0.0;
  }

  lemma TieStates(trace: seq<Signature>)
    requires trace == [SHORT, SHORT, SHORT, SHORT] && ValidTrace(trace)
    ensures After(TWO_SLOTS, RoundRobin, trace[..2]).active == [9.0, 9.0]
    ensures After(TWO_SLOTS, RoundRobin, trace[..2]).available == [9.0, 9.0]
    ensures After(TWO_SLOTS, RoundRobin, trace[..2]).arrival == 0.0
  {
    hide Step;
    hide After;
    hide Later;
    var c := TWO_SLOTS;
    AfterNothing(c, RoundRobin, trace);
    AfterOne(c, RoundRobin, trace, 0);
    AfterOne(c, RoundRobin, trace, 1);
    LaterOfTwo(9.0, 9.0, 0.0);
    ShortStep(After(c, RoundRobin, trace[..0]), 0);
    assert After(c, RoundRobin, trace[..1]).active == [9.0];
    ShortStep(After(c, RoundRobin, trace[..1]), 1);
  }

  /** Two requests end together, a third waits for them, and a fourth is let in at once. */
  lemma TieExceedsLimit() returns (trace: seq<Signature>, t: real)
    ensures trace == [SHORT, SHORT, SHORT, SHORT] && ValidTrace(trace)
    ensures Overlap(TWO_SLOTS, RoundRobin, trace, t) > TWO_SLOTS.maxConcurrency
  {
    hide Step;
    hide After;
    hide Later;
    hide Sorted;
    hide ServiceOf;
    hide InOrder;
    var c := TWO_SLOTS;
    trace := [SHORT, SHORT, SHORT, SHORT];
    TieStates(trace);
    AfterOne(c, RoundRobin, trace, 2);
    AfterOne(c, RoundRobin, trace, 3);
    LaterOfTwo(9.0, 9.0, 0.0);
    LaterOfTwo(9.0, 9.0, 9.0);
    SortedOfTwo(9.0);
    assert Later([9.0, 9.0], 0.0) == [9.0, 9.0] && Later([9.0, 9.0], 9.0) == [];
    assert Admit(2, [9.0, 9.0], 0.0) == Admission(9.0, []);
    ShortStep(After(c, RoundRobin, trace[..2]), 2);
    var init := trace[..3];
    assert init[..2] == trace[..2] && trace[..4] == trace;
    StepAdmits(c, RoundRobin, init);
    StepAdmits(c, RoundRobin, trace);
    assert LastAdmitted(c, RoundRobin, init) == 9.0;
    assert After(c, RoundRobin, init).active == [18.0];
    assert After(c, RoundRobin, trace).arrival == 0.0;
    AdmittedBackIff(c, RoundRobin, trace);
    assert !InOrder(c, RoundRobin, trace) by {
      BackIsUnordered(c, RoundRobin, trace);
    }
    t := SomeTooMany(c, RoundRobin, trace);
  }

  lemma BackIsUnordered(c: Config, policy: Policy, trace: seq<Signature>)
    requires ValidConfig(c) && ValidTrace(trace) && trace != []
    requires LastAdmitted(c, policy, trace) < LastAdmitted(c, policy, trace[..|trace| - 1])
    ensures !InOrder(c, policy, trace)
  {
    hide LastAdmitted;
  }
}
