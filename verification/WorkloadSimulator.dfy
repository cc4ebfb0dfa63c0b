/**
 The offline workload simulator: requests of a trace are admitted, routed to one
 of several backends and served one at a time there. Times in milliseconds.
 */
module WorkloadSimulator {
  import opened Common
  import opened Recency

  datatype Signature = Signature(
    promptTokens: int, outputTokens: int, prefixHash: string, prefixTokens: int, arrivalDelta: real, model: string)

  /** What reading a trace line accepts. */
  predicate ValidSignature(g: Signature) {
    g.promptTokens > 0 && g.outputTokens >= 0 && 0 <= g.prefixTokens <= g.promptTokens &&
    (g.prefixTokens > 0 ==> g.prefixHash != "") && g.arrivalDelta >= 0.0
  }

  datatype EvidenceQuality = Strict | Estimated | Fallback | Missing

  datatype Config = Config(
    backends: nat, minHitRatio: real, maxConcurrency: nat, evidence: EvidenceQuality, sloMs: real,
    prefillRate: real, decodeRate: real)

  predicate ValidConfig(c: Config) {
    c.backends >= 1 && c.maxConcurrency >= 1 && 0.0 <= c.minHitRatio <= 1.0 && c.sloMs > 0.0 &&
    c.prefillRate > 0.0 && c.decodeRate > 0.0
  }

  datatype Policy = RoundRobin | LoadAware | KvV1 | KvV2

  /** The state between two requests. */
  datatype Sim = Sim(
    available: seq<real>, routes: seq<nat>, owner: map<string, nat>, active: seq<real>, arrival: real, finish: real,
    ttfts: seq<real>, shared: int, reused: int, violations: nat)

  ghost predicate Fits(c: Config, s: Sim) {
    |s.available| == c.backends && |s.routes| == c.backends && forall key :: key in s.owner ==> s.owner[key] < c.backends
  }

  // ---- admission ----

  /** The finishing times after `time`, in their order. */
  function Later(values: seq<real>, time: real): seq<real> {
    if values == [] then []
    else
      var init := Later(values[..|values| - 1], time);
      if values[|values| - 1] > time then init + [values[|values| - 1]] else init
  }

  function Inserted(x: real, sorted: seq<real>): (r: seq<real>)
    ensures |r| == |sorted| + 1
    ensures r[0] == if sorted == [] || x <= sorted[0] then x else sorted[0]
  {
    if sorted == [] || x <= sorted[0] then [x] + sorted else [sorted[0]] + Inserted(x, sorted[1..])
  }

  function Sorted(values: seq<real>): (r: seq<real>)
    ensures |r| == |values|
  {
    if values == [] then [] else Inserted(values[|values| - 1], Sorted(values[..|values| - 1]))
  }

  ghost predicate Ascending(values: seq<real>) {
    forall i, j :: 0 <= i < j < |values| ==> values[i] <= values[j]
  }

  lemma {:induction false} InsertedKeeps(x: real, sorted: seq<real>)
    ensures multiset(Inserted(x, sorted)) == multiset(sorted) + multiset{x}
  {
    if sorted != [] && x > sorted[0] {
      InsertedKeeps(x, sorted[1..]);
      assert sorted == [sorted[0]] + sorted[1..];
    }
  }

  lemma {:induction false} InsertedAscends(x: real, sorted: seq<real>)
    requires Ascending(sorted)
    ensures Ascending(Inserted(x, sorted))
  {
    if sorted != [] && x > sorted[0] {
      var rest := Inserted(x, sorted[1..]);
      InsertedAscends(x, sorted[1..]);
      forall j | 0 <= j < |rest| ensures sorted[0] <= rest[j] {
        assert sorted[0] <= rest[0] <= rest[j];
      }
    }
  }

  lemma {:induction false} SortedIs(values: seq<real>)
    ensures Ascending(Sorted(values)) && multiset(Sorted(values)) == multiset(values)
  {
    hide Ascending;
    if values == [] {
      NothingAscends();
    } else {
      var n := |values| - 1;
      SortedIs(values[..n]);
      InsertedKeeps(values[n], Sorted(values[..n]));
      InsertedAscends(values[n], Sorted(values[..n]));
      TakeDrop(values, n);
      assert values == values[..n] + [values[n]];
    }
  }

  lemma NothingAscends()
    ensures Ascending([])
  {
  }

  lemma {:induction false} LaterShrinks(values: seq<real>, time: real)
    ensures |Later(values, time)| <= |values|
    ensures (exists x :: x in values && x <= time) ==> |Later(values, time)| < |values|
    ensures forall x :: x in Later(values, time) <==> x in values && x > time
  {
    if values != [] {
      LaterShrinks(values[..|values| - 1], time);
      TakeDrop(values, |values| - 1);
      assert forall x :: x in values <==> x in values[..|values| - 1] || x == values[|values| - 1];
    }
  }

  lemma {:induction false} LaterCounts(values: seq<real>, t: real, x: real)
    ensures multiset(Later(values, t))[x] == if x > t then multiset(values)[x] else 0
  {
    if values != [] {
      var n := |values| - 1;
      LaterCounts(values[..n], t, x);
      CountSnoc(values[..n], values[n], x);
      CountSnoc(Later(values[..n], t), values[n], x);
      assert values == values[..n] + [values[n]];
    }
  }

  lemma CountSnoc(values: seq<real>, y: real, x: real)
    ensures multiset(values + [y])[x] == multiset(values)[x] + if x == y then 1 else 0
  {
  }

  lemma SameCountsLater(a: seq<real>, b: seq<real>, t: real)
    requires forall x :: x > t ==> multiset(a)[x] == multiset(b)[x]
    ensures |Later(a, t)| == |Later(b, t)|
  {
    hide Later;
    var p, q := multiset(Later(a, t)), multiset(Later(b, t));
    forall x ensures p[x] == q[x] {
      LaterCounts(a, t, x);
      LaterCounts(b, t, x);
    }
    assert p == q;
  }

  datatype Admission = Admission(time: real, active: seq<real>)

  /** With all slots taken the request waits for the first to be freed. */
  function Admit(max: nat, active: seq<real>, arrival: real): Admission
    requires max > 0
  {
    var waiting := Later(active, arrival);
    if |waiting| >= max then
      var sorted := Sorted(waiting);
      Admission(sorted[0], Later(sorted, sorted[0]))
    else Admission(arrival, waiting)
  }

  /** Admission leaves a slot free, and never admits before the arrival or while the slots are taken. */
  lemma AdmitLeavesSlot(max: nat, active: seq<real>, arrival: real)
    requires max > 0 && |active| <= max
    ensures var a := Admit(max, active, arrival);
            && |a.active| < max && a.time >= arrival
            && (forall x :: x in a.active <==> x in active && x > a.time)
            && (a.time > arrival ==> |Later(active, arrival)| == max && forall x :: x in Later(active, arrival) ==> x >= a.time)
  {
    var waiting := Later(active, arrival);
    LaterShrinks(active, arrival);
    if |waiting| >= max {
      var sorted := Sorted(waiting);
      SortedIs(waiting);
      LaterShrinks(sorted, sorted[0]);
      assert sorted[0] in sorted;
      forall x ensures x in sorted <==> x in waiting {
        assert x in multiset(sorted) <==> x in multiset(waiting);
      }
    }
  }

  // ---- one request ----

  function Millis(tokens: int, rate: real): real
    requires rate > 0.0
  {
    tokens as real / rate * 1000.0
  }

  function Queue(available: real, time: real): real {
    Max(0.0, available - time)
  }

  /** The backend free first; the lowest index among equals. */
  function Least(available: seq<real>): (r: nat)
    requires available != []
    ensures r < |available|
  {
    var n := |available| - 1;
    if n == 0 then 0
    else
      var best := Least(available[..n]);
      if available[n] < available[best] then n else best
  }

  lemma {:induction false} LeastIs(available: seq<real>, b: nat)
    requires b < |available|
    ensures available[Least(available)] <= available[b]
  {
    var n := |available| - 1;
    if b < n {
      LeastIs(available[..n], b);
    } else if n > 0 {
      LeastIs(available[..n], 0);
    }
  }

  predicate Reusable(g: Signature) {
    g.prefixTokens > 0 && g.prefixHash != ""
  }

  function PrefixKey(g: Signature): string {
    Composite(g.model, g.prefixHash)
  }

  /** The backend that served the prefix last, if the request can reuse one. */
  function Owner(s: Sim, g: Signature): Option<nat> {
    if Reusable(g) && PrefixKey(g) in s.owner then Some(s.owner[PrefixKey(g)]) else None
  }

  predicate GateOpen(c: Config, s: Sim, g: Signature)
    requires g.promptTokens > 0
  {
    Owner(s, g).Some? && g.prefixTokens as real / g.promptTokens as real >= c.minHitRatio && !c.evidence.Missing?
  }

  function Route(c: Config, policy: Policy, s: Sim, g: Signature, index: nat, time: real): (b: nat)
    requires ValidConfig(c) && ValidSignature(g) && Fits(c, s)
    ensures b < c.backends
  {
    var least := Least(s.available);
    match policy
    case RoundRobin => index % c.backends
    case LoadAware => least
    case KvV1 => if GateOpen(c, s, g) then Owner(s, g).value else least
    case KvV2 =>
      if GateOpen(c, s, g) then
        var owner := Owner(s, g).value;
        if Queue(s.available[owner], time) > Queue(s.available[least], time) + Millis(g.prefixTokens, c.prefillRate)
        then least else owner
      else least
  }

  function Cached(s: Sim, g: Signature, b: nat): int {
    if Owner(s, g) == Some(b) then g.prefixTokens else 0
  }

  /** Time to first token on backend `b`. */
  function Ttft(c: Config, s: Sim, g: Signature, time: real, b: nat): real
    requires ValidConfig(c) && Fits(c, s) && b < c.backends
  {
    Queue(s.available[b], time) + 8.0 + Millis(g.promptTokens - Cached(s, g, b), c.prefillRate)
  }

  datatype Service = Service(backend: nat, admitted: real, start: real, end: real)

  function ServiceOf(c: Config, policy: Policy, s: Sim, g: Signature, index: nat): (v: Service)
    requires ValidConfig(c) && ValidSignature(g) && Fits(c, s)
    ensures v.backend < c.backends
  {
    var time := Admit(c.maxConcurrency, s.active, s.arrival + g.arrivalDelta).time;
    var b := Route(c, policy, s, g, index, time);
    Service(b, time, time + Queue(s.available[b], time), time + Ttft(c, s, g, time, b) + Millis(g.outputTokens, c.decodeRate))
  }

  function Step(c: Config, policy: Policy, s: Sim, g: Signature, index: nat): (t: Sim)
    requires ValidConfig(c) && ValidSignature(g) && Fits(c, s)
    ensures Fits(c, t)
  {
    var admission := Admit(c.maxConcurrency, s.active, s.arrival + g.arrivalDelta);
    var service := ServiceOf(c, policy, s, g, index);
    var b := service.backend;
    var ttft := Ttft(c, s, g, admission.time, b);
    Sim(s.available[b := service.end], s.routes[b := s.routes[b] + 1],
        if Reusable(g) then s.owner[PrefixKey(g) := b] else s.owner,
        admission.active + [service.end], s.arrival + g.arrivalDelta,
        if service.end > s.finish then service.end else s.finish,
        s.ttfts + [ttft], s.shared + g.prefixTokens, s.reused + Cached(s, g, b),
        s.violations + if ttft > c.sloMs then 1 else 0)
  }

  ghost predicate ValidTrace(trace: seq<Signature>) {
    forall g :: g in trace ==> ValidSignature(g)
  }

  function Idle(c: Config): Sim {
    Sim(seq(c.backends, _ => 0.0), seq(c.backends, _ => 0), map[], [], 0.0, 0.0, [], 0, 0, 0)
  }

  ghost function After(c: Config, policy: Policy, trace: seq<Signature>): (s: Sim)
    requires ValidConfig(c) && ValidTrace(trace)
    ensures Fits(c, s)
  {
    if trace == [] then Idle(c)
    else Step(c, policy, After(c, policy, trace[..|trace| - 1]), trace[|trace| - 1], |trace| - 1)
  }

  // ---- kv-v2 is greedy and optimal ----

  lemma MillisFacts(a: int, b: int, rate: real)
    requires rate > 0.0
    ensures Millis(a - b, rate) == Millis(a, rate) - Millis(b, rate)
    ensures a >= 0 ==> Millis(a, rate) >= 0.0
  {
    var x, y := a as real, b as real;
    assert (a - b) as real == x - y;
    assert (x - y) / rate == x / rate - y / rate;
  }

  ghost predicate Fastest(c: Config, s: Sim, g: Signature, time: real, b: nat)
    requires ValidConfig(c) && Fits(c, s) && b < c.backends
  {
    forall other: nat :: other < c.backends ==> Ttft(c, s, g, time, b) <= Ttft(c, s, g, time, other)
  }

  /** Without a cached prefix no backend is faster than the one free first. */
  lemma LeastIsFastestUncached(c: Config, s: Sim, g: Signature, time: real, b: nat)
    requires ValidConfig(c) && Fits(c, s) && b < c.backends && Owner(s, g) != Some(b)
    ensures Queue(s.available[Least(s.available)], time) + 8.0 + Millis(g.promptTokens, c.prefillRate) <= Ttft(c, s, g, time, b)
  {
    hide Millis;
    LeastIs(s.available, b);
  }

  /**
   Policy kv-v2 picks the backend with the shortest time to first token, exactly
   unless a prefix owner that the gate kept out would have been faster.
   */
  lemma KvV2FastestIff(c: Config, s: Sim, g: Signature, index: nat, time: real)
    requires ValidConfig(c) && ValidSignature(g) && Fits(c, s)
    ensures Fastest(c, s, g, time, Route(c, KvV2, s, g, index, time)) <==>
            GateOpen(c, s, g) || Owner(s, g).None? || Owner(s, g).value == Least(s.available) ||
            Queue(s.available[Owner(s, g).value], time) >=
              Queue(s.available[Least(s.available)], time) + Millis(g.prefixTokens, c.prefillRate)
  {
    hide Millis;
    hide Least;
    hide Queue;
    MillisFacts(g.promptTokens, g.prefixTokens, c.prefillRate);
    MillisFacts(g.prefixTokens, 0, c.prefillRate);
    var least := Least(s.available);
    var owner := Owner(s, g);
    var b := Route(c, KvV2, s, g, index, time);
    forall other: nat | other < c.backends && owner != Some(other)
      ensures Queue(s.available[least], time) + 8.0 + Millis(g.promptTokens, c.prefillRate) <= Ttft(c, s, g, time, other)
    {
      LeastIsFastestUncached(c, s, g, time, other);
    }
    if owner.Some? {
      QueueOfLeast(s.available, owner.value, time);
      assert Ttft(c, s, g, time, owner.value) ==
             Queue(s.available[owner.value], time) + 8.0 + Millis(g.promptTokens, c.prefillRate) - Millis(g.prefixTokens, c.prefillRate);
      if Fastest(c, s, g, time, b) {
        assert Ttft(c, s, g, time, b) <= Ttft(c, s, g, time, owner.value);
      }
    }
  }

  lemma QueueOfLeast(available: seq<real>, b: nat, time: real)
    requires b < |available|
    ensures Queue(available[Least(available)], time) <= Queue(available[b], time)
  {
    LeastIs(available, b);
  }

  // ---- the schedule ----

  /** A backend serves one request after the other: it starts when it is free and is free when it ends. */
  lemma ServiceFollows(c: Config, policy: Policy, s: Sim, g: Signature, index: nat)
    requires ValidConfig(c) && ValidSignature(g) && Fits(c, s)
    ensures var v := ServiceOf(c, policy, s, g, index);
            var t := Step(c, policy, s, g, index);
            && s.available[v.backend] <= v.start <= v.end && v.admitted <= v.start && v.start + 8.0 <= v.end
            && t.available == s.available[v.backend := v.end]
  {
    hide Millis;
    hide Route;
    hide Admit;
    var time := Admit(c.maxConcurrency, s.active, s.arrival + g.arrivalDelta).time;
    var b := Route(c, policy, s, g, index, time);
    MillisFacts(g.promptTokens - Cached(s, g, b), 0, c.prefillRate);
    MillisFacts(g.outputTokens, 0, c.decodeRate);
  }

  ghost function ServiceAt(c: Config, policy: Policy, trace: seq<Signature>, i: nat): Service
    requires ValidConfig(c) && ValidTrace(trace) && i < |trace|
  {
    ServiceOf(c, policy, After(c, policy, trace[..i]), trace[i], i)
  }

  lemma AfterNothing(c: Config, policy: Policy, trace: seq<Signature>)
    requires ValidConfig(c)
    ensures After(c, policy, trace[..0]) == Idle(c)
  {
  }

  lemma AfterOne(c: Config, policy: Policy, trace: seq<Signature>, i: nat)
    requires ValidConfig(c) && ValidTrace(trace) && i < |trace|
    ensures After(c, policy, trace[..i + 1]) == Step(c, policy, After(c, policy, trace[..i]), trace[i], i)
  {
    assert trace[..i + 1][..i] == trace[..i];
  }

  lemma {:induction false} AvailableGrows(c: Config, policy: Policy, trace: seq<Signature>, i: nat, j: nat, b: nat)
    requires ValidConfig(c) && ValidTrace(trace) && i <= j <= |trace| && b < c.backends
    ensures After(c, policy, trace[..i]).available[b] <= After(c, policy, trace[..j]).available[b]
  {
    hide After;
    hide Step;
    hide ServiceOf;
    if i < j {
      AvailableGrows(c, policy, trace, i, j - 1, b);
      AfterOne(c, policy, trace, j - 1);
      ServiceFollows(c, policy, After(c, policy, trace[..j - 1]), trace[j - 1], j - 1);
    }
  }

  /** No two requests are served on one backend at the same time, in any trace under any policy. */
  lemma ServicesDoNotOverlap(c: Config, policy: Policy, trace: seq<Signature>, i: nat, j: nat)
    requires ValidConfig(c) && ValidTrace(trace) && i < j < |trace|
    requires ServiceAt(c, policy, trace, i).backend == ServiceAt(c, policy, trace, j).backend
    ensures ServiceAt(c, policy, trace, i).end <= ServiceAt(c, policy, trace, j).start
  {
    hide After;
    hide Step;
    hide ServiceOf;
    var v, w := ServiceAt(c, policy, trace, i), ServiceAt(c, policy, trace, j);
    AfterOne(c, policy, trace, i);
    ServiceFollows(c, policy, After(c, policy, trace[..i]), trace[i], i);
    ServiceFollows(c, policy, After(c, policy, trace[..j]), trace[j], j);
    AvailableGrows(c, policy, trace, i + 1, j, v.backend);
  }

  function Total(counts: seq<nat>): nat {
    if counts == [] then 0 else Total(counts[..|counts| - 1]) + counts[|counts| - 1]
  }

  lemma {:induction false} TotalBump(counts: seq<nat>, b: nat)
    requires b < |counts|
    ensures Total(counts[b := counts[b] + 1]) == Total(counts) + 1
  {
    var n := |counts| - 1;
    var bumped := counts[b := counts[b] + 1];
    if b == n {
      assert bumped[..n] == counts[..n];
    } else {
      TotalBump(counts[..n], b);
      assert bumped[..n] == counts[..n][b := counts[..n][b] + 1];
    }
  }

  lemma {:induction false} TotalNothing(n: nat)
    ensures Total(seq(n, _ => 0)) == 0
  {
    if n > 0 {
      TotalNothing(n - 1);
      assert seq(n, _ => 0)[..n - 1] == seq(n - 1, _ => 0);
    }
  }

  function Over(ttfts: seq<real>, slo: real): nat {
    if ttfts == [] then 0 else Over(ttfts[..|ttfts| - 1], slo) + if ttfts[|ttfts| - 1] > slo then 1 else 0
  }

  /**
   After any trace: the slots were never exceeded, every request was routed
   once, no more tokens were reused than shared, the violations are those of the
   recorded times, and the finish is when the last backend is free.
   */
  lemma {:induction false} Accounts(c: Config, policy: Policy, trace: seq<Signature>)
    requires ValidConfig(c) && ValidTrace(trace)
    ensures var s := After(c, policy, trace);
            && |s.active| <= c.maxConcurrency && Total(s.routes) == |trace| == |s.ttfts|
            && 0 <= s.reused <= s.shared && s.violations == Over(s.ttfts, c.sloMs)
            && (forall b :: 0 <= b < c.backends ==> 0.0 <= s.available[b] <= s.finish)
            && (s.finish == 0.0 || s.finish in s.available)
  {
    hide Route;
    hide Millis;
    hide Admit;
    hide Least;
    if trace == [] {
      TotalNothing(c.backends);
    } else {
      var n := |trace| - 1;
      var before := After(c, policy, trace[..n]);
      Accounts(c, policy, trace[..n]);
      AccountsStep(c, policy, before, trace[n], n);
    }
  }

  ghost predicate Accounted(c: Config, s: Sim, n: nat) {
    && Fits(c, s) && |s.active| <= c.maxConcurrency && Total(s.routes) == n == |s.ttfts|
    && 0 <= s.reused <= s.shared && s.violations == Over(s.ttfts, c.sloMs)
    && (forall b :: 0 <= b < c.backends ==> 0.0 <= s.available[b] <= s.finish)
    && (s.finish == 0.0 || s.finish in s.available)
  }

  lemma AccountsStep(c: Config, policy: Policy, s: Sim, g: Signature, index: nat)
    requires ValidConfig(c) && ValidSignature(g) && Accounted(c, s, index)
    ensures Accounted(c, Step(c, policy, s, g, index), index + 1)
  {
    hide ServiceOf;
    hide Millis;
    hide Admit;
    hide Ttft;
    hide Total;
    hide Over;
    hide Later;
    var t := Step(c, policy, s, g, index);
    var v := ServiceOf(c, policy, s, g, index);
    AdmitLeavesSlot(c.maxConcurrency, s.active, s.arrival + g.arrivalDelta);
    ServiceFollows(c, policy, s, g, index);
    TotalBump(s.routes, v.backend);
    OverBump(s.ttfts, t.ttfts[|s.ttfts|], c.sloMs);
    FinishIsLast(s.available, s.finish, v.backend, v.end);
  }

  lemma OverBump(ttfts: seq<real>, x: real, slo: real)
    ensures Over(ttfts + [x], slo) == Over(ttfts, slo) + if x > slo then 1 else 0
  {
    SnocInit(ttfts, x);
  }

  lemma FinishIsLast(available: seq<real>, finish: real, b: nat, end: real)
    requires b < |available| && available[b] <= end
    requires forall i :: 0 <= i < |available| ==> 0.0 <= available[i] <= finish
    requires finish == 0.0 || finish in available
    ensures var later := if end > finish then end else finish;
            var after := available[b := end];
            && (forall i :: 0 <= i < |after| ==> 0.0 <= after[i] <= later)
            && (later == 0.0 || later in after)
  {
    var later := if end > finish then end else finish;
    var after := available[b := end];
    assert after[b] == end;
    if end <= finish && finish != 0.0 {
      var i :| 0 <= i < |available| && available[i] == finish;
      assert after[i] == finish;
    }
  }

  // ---- the simulator ----

  method RetainAfter(values: array<real>, n: nat, time: real) returns (m: nat)
    requires n <= values.Length
    modifies values
    ensures m <= n && values[..m] == Later(old(values[..n]), time)
  {
    ghost var before := values[..n];
    m := 0;
    for k := 0 to n
      invariant m <= k && values[..m] == Later(before[..k], time)
      invariant forall i :: k <= i < n ==> values[i] == before[i]
    {
      assert before[..k + 1][..k] == before[..k];
      if values[k] > time {
        values[m] := values[k];
        m := m + 1;
      }
    }
    assert before[..n] == before;
  }

  /** Stands for the library's sort of the first `n` values. */
  method SortPrefix(values: array<real>, n: nat)
    requires n <= values.Length
    modifies values
    ensures values[..n] == Sorted(old(values[..n]))
  {
    hide Inserted;
    ghost var before := values[..n];
    var sorted: seq<real> := [];
    for k := 0 to n
      invariant values[..n] == before && sorted == Sorted(before[..k])
    {
      assert before[..k + 1][..k] == before[..k];
      assert values[k] == values[..n][k];
      sorted := Inserted(values[k], sorted);
    }
    assert before[..n] == before;
    for k := 0 to n
      invariant values[..k] == sorted[..k]
    {
      values[k] := sorted[k];
    }
    assert sorted[..n] == sorted;
  }

  method AdmitNext(max: nat, active: array<real>, n: nat, arrival: real) returns (time: real, m: nat)
    requires max > 0 && n <= active.Length
    modifies active
    ensures m <= n && Admission(time, active[..m]) == Admit(max, old(active[..n]), arrival)
  {
    hide Later;
    hide Sorted;
    time := arrival;
    m := RetainAfter(active, n, arrival);
    if m >= max {
      SortPrefix(active, m);
      ghost var sorted := active[..m];
      time := active[0];
      assert time == sorted[0];
      m := RetainAfter(active, m, time);
    }
  }

  method LeastAvailable(available: array<real>) returns (selected: nat)
    requires available.Length > 0
    ensures selected == Least(available[..])
  {
    selected := 0;
    for k := 1 to available.Length
      invariant selected == Least(available[..k])
    {
      assert available[..k + 1][..k] == available[..k];
      if available[k] < available[selected] {
        selected := k;
      }
    }
    assert available[..available.Length] == available[..];
  }

  method ChooseBackend(c: Config, policy: Policy, ghost s: Sim, available: array<real>, owner: map<string, nat>,
                       g: Signature, index: nat, time: real) returns (backend: nat)
    requires ValidConfig(c) && ValidSignature(g) && Fits(c, s) && s.available == available[..] && s.owner == owner
    ensures backend == Route(c, policy, s, g, index, time)
  {
    hide Millis;
    hide Queue;
    hide Least;
    backend := index % c.backends;
    var ratio := g.prefixTokens as real / g.promptTokens as real;
    var key := g.model + NUL + g.prefixHash;
    assert key == PrefixKey(g);
    var least := LeastAvailable(available);
    if policy.LoadAware? {
      backend := least;
    } else if policy.KvV1? || policy.KvV2? {
      backend := least;
      if g.prefixTokens > 0 && g.prefixHash != "" && key in owner && ratio >= c.minHitRatio && !c.evidence.Missing? {
        backend := owner[key];
        if policy.KvV2? {
          var ownerQueue := Queue(available[owner[key]], time);
          var leastQueue := Queue(available[least], time);
          var benefit := Millis(g.prefixTokens, c.prefillRate);
          if ownerQueue > leastQueue + benefit {
            backend := least;
          }
        }
      }
    }
  }

  method Serve(c: Config, policy: Policy, ghost s: Sim, available: array<real>, owner: map<string, nat>,
               g: Signature, index: nat, time: real) returns (b: nat, cached: int, ttft: real, end: real)
    requires ValidConfig(c) && ValidSignature(g) && Fits(c, s) && s.available == available[..] && s.owner == owner
    ensures b < c.backends && b == Route(c, policy, s, g, index, time) && cached == Cached(s, g, b)
    ensures ttft == Ttft(c, s, g, time, b) && end == time + ttft + Millis(g.outputTokens, c.decodeRate)
  {
    hide Millis;
    hide Queue;
    hide Route;
    b := ChooseBackend(c, policy, s, available, owner, g, index, time);
    var queueDelay := Queue(available[b], time);
    var key := g.model + NUL + g.prefixHash;
    assert key == PrefixKey(g);
    cached := 0;
    if Reusable(g) && key in owner && owner[key] == b {
      cached := g.prefixTokens;
    }
    ttft := queueDelay + 8.0 + Millis(g.promptTokens - cached, c.prefillRate);
    end := time + (ttft + Millis(g.outputTokens, c.decodeRate));
  }

  lemma StepParts(c: Config, policy: Policy, s: Sim, g: Signature, index: nat, admission: Admission, b: nat,
                  cached: int, ttft: real, end: real)
    requires ValidConfig(c) && ValidSignature(g) && Fits(c, s) && b < c.backends
    requires admission == Admit(c.maxConcurrency, s.active, s.arrival + g.arrivalDelta)
    requires b == Route(c, policy, s, g, index, admission.time) && cached == Cached(s, g, b)
    requires ttft == Ttft(c, s, g, admission.time, b)
    requires end == admission.time + ttft + Millis(g.outputTokens, c.decodeRate)
    ensures Step(c, policy, s, g, index) ==
            Sim(s.available[b := end], s.routes[b := s.routes[b] + 1],
                if Reusable(g) then s.owner[PrefixKey(g) := b] else s.owner,
                admission.active + [end], s.arrival + g.arrivalDelta, if end > s.finish then end else s.finish,
                s.ttfts + [ttft], s.shared + g.prefixTokens, s.reused + cached,
                s.violations + if ttft > c.sloMs then 1 else 0)
  {
    hide Millis;
    hide Ttft;
    hide Route;
    hide Admit;
    hide Cached;
  }

  /** Book a request: its backend is busy until `end`, and so is its slot. */
  method Book(available: array<real>, routes: array<nat>, active: array<real>, b: nat, slot: nat, end: real)
    requires b < available.Length == routes.Length && slot < active.Length && available != active
    modifies available, routes, active
    ensures available[..] == old(available[..])[b := end]
    ensures routes[..] == old(routes[..])[b := old(routes[b]) + 1]
    ensures active[..slot + 1] == old(active[..slot]) + [end]
  {
    available[b] := end;
    active[slot] := end;
    routes[b] := routes[b] + 1;
  }

  method Simulate(c: Config, policy: Policy, trace: seq<Signature>) returns (s: Sim)
    requires ValidConfig(c) && ValidTrace(trace)
    ensures s == After(c, policy, trace)
  {
    hide Millis;
    hide Admit;
    hide Route;
    hide Ttft;
    hide Cached;
    hide After;
    hide Reusable;
    hide PrefixKey;
    hide Step;
    hide ServiceOf;
    var available := new real[c.backends](_ => 0.0);
    var routes := new nat[c.backends](_ => 0);
    var owner: map<string, nat> := map[];
    var active := new real[|trace|](_ => 0.0);
    var slots, arrival, finish := 0, 0.0, 0.0;
    var ttfts: seq<real> := [];
    var shared, reused, violations := 0, 0, 0;
    AfterNothing(c, policy, trace);
    for index := 0 to |trace|
      invariant 0 <= slots <= index
      invariant After(c, policy, trace[..index]) ==
                Sim(available[..], routes[..], owner, active[..slots], arrival, finish, ttfts, shared, reused, violations)
    {
      var g := trace[index];
      ghost var before := After(c, policy, trace[..index]);
      AfterOne(c, policy, trace, index);
      arrival := arrival + g.arrivalDelta;
      var time, m := AdmitNext(c.maxConcurrency, active, slots, arrival);
      var b, cached, ttft, end := Serve(c, policy, before, available, owner, g, index, time);
      StepParts(c, policy, before, g, index, Admission(time, active[..m]), b, cached, ttft, end);
      Book(available, routes, active, b, m, end);
      slots := m + 1;
      if end > finish {
        finish := end;
      }
      if Reusable(g) {
        owner := owner[PrefixKey(g) := b];
      }
      ttfts := ttfts + [ttft];
      shared, reused := shared + g.prefixTokens, reused + cached;
      if ttft > c.sloMs {
        violations := violations + 1;
      }
    }
    assert trace[..|trace|] == trace;
    s := Sim(available[..], routes[..], owner, active[..slots], arrival, finish, ttfts, shared, reused, violations);
  }

  // ---- the report ----

  datatype Metrics = Metrics(
    requests: nat, p95: real, throughput: real, sloViolationRate: real, cacheReuseRatio: real, imbalance: real)

  function Position(share: real, last: nat): (r: real)
    requires 0.0 <= share <= 1.0
    ensures 0.0 <= r <= last as real
  {
    ShareOf(share, last as real);
    share * last as real
  }

  lemma ShareOf(share: real, whole: real)
    requires 0.0 <= share <= 1.0 && whole >= 0.0
    ensures 0.0 <= share * whole <= whole
  {
    assert (1.0 - share) * whole >= 0.0;
  }

  function Ceiling(x: real): int {
    if x.Floor as real == x then x.Floor else x.Floor + 1
  }

  /** Between two neighbouring places, in proportion. */
  function Interpolated(ordered: seq<real>, position: real): real
    requires ordered != [] && 0.0 <= position <= (|ordered| - 1) as real
  {
    var lower, upper := position.Floor, Ceiling(position);
    if lower == upper then ordered[lower]
    else ordered[lower] + (ordered[upper] - ordered[lower]) * (position - lower as real)
  }

  function Percentile(values: seq<real>, share: real): real
    requires values != [] && 0.0 <= share <= 1.0
  {
    var ordered := Sorted(values);
    if |ordered| == 1 then ordered[0] else Interpolated(ordered, Position(share, |ordered| - 1))
  }

  function Product(x: real, y: real): real {
    x * y
  }

  /** Sum of the squared differences from `mean`. */
  function Spread(counts: seq<nat>, mean: real): real {
    if counts == [] then 0.0
    else
      var d := counts[|counts| - 1] as real - mean;
      Spread(counts[..|counts| - 1], mean) + Product(d, d)
  }

  /** The coefficient of variation; `root` is the square root. */
  function Imbalance(counts: seq<nat>, root: real -> real): real
    requires counts != []
  {
    var n := |counts| as real;
    var mean := Total(counts) as real / n;
    if mean == 0.0 then 0.0 else root(Spread(counts, mean) / n) / mean
  }

  /** The metrics of a finished simulation; the duration is at least a millisecond. */
  function Report(s: Sim, requests: nat, root: real -> real): (m: Metrics)
    requires requests > 0 && s.ttfts != [] && s.routes != []
  {
    Metrics(requests, Percentile(s.ttfts, 0.95), requests as real / Max(s.finish / 1000.0, 0.001),
            s.violations as real / requests as real,
            if s.shared == 0 then 0.0 else s.reused as real / s.shared as real, Imbalance(s.routes, root))
  }

  // ---- the imbalance tells whether the routes are even ----

  ghost predicate Even(counts: seq<nat>) {
    forall i, j :: 0 <= i < j < |counts| ==> counts[i] == counts[j]
  }

  lemma {:induction false} SpreadIs(counts: seq<nat>, mean: real)
    ensures Spread(counts, mean) >= 0.0
    ensures Spread(counts, mean) == 0.0 <==> forall i :: 0 <= i < |counts| ==> counts[i] as real == mean
  {
    hide Product;
    if counts != [] {
      var n := |counts| - 1;
      SpreadIs(counts[..n], mean);
      SquareIs(counts[n] as real - mean);
      assert forall i :: 0 <= i < n ==> counts[..n][i] == counts[i];
    }
  }

  lemma SquareIs(d: real)
    ensures Product(d, d) >= 0.0 && (Product(d, d) == 0.0 <==> d == 0.0)
  {
    hide Product;
    if d == 0.0 {
      Nothing(d, d);
    } else {
      SameSign(d, d);
    }
  }

  lemma SameSign(x: real, y: real)
    requires (x > 0.0 && y > 0.0) || (x < 0.0 && y < 0.0)
    ensures Product(x, y) > 0.0
  {
  }

  lemma Nothing(x: real, y: real)
    requires x == 0.0
    ensures Product(x, y) == 0.0
  {
  }

  lemma {:induction false} TotalOfEven(counts: seq<nat>, k: nat)
    requires forall i :: 0 <= i < |counts| ==> counts[i] == k
    ensures Total(counts) == |counts| * k
  {
    if counts != [] {
      TotalOfEven(counts[..|counts| - 1], k);
    }
  }

  lemma {:induction false} TotalZero(counts: seq<nat>)
    requires Total(counts) == 0
    ensures forall i :: 0 <= i < |counts| ==> counts[i] == 0
  {
    if counts != [] {
      TotalZero(counts[..|counts| - 1]);
      assert forall i :: 0 <= i < |counts| - 1 ==> counts[..|counts| - 1][i] == counts[i];
    }
  }

  lemma MeanIs(total: nat, n: nat)
    requires n > 0
    ensures var mean := total as real / n as real;
            mean >= 0.0 && mean * n as real == total as real && (mean == 0.0 <==> total == 0)
    ensures forall k: nat :: total == n * k ==> total as real / n as real == k as real
  {
    var mean := total as real / n as real;
    assert mean * n as real == total as real;
    RatioSign(total as real, n as real);
    forall k: nat | total == n * k ensures mean == k as real {
      assert (mean - k as real) * n as real == 0.0;
    }
  }

  /** The imbalance is never negative, and zero exactly if every backend got as many requests as any other. */
  lemma ImbalanceZeroIff(counts: seq<nat>, root: real -> real)
    requires counts != [] && forall x :: x >= 0.0 ==> root(x) >= 0.0 && (root(x) == 0.0 <==> x == 0.0)
    ensures Imbalance(counts, root) >= 0.0 && (Imbalance(counts, root) == 0.0 <==> Even(counts))
  {
    hide Total;
    hide Spread;
    var n := |counts|;
    var mean := Total(counts) as real / n as real;
    MeanIs(Total(counts), n);
    SpreadIs(counts, mean);
    if Total(counts) == 0 {
      TotalZero(counts);
    } else {
      RatioSign(Spread(counts, mean), n as real);
      RatioSign(root(Spread(counts, mean) / n as real), mean);
      if Even(counts) {
        TotalOfEven(counts, counts[0]);
        assert mean == counts[0] as real;
      }
    }
  }

  lemma RatioSign(x: real, y: real)
    requires x >= 0.0 && y > 0.0
    ensures x / y >= 0.0 && (x / y == 0.0 <==> x == 0.0)
  {
    var q := x / y;
    assert q * y == x;
  }

  // ---- a percentile splits the values in proportion ----

  lemma Between(low: real, high: real, part: real)
    requires low <= high && 0.0 <= part <= 1.0
    ensures low <= low + (high - low) * part <= high
  {
    var gap := high - low;
    assert 0.0 <= gap * part;
    assert gap - gap * part == gap * (1.0 - part) >= 0.0;
  }

  lemma {:induction false} LaterThanPlace(values: seq<real>, k: nat, x: real)
    requires k < |values| && forall i :: 0 <= i <= k ==> values[i] <= x
    ensures |Later(values, x)| <= |values| - 1 - k
  {
    var n := |values| - 1;
    if k < n {
      LaterThanPlace(values[..n], k, x);
    } else {
      NoneLater(values, x);
    }
  }

  lemma {:induction false} NoneLater(values: seq<real>, x: real)
    requires forall i :: 0 <= i < |values| ==> values[i] <= x
    ensures Later(values, x) == []
  {
    if values != [] {
      NoneLater(values[..|values| - 1], x);
    }
  }

  lemma InterpolatedBetween(ordered: seq<real>, position: real)
    requires ordered != [] && 0.0 <= position <= (|ordered| - 1) as real && Ascending(ordered)
    ensures ordered[position.Floor] <= Interpolated(ordered, position) <= ordered[Ceiling(position)]
  {
    var lower, upper := position.Floor, Ceiling(position);
    if lower < upper {
      Between(ordered[lower], ordered[upper], position - lower as real);
    }
  }

  lemma PositionOfOne(share: real)
    requires 0.0 <= share <= 1.0
    ensures Position(share, 0) == 0.0
  {
  }

  /** Fewer values exceed the percentile than the remaining share of them, by one place; it lies within the values. */
  lemma PercentileSplits(values: seq<real>, share: real)
    requires values != [] && 0.0 <= share <= 1.0
    ensures var x := Percentile(values, share);
            && (exists v :: v in values && v <= x) && (exists v :: v in values && x <= v)
            && |Later(values, x)| as real < (|values| - 1) as real - Position(share, |values| - 1) + 1.0
  {
    hide Sorted;
    hide Later;
    hide Position;
    hide Interpolated;
    var ordered := Sorted(values);
    SortedIs(values);
    PositionOfOne(share);
    var position := Position(share, |values| - 1);
    InterpolatedBetween(ordered, position);
    var lower, upper := position.Floor, Ceiling(position);
    var x := Percentile(values, share);
    assert ordered[lower] <= x <= ordered[upper];
    assert ordered[lower] in multiset(ordered) && ordered[upper] in multiset(ordered);
    assert ordered[lower] in values && ordered[upper] in values;
    forall i | 0 <= i <= lower ensures ordered[i] <= x {
      assert ordered[i] <= ordered[lower];
    }
    LaterThanPlace(ordered, lower, x);
    SameCountsLater(ordered, values, x);
  }

  lemma {:induction false} OverAtMost(ttfts: seq<real>, slo: real)
    ensures Over(ttfts, slo) <= |ttfts|
  {
    if ttfts != [] {
      OverAtMost(ttfts[..|ttfts| - 1], slo);
    }
  }

  /**
   The reported rates are shares, at most a twentieth of the requests, and one
   place, took longer than the reported time, and the imbalance is zero exactly
   if all backends got equally many requests.
   */
  lemma ReportIsSane(c: Config, policy: Policy, trace: seq<Signature>, root: real -> real)
    requires ValidConfig(c) && ValidTrace(trace) && trace != []
    requires forall x :: x >= 0.0 ==> root(x) >= 0.0 && (root(x) == 0.0 <==> x == 0.0)
    ensures var s := After(c, policy, trace);
            s.ttfts != [] && s.routes != [] &&
            var m := Report(s, |trace|, root);
            && 0.0 <= m.sloViolationRate <= 1.0 && 0.0 <= m.cacheReuseRatio <= 1.0 && m.throughput > 0.0
            && |Later(s.ttfts, m.p95)| as real < 0.05 * (|trace| - 1) as real + 1.0
            && m.imbalance >= 0.0 && (m.imbalance == 0.0 <==> Even(s.routes))
  {
    hide After;
    hide Over;
    hide Percentile;
    hide Later;
    hide Sorted;
    hide Imbalance;
    hide Even;
    var s := After(c, policy, trace);
    Accounts(c, policy, trace);
    OverAtMost(s.ttfts, c.sloMs);
    ShareInUnit(s.violations, |trace|);
    PercentileSplits(s.ttfts, 0.95);
    ImbalanceZeroIff(s.routes, root);
    if s.shared != 0 {
      ShareInUnit(s.reused, s.shared);
    }
  }

  lemma ShareInUnit(part: int, whole: int)
    requires 0 <= part <= whole && whole > 0
    ensures 0.0 <= part as real / whole as real <= 1.0
  {
    var q := part as real / whole as real;
    assert q * whole as real == part as real;
  }
}
