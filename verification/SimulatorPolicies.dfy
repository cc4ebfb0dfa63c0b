/**
 What the simulated policies do, told from the trace and the services so far:
 which backend a request goes to, what it reuses there and how long it waits.
 */
module SimulatorPolicies {
  import opened Common
  import opened Recency
  import opened WorkloadSimulator

  // ---- what came before ----

  /** The state in which request `i` is admitted. */
  ghost function Before(c: Config, policy: Policy, trace: seq<Signature>, i: nat): (s: Sim)
    requires ValidConfig(c) && ValidTrace(trace) && i <= |trace|
    ensures Fits(c, s)
  {
    After(c, policy, trace[..i])
  }

  lemma BeforeFirst(c: Config, policy: Policy, trace: seq<Signature>)
    requires ValidConfig(c) && ValidTrace(trace)
    ensures Before(c, policy, trace, 0) == Idle(c)
  {
    AfterNothing(c, policy, trace);
  }

  lemma BeforeNext(c: Config, policy: Policy, trace: seq<Signature>, i: nat)
    requires ValidConfig(c) && ValidTrace(trace) && i < |trace|
    ensures trace[i] in trace && ValidSignature(trace[i])
    ensures Before(c, policy, trace, i + 1) == Step(c, policy, Before(c, policy, trace, i), trace[i], i)
    ensures ServiceAt(c, policy, trace, i) == ServiceOf(c, policy, Before(c, policy, trace, i), trace[i], i)
  {
    AfterOne(c, policy, trace, i);
  }

  /** No service before `i` on backend `b` ended after the last one there; without one the backend was never busy. */
  ghost predicate FreeSince(c: Config, policy: Policy, trace: seq<Signature>, i: nat, b: nat, time: real)
    requires ValidConfig(c) && ValidTrace(trace) && i <= |trace|
  {
    (forall j :: 0 <= j < i && ServiceAt(c, policy, trace, j).backend == b ==> ServiceAt(c, policy, trace, j).end <= time) &&
    (time == 0.0 || exists j :: 0 <= j < i && EndsOn(c, policy, trace, j, b, time))
  }

  ghost predicate EndsOn(c: Config, policy: Policy, trace: seq<Signature>, j: int, b: nat, time: real)
    requires ValidConfig(c) && ValidTrace(trace) && 0 <= j < |trace|
  {
    var v := ServiceAt(c, policy, trace, j);
    v.backend == b && v.end == time
  }

  lemma FreeSinceStep(c: Config, policy: Policy, trace: seq<Signature>, k: nat, b: nat, time: real)
    requires ValidConfig(c) && ValidTrace(trace) && k < |trace| && FreeSince(c, policy, trace, k, b, time)
    requires var v := ServiceAt(c, policy, trace, k); v.backend == b ==> v.end >= time
    ensures var v := ServiceAt(c, policy, trace, k);
            FreeSince(c, policy, trace, k + 1, b, if v.backend == b then v.end else time)
  {
    hide ServiceAt;
    hide ValidTrace;
    var v := ServiceAt(c, policy, trace, k);
    if v.backend == b {
      assert EndsOn(c, policy, trace, k, b, v.end);
    } else if time != 0.0 {
      var j :| 0 <= j < k && EndsOn(c, policy, trace, j, b, time);
      assert EndsOn(c, policy, trace, j, b, time);
    }
  }

  /** A backend is free when the last service there has ended. */
  lemma {:induction false} FreeSinceIs(c: Config, policy: Policy, trace: seq<Signature>, i: nat, b: nat)
    requires ValidConfig(c) && ValidTrace(trace) && i <= |trace| && b < c.backends
    ensures FreeSince(c, policy, trace, i, b, Before(c, policy, trace, i).available[b])
  {
    hide Step;
    hide ServiceOf;
    hide Before;
    hide ServiceAt;
    hide ValidTrace;
    hide ValidSignature;
    if i == 0 {
      BeforeFirst(c, policy, trace);
    } else {
      hide FreeSince;
      var k := i - 1;
      FreeSinceIs(c, policy, trace, k, b);
      BeforeNext(c, policy, trace, k);
      ServiceFollows(c, policy, Before(c, policy, trace, k), trace[k], k);
      FreeSinceStep(c, policy, trace, k, b, Before(c, policy, trace, k).available[b]);
    }
  }

  /** Two requests whose prefixes are one in the eyes of the simulator. */
  ghost predicate SamePrefix(g: Signature, h: Signature) {
    g.prefixTokens > 0 && h.prefixTokens > 0 && g.model + "\0" + g.prefixHash == h.model + "\0" + h.prefixHash
  }

  lemma SamePrefixIff(g: Signature, h: Signature)
    requires g.prefixTokens > 0 && h.prefixTokens > 0 && '\0' !in g.model && '\0' !in h.model
    ensures SamePrefix(g, h) <==> g.model == h.model && g.prefixHash == h.prefixHash
  {
    CompositeInjective(g.model, g.prefixHash, h.model, h.prefixHash);
  }

  /** Request `j` is the last before `i` with the prefix of `g`. */
  ghost predicate LastWith(trace: seq<Signature>, i: nat, g: Signature, j: int)
    requires i <= |trace|
  {
    0 <= j < i && SamePrefix(trace[j], g) && forall k :: j < k < i ==> !SamePrefix(trace[k], g)
  }

  lemma OwnerStep(c: Config, policy: Policy, s: Sim, h: Signature, index: nat, g: Signature)
    requires ValidConfig(c) && ValidSignature(h) && Fits(c, s) && ValidSignature(g)
    ensures Owner(Step(c, policy, s, h, index), g) ==
            if SamePrefix(h, g) then Some(ServiceOf(c, policy, s, h, index).backend) else Owner(s, g)
  {
    hide ServiceOf;
    hide Admit;
    hide Ttft;
  }

  ghost predicate OwnerFrom(c: Config, policy: Policy, trace: seq<Signature>, i: nat, g: Signature, owner: Option<nat>)
    requires ValidConfig(c) && ValidTrace(trace) && i <= |trace|
  {
    if exists j :: LastWith(trace, i, g, j)
    then exists j :: LastWith(trace, i, g, j) && owner == Some(ServiceAt(c, policy, trace, j).backend)
    else owner == None
  }

  /** The simulator's prefix owner is the backend of the last request with that prefix. */
  lemma {:induction false} OwnerIsLast(c: Config, policy: Policy, trace: seq<Signature>, i: nat, g: Signature)
    requires ValidConfig(c) && ValidTrace(trace) && ValidSignature(g) && i <= |trace|
    ensures OwnerFrom(c, policy, trace, i, g, Owner(Before(c, policy, trace, i), g))
  {
    hide Before;
    hide ServiceAt;
    hide ServiceOf;
    hide Step;
    hide SamePrefix;
    hide ValidTrace;
    hide ValidSignature;
    if i == 0 {
      BeforeFirst(c, policy, trace);
    } else {
      hide Owner;
      var k := i - 1;
      OwnerIsLast(c, policy, trace, k, g);
      BeforeNext(c, policy, trace, k);
      OwnerStep(c, policy, Before(c, policy, trace, k), trace[k], k, g);
      if SamePrefix(trace[k], g) {
        assert LastWith(trace, i, g, k);
      } else {
        hide LastWith;
        LastWithSnoc(trace, i, k, g);
      }
    }
  }

  lemma LastWithSnoc(trace: seq<Signature>, i: nat, k: nat, g: Signature)
    requires i == k + 1 <= |trace| && !SamePrefix(trace[k], g)
    ensures forall j :: LastWith(trace, i, g, j) <==> LastWith(trace, k, g, j)
    ensures forall j :: LastWith(trace, i, g, j) ==> 0 <= j < k
  {
    hide SamePrefix;
  }

  lemma OnlyLast(trace: seq<Signature>, i: nat, g: Signature, j: int, k: int)
    requires i <= |trace| && LastWith(trace, i, g, j) && LastWith(trace, i, g, k)
    ensures j == k
  {
    hide SamePrefix;
  }

  // ---- where a request goes ----

  /** No backend was free earlier, and none of a lower number as early. */
  ghost predicate FreeFirst(available: seq<real>, b: nat) {
    b < |available| && (forall other :: 0 <= other < |available| ==> available[b] <= available[other]) &&
    forall other :: 0 <= other < b ==> available[b] < available[other]
  }

  lemma {:induction false} LeastIsFreeFirst(available: seq<real>)
    requires available != []
    ensures FreeFirst(available, Least(available))
  {
    var n := |available| - 1;
    if n > 0 {
      LeastIsFreeFirst(available[..n]);
    }
  }

  lemma OneFreeFirst(available: seq<real>, a: nat, b: nat)
    requires FreeFirst(available, a) && FreeFirst(available, b)
    ensures a == b
  {
    assert available[a] <= available[b] && available[b] <= available[a];
  }

  /** How long a request admitted at `time` waits on a backend free at `free`. */
  ghost function Wait(free: real, time: real): real {
    if time < free then free - time else 0.0
  }

  /** The prefix was served before, makes up enough of the prompt, and its evidence may be used. */
  ghost predicate Warm(c: Config, trace: seq<Signature>, i: nat)
    requires i < |trace|
  {
    (exists j :: LastWith(trace, i, trace[i], j)) && c.evidence != Missing &&
    trace[i].prefixTokens as real >= c.minHitRatio * trace[i].promptTokens as real
  }

  lemma EnoughShared(prefix: real, prompt: real, ratio: real)
    requires prompt > 0.0
    ensures prefix / prompt >= ratio <==> prefix >= ratio * prompt
  {
    var q := prefix / prompt;
    assert q * prompt == prefix;
    Ordered(q, ratio, prompt);
  }

  lemma Ordered(x: real, y: real, factor: real)
    requires factor > 0.0
    ensures x >= y <==> x * factor >= y * factor
  {
    assert x * factor - y * factor == (x - y) * factor;
    Positive(x - y, factor);
  }

  lemma Positive(z: real, factor: real)
    requires factor > 0.0
    ensures z >= 0.0 <==> z * factor >= 0.0
  {
  }

  lemma WarmIsGate(c: Config, policy: Policy, trace: seq<Signature>, i: nat)
    requires ValidConfig(c) && ValidTrace(trace) && i < |trace|
    ensures trace[i] in trace && ValidSignature(trace[i])
    ensures GateOpen(c, Before(c, policy, trace, i), trace[i]) <==> Warm(c, trace, i)
  {
    hide Before;
    hide ServiceAt;
    hide Owner;
    hide LastWith;
    hide ValidTrace;
    Member(trace, i);
    OwnerIsLast(c, policy, trace, i, trace[i]);
    EnoughShared(trace[i].prefixTokens as real, trace[i].promptTokens as real, c.minHitRatio);
  }

  lemma Member(trace: seq<Signature>, i: nat)
    requires i < |trace| && ValidTrace(trace)
    ensures trace[i] in trace && ValidSignature(trace[i])
  {
  }

  /** The backend of the last request before `i` with the same prefix. */
  ghost predicate OwnerOf(c: Config, policy: Policy, trace: seq<Signature>, i: nat, owner: nat)
    requires ValidConfig(c) && ValidTrace(trace) && i < |trace|
  {
    exists j :: LastWith(trace, i, trace[i], j) && ServiceAt(c, policy, trace, j).backend == owner
  }

  /** The prefix's backend, unless the wait there is longer by more than the prefix saves. */
  ghost predicate Balanced(available: seq<real>, owner: nat, time: real, saved: real, b: nat) {
    owner < |available| &&
    if Wait(available[owner], time) <= saved + LeastWait(available, time) then b == owner else FreeFirst(available, b)
  }

  /** The wait on the backend free first. */
  ghost function LeastWait(available: seq<real>, time: real): real {
    if available == [] then 0.0 else Wait(available[Least(available)], time)
  }

  lemma LeastWaitIs(available: seq<real>, time: real, b: nat)
    requires FreeFirst(available, b)
    ensures LeastWait(available, time) == Wait(available[b], time)
  {
    LeastIsFreeFirst(available);
    OneFreeFirst(available, b, Least(available));
  }

  ghost predicate Goes(c: Config, policy: Policy, trace: seq<Signature>, i: nat, b: nat)
    requires ValidConfig(c) && ValidTrace(trace) && i < |trace|
  {
    var available := Before(c, policy, trace, i).available;
    match policy
    case RoundRobin => b == i % c.backends
    case LoadAware => FreeFirst(available, b)
    case KvV1 => if Warm(c, trace, i) then OwnerOf(c, policy, trace, i, b) else FreeFirst(available, b)
    case KvV2 =>
      if Warm(c, trace, i)
      then exists owner: nat :: OwnerOf(c, policy, trace, i, owner) &&
             Balanced(available, owner, ServiceAt(c, policy, trace, i).admitted,
                      trace[i].prefixTokens as real * (1000.0 / c.prefillRate), b)
      else FreeFirst(available, b)
  }

  lemma SavedIs(tokens: int, rate: real)
    requires rate > 0.0
    ensures Millis(tokens, rate) == tokens as real * (1000.0 / rate)
  {
  }

  /**
   Where every request of every trace goes: in turn; to the backend free first;
   after its prefix whenever the gate is open; or after its prefix unless it
   would wait longer there than the prefix saves.
   */
  lemma RequestGoes(c: Config, policy: Policy, trace: seq<Signature>, i: nat)
    requires ValidConfig(c) && ValidTrace(trace) && i < |trace|
    ensures Goes(c, policy, trace, i, ServiceAt(c, policy, trace, i).backend)
  {
    hide Before;
    hide ServiceAt;
    hide Warm;
    hide LastWith;
    hide OwnerOf;
    hide FreeFirst;
    hide GateOpen;
    hide Owner;
    hide Millis;
    hide Least;
    hide LeastWait;
    hide ValidTrace;
    BeforeNext(c, policy, trace, i);
    var s, v := Before(c, policy, trace, i), ServiceAt(c, policy, trace, i);
    RouteTaken(c, policy, s, trace[i], i);
    LeastIsFreeFirst(s.available);
    LeastWaitIs(s.available, v.admitted, Least(s.available));
    WarmIsGate(c, policy, trace, i);
    SavedIs(trace[i].prefixTokens, c.prefillRate);
    OwnedBy(c, policy, trace, i);
    GateHasOwner(c, s, trace[i]);
    if policy.KvV2? && Warm(c, trace, i) {
      var owner := Owner(s, trace[i]).value;
      assert OwnerOf(c, policy, trace, i, owner);
      assert Balanced(s.available, owner, v.admitted, trace[i].prefixTokens as real * (1000.0 / c.prefillRate), v.backend);
    }
  }

  lemma RouteTaken(c: Config, policy: Policy, s: Sim, g: Signature, index: nat)
    requires ValidConfig(c) && ValidSignature(g) && Fits(c, s)
    ensures var v := ServiceOf(c, policy, s, g, index); v.backend == Route(c, policy, s, g, index, v.admitted)
  {
  }

  lemma GateHasOwner(c: Config, s: Sim, g: Signature)
    requires ValidSignature(g)
    ensures GateOpen(c, s, g) ==> Owner(s, g).Some?
  {
  }

  lemma OwnedBy(c: Config, policy: Policy, trace: seq<Signature>, i: nat)
    requires ValidConfig(c) && ValidTrace(trace) && i < |trace|
    ensures var owner := Owner(Before(c, policy, trace, i), trace[i]);
            if owner.Some? then owner.value < c.backends && forall b :: OwnerOf(c, policy, trace, i, b) <==> b == owner.value
            else forall b :: !OwnerOf(c, policy, trace, i, b)
  {
    hide Before;
    hide ServiceAt;
    hide LastWith;
    hide ValidTrace;
    Member(trace, i);
    OwnerIsLast(c, policy, trace, i, trace[i]);
    OwnerInRange(c, Before(c, policy, trace, i), trace[i]);
    forall j, k | LastWith(trace, i, trace[i], j) && LastWith(trace, i, trace[i], k) ensures j == k {
      OnlyLast(trace, i, trace[i], j, k);
    }
  }

  lemma OwnerInRange(c: Config, s: Sim, g: Signature)
    requires Fits(c, s)
    ensures Owner(s, g).Some? ==> Owner(s, g).value < c.backends
  {
  }

  // ---- what a request reuses and how long it takes ----

  /** The tokens of its prefix, if the backend is where that was served last. */
  ghost predicate Reuses(c: Config, policy: Policy, trace: seq<Signature>, i: nat, tokens: int)
    requires ValidConfig(c) && ValidTrace(trace) && i < |trace|
  {
    tokens == if OwnerOf(c, policy, trace, i, ServiceAt(c, policy, trace, i).backend) then trace[i].prefixTokens else 0
  }

  lemma ReusesIs(c: Config, policy: Policy, trace: seq<Signature>, i: nat)
    requires ValidConfig(c) && ValidTrace(trace) && i < |trace|
    ensures Reuses(c, policy, trace, i,
                   Cached(Before(c, policy, trace, i), trace[i], ServiceAt(c, policy, trace, i).backend))
  {
    hide Before;
    hide ServiceAt;
    hide OwnerOf;
    hide ValidTrace;
    hide Owner;
    OwnedBy(c, policy, trace, i);
  }

  /**
   The service of every request: it starts once it is admitted and the backend
   is free; the first token comes after the wait, eight milliseconds and what of
   the prompt is not reused; it ends after the output; and the books carry that.
   */
  lemma ServiceIs(c: Config, policy: Policy, trace: seq<Signature>, i: nat, tokens: int)
    requires ValidConfig(c) && ValidTrace(trace) && i < |trace|
    requires Reuses(c, policy, trace, i, tokens)
    ensures var s, t := Before(c, policy, trace, i), Before(c, policy, trace, i + 1);
            var v := ServiceAt(c, policy, trace, i);
            var wait := Wait(s.available[v.backend], v.admitted);
            var first := wait + 8.0 + (trace[i].promptTokens - tokens) as real * (1000.0 / c.prefillRate);
            && v.start == v.admitted + wait
            && v.end == v.admitted + first + trace[i].outputTokens as real * (1000.0 / c.decodeRate)
            && t.ttfts == s.ttfts + [first]
            && t.reused == s.reused + tokens && t.shared == s.shared + trace[i].prefixTokens
            && t.arrival == s.arrival + trace[i].arrivalDelta
            && t.violations == s.violations + (if first <= c.sloMs then 0 else 1)
            && t.routes == s.routes[v.backend := s.routes[v.backend] + 1]
            && t.finish >= v.end && t.finish >= s.finish && t.finish in {v.end, s.finish}
  {
    hide Before;
    hide ServiceAt;
    hide Admit;
    hide Route;
    hide Millis;
    hide Reuses;
    hide Cached;
    hide ValidTrace;
    BeforeNext(c, policy, trace, i);
    var s := Before(c, policy, trace, i);
    var v := ServiceAt(c, policy, trace, i);
    ReusesIs(c, policy, trace, i);
    OneReuse(c, policy, trace, i, tokens, Cached(s, trace[i], v.backend));
    SavedIs(trace[i].promptTokens - tokens, c.prefillRate);
    SavedIs(trace[i].outputTokens, c.decodeRate);
  }

  lemma OneReuse(c: Config, policy: Policy, trace: seq<Signature>, i: nat, x: int, y: int)
    requires ValidConfig(c) && ValidTrace(trace) && i < |trace|
    requires Reuses(c, policy, trace, i, x) && Reuses(c, policy, trace, i, y)
    ensures x == y
  {
    hide OwnerOf;
  }

  /** Before the first request nothing has happened. */
  lemma NothingServed(c: Config, policy: Policy, trace: seq<Signature>, b: nat)
    requires ValidConfig(c) && ValidTrace(trace) && b < c.backends
    ensures var s := Before(c, policy, trace, 0);
            && s.available[b] == 0.0 && s.routes[b] == 0 && s.arrival == s.finish == 0.0 && s.ttfts == [] && s.active == []
            && s.shared == s.reused == 0 && s.violations == 0
  {
    BeforeFirst(c, policy, trace);
  }

  /** With the gate open, policy kv-v1 reuses the whole prefix. */
  lemma KvV1ReusesAll(c: Config, trace: seq<Signature>, i: nat)
    requires ValidConfig(c) && ValidTrace(trace) && i < |trace|
    requires Warm(c, trace, i)
    ensures Before(c, KvV1, trace, i + 1).reused == Before(c, KvV1, trace, i).reused + trace[i].prefixTokens
  {
    hide Before;
    hide ServiceAt;
    hide OwnerOf;
    hide Warm;
    RequestGoes(c, KvV1, trace, i);
    ServiceIs(c, KvV1, trace, i, trace[i].prefixTokens);
  }

  // ---- round robin is even ----

  /** After `n` requests in turn, backend `b` has had this many. */
  ghost function Turns(n: nat, backends: nat, b: nat): nat
    requires b < backends
  {
    n / backends + if b < n % backends then 1 else 0
  }

  lemma TurnsStep(n: nat, backends: nat, b: nat)
    requires b < backends
    ensures Turns(n + 1, backends, b) == Turns(n, backends, b) + if b == n % backends then 1 else 0
  {
    var q, r := n / backends, n % backends;
    if r + 1 < backends {
      DivModUnique(n + 1, q, r + 1, backends);
    } else {
      assert n + 1 == q * backends + backends == (q + 1) * backends;
      DivModUnique(n + 1, q + 1, 0, backends);
    }
  }

  lemma {:induction false} RoundRobinCounts(c: Config, trace: seq<Signature>, b: nat)
    requires ValidConfig(c) && ValidTrace(trace) && b < c.backends
    ensures After(c, RoundRobin, trace).routes[b] == Turns(|trace|, c.backends, b)
  {
    hide ServiceOf;
    hide Turns;
    if trace == [] {
      NoTurns(c.backends, b);
    } else {
      var n := |trace| - 1;
      RoundRobinCounts(c, trace[..n], b);
      TurnsStep(n, c.backends, b);
      InTurn(c, After(c, RoundRobin, trace[..n]), trace[n], n);
    }
  }

  lemma NoTurns(backends: nat, b: nat)
    requires b < backends
    ensures Turns(0, backends, b) == 0
  {
  }

  lemma InTurn(c: Config, s: Sim, g: Signature, index: nat)
    requires ValidConfig(c) && ValidSignature(g) && Fits(c, s)
    ensures ServiceOf(c, RoundRobin, s, g, index).backend == index % c.backends
  {
  }

  /** In turn, no backend ever gets two requests more than another. */
  lemma RoundRobinIsEven(c: Config, trace: seq<Signature>, a: nat, b: nat)
    requires ValidConfig(c) && ValidTrace(trace) && a < c.backends && b < c.backends
    ensures After(c, RoundRobin, trace).routes[a] <= After(c, RoundRobin, trace).routes[b] + 1
  {
    RoundRobinCounts(c, trace, a);
    RoundRobinCounts(c, trace, b);
  }
}
