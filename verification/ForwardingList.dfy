/**
 From the registry's candidates to the list of backends that a request is tried
 on: the plan's eligible ones, the selected one first.
 */
module ForwardingList {
  import opened Common
  import opened StringOrder
  import opened Recency
  import opened BackendRegistry
  import opened RoutingPlan
  import Experiment
  import RouteAffinity

  function WithIds(backends: seq<Backend>, ids: set<string>): seq<Backend> {
    if backends == [] then []
    else
      var init := WithIds(backends[..|backends| - 1], ids);
      if backends[|backends| - 1].id in ids then init + [backends[|backends| - 1]] else init
  }

  function EligibleIds(candidates: seq<Candidate>): set<string> {
    set c | c in candidates && c.eligible :: c.id
  }

  /** The backends of the first ID, then the others, each group in its order. */
  function Headed(backends: seq<Backend>, id: string): seq<Backend> {
    WithIds(backends, {id}) + WithIds(backends, (set b | b in backends :: b.id) - {id})
  }

  function Preferred(d: Decision): Option<string> {
    if !d.enforced || d.fallback then None else d.selected
  }

  function Forwarded(d: Decision, candidates: seq<Backend>): seq<Backend> {
    var kept := WithIds(candidates, EligibleIds(d.candidates));
    match Preferred(d)
    case None => kept
    case Some(id) => Headed(kept, id)
  }

  /** Filter the list in place; the first `n` places hold what is kept. */
  method KeepEligible(candidates: array<Backend>, eligible: set<string>) returns (n: nat)
    modifies candidates
    ensures n <= candidates.Length && candidates[..n] == WithIds(old(candidates[..]), eligible)
  {
    ghost var before := candidates[..];
    n := 0;
    for k := 0 to candidates.Length
      invariant n <= k && candidates[..n] == WithIds(before[..k], eligible)
      invariant candidates[k..] == before[k..]
    {
      assert candidates[k] == candidates[k..][0] == before[k];
      assert before[..k + 1][..k] == before[..k];
      if candidates[k].id in eligible {
        candidates[n] := candidates[k];
        n := n + 1;
      }
      assert candidates[k + 1..] == before[k..][1..];
    }
    assert before[..|before|] == before;
  }

  /** The affinity of the tenant's cache key follows an enforced selection. */
  method PreferredIds(d: Decision, tenant: string, cacheKey: string, now: int, affinity: RouteAffinity.Affinity?)
    returns (ids: seq<string>)
    requires affinity != null ==> affinity.Valid()
    modifies if affinity == null then {} else {affinity}
    ensures affinity != null ==> affinity.Valid()
    ensures ids == match Preferred(d) case None => [] case Some(id) => [id]
    ensures affinity != null ==>
              affinity.order ==
              (if Preferred(d).None? || cacheKey == "" then old(affinity.order)
               else RouteAffinity.AfterPut(affinity.max, affinity.ttl, old(affinity.order), Composite(tenant, cacheKey),
                                           Preferred(d).value, now))
  {
    if !d.enforced || d.fallback || d.selected.None? {
      return [];
    }
    if affinity != null && cacheKey != "" {
      affinity.Put(tenant, cacheKey, d.selected.value, now);
    }
    ids := [d.selected.value];
  }

  method PutFirst(kept: seq<Backend>, preferred: seq<string>) returns (ordered: seq<Backend>)
    requires |preferred| == 1
    ensures ordered == Headed(kept, preferred[0])
  {
    ordered := [];
    var used: set<string> := {};
    for k := 0 to |kept|
      invariant ordered == WithIds(kept[..k], {preferred[0]})
      invariant used <= {preferred[0]}
      invariant preferred[0] !in used ==> forall i :: 0 <= i < k ==> kept[i].id != preferred[0]
    {
      assert kept[..k + 1][..k] == kept[..k];
      if kept[k].id == preferred[0] {
        ordered := ordered + [kept[k]];
        used := used + {preferred[0]};
      }
    }
    assert kept[..|kept|] == kept;
    ghost var head := ordered;
    ghost var others := (set b | b in kept :: b.id) - {preferred[0]};
    NilUnit(head);
    for k := 0 to |kept|
      invariant ordered == head + WithIds(kept[..k], others)
    {
      assert kept[..k + 1][..k] == kept[..k];
      assert kept[k] in kept;
      if kept[k].id !in used {
        Assoc(head, WithIds(kept[..k], others), [kept[k]]);
        ordered := ordered + [kept[k]];
      }
    }
  }

  /** Without a router the registry's order stands; without a registry there is one default backend. */
  method BackendCandidates(registry: Registry?, router: Option<Setting>, request: Request,
                           affinity: RouteAffinity.Affinity?) returns (ordered: seq<Backend>, decision: Decision)
    requires registry != null ==> registry.Valid()
    requires router.Some? && router.value.experiment.Some? ==> Experiment.Sound(router.value.experiment.value)
    requires affinity != null ==> affinity.Valid()
    modifies (if registry == null then {} else {registry}), if affinity == null then {} else {affinity}
    ensures registry != null ==> registry.Valid() && registry.entries == old(registry.entries)
    ensures affinity != null ==> affinity.Valid()
    ensures var candidates :=
              if registry == null then [DEFAULT] else CandidateList(registry.entries, request.model, old(registry.cursor));
            match router
            case None => ordered == candidates
            case Some(s) => decision == PlanOf(s, request, candidates) && ordered == Forwarded(decision, candidates)
    ensures registry != null ==>
              registry.cursor == NextCursor(registry.entries, request.model, old(registry.cursor), CURSOR_WRAP)
    ensures affinity != null ==>
              affinity.order ==
              (if router.None? || Preferred(decision).None? || request.cacheKey == "" then old(affinity.order)
               else RouteAffinity.AfterPut(affinity.max, affinity.ttl, old(affinity.order),
                                           Composite(request.tenant, request.cacheKey), Preferred(decision).value,
                                           router.value.now))
  {
    hide NextCursor;
    hide RouteAffinity.AfterPut;
    hide CandidateList;
    hide PlanOf;
    var candidates := [DEFAULT];
    if registry != null {
      candidates := registry.Candidates(request.model);
    }
    if router.None? {
      return candidates, Decision(Static, false, None, false, StaticRoundRobin, []);
    }
    ordered, decision := PlanAndOrder(router.value, request, candidates, affinity);
  }

  method PlanAndOrder(s: Setting, request: Request, candidates: seq<Backend>, affinity: RouteAffinity.Affinity?)
    returns (ordered: seq<Backend>, decision: Decision)
    requires s.experiment.Some? ==> Experiment.Sound(s.experiment.value)
    requires affinity != null ==> affinity.Valid()
    modifies if affinity == null then {} else {affinity}
    ensures affinity != null ==> affinity.Valid()
    ensures decision == PlanOf(s, request, candidates) && ordered == Forwarded(decision, candidates)
    ensures affinity != null ==>
              affinity.order ==
              (if Preferred(decision).None? || request.cacheKey == "" then old(affinity.order)
               else RouteAffinity.AfterPut(affinity.max, affinity.ttl, old(affinity.order),
                                           Composite(request.tenant, request.cacheKey), Preferred(decision).value, s.now))
  {
    hide PlanOf;
    hide WithIds;
    hide Headed;
    hide EligibleIds;
    hide RouteAffinity.AfterPut;
    decision := Plan(s, request, candidates);
    var places := new Backend[|candidates|](i requires 0 <= i < |candidates| => candidates[i]);
    assert places[..] == candidates;
    var n := KeepEligible(places, EligibleIds(decision.candidates));
    var kept := places[..n];
    var preferred := PreferredIds(decision, request.tenant, request.cacheKey, s.now, affinity);
    if preferred == [] {
      return kept, decision;
    }
    ordered := PutFirst(kept, preferred);
  }

  const DEFAULT := Backend("default", 1, {}, map[])

  // ---- what the list promises ----

  lemma {:induction false} WithIdsCount(backends: seq<Backend>, ids: set<string>, b: Backend)
    ensures multiset(WithIds(backends, ids))[b] == if b.id in ids then multiset(backends)[b] else 0
  {
    if backends != [] {
      var n := |backends| - 1;
      WithIdsCount(backends[..n], ids, b);
      TakeDrop(backends, n);
      assert backends == backends[..n] + [backends[n]];
    }
  }

  lemma {:induction false} WithIdsMembers(backends: seq<Backend>, ids: set<string>)
    ensures forall b :: b in WithIds(backends, ids) <==> b in backends && b.id in ids
  {
    forall b ensures b in WithIds(backends, ids) <==> b in backends && b.id in ids {
      WithIdsCount(backends, ids, b);
      assert b in WithIds(backends, ids) <==> multiset(WithIds(backends, ids))[b] > 0;
      assert b in backends <==> multiset(backends)[b] > 0;
    }
  }

  lemma HeadedIsPermutation(backends: seq<Backend>, id: string)
    ensures multiset(Headed(backends, id)) == multiset(backends)
    ensures (exists b :: b in backends && b.id == id) ==> Headed(backends, id) != [] && Headed(backends, id)[0].id == id
  {
    hide WithIds;
    var others := (set b | b in backends :: b.id) - {id};
    forall b: Backend ensures multiset(Headed(backends, id))[b] == multiset(backends)[b] {
      WithIdsCount(backends, {id}, b);
      WithIdsCount(backends, others, b);
      if multiset(backends)[b] > 0 {
        assert b in backends;
      }
    }
    WithIdsMembers(backends, {id});
    if b :| b in backends && b.id == id {
      assert b in WithIds(backends, {id});
      assert WithIds(backends, {id})[0] in WithIds(backends, {id});
    }
  }

  /**
   The list is a permutation of the plan's eligible candidates, and an enforced
   selection that is no fallback heads it.
   */
  lemma ForwardedIsPermutation(s: Setting, request: Request, candidates: seq<Backend>)
    requires s.experiment.Some? ==> Experiment.Sound(s.experiment.value)
    ensures var d := PlanOf(s, request, candidates);
            var list := Forwarded(d, candidates);
            && multiset(list) == multiset(WithIds(candidates, EligibleIds(d.candidates)))
            && (d.enforced && !d.fallback && d.selected.Some? ==> list != [] && list[0].id == d.selected.value)
  {
    hide PlanOf;
    hide WithIds;
    hide Headed;
    hide Best;
    hide Meets;
    hide InPool;
    hide Resolve;
    hide Confident;
    var d := PlanOf(s, request, candidates);
    var kept := WithIds(candidates, EligibleIds(d.candidates));
    if Preferred(d).Some? {
      var b, c := PlacementIsSafe(s, request, candidates);
      BestIsThere(d.candidates, c);
      assert c.id in EligibleIds(d.candidates);
      WithIdsMembers(candidates, EligibleIds(d.candidates));
      assert b in kept;
      HeadedIsPermutation(kept, d.selected.value);
    }
  }

  lemma BestIsThere(candidates: seq<Candidate>, c: Candidate)
    requires Best(candidates, c)
    ensures c in candidates && c.eligible
  {
  }

  /** A request is tried on exactly the registry's eligible backends that meet its constraints, on each once. */
  lemma ForwardedIff(s: Setting, request: Request, entries: Entries, cursor: nat, b: Backend)
    requires s.experiment.Some? ==> Experiment.Sound(s.experiment.value)
    requires Filed(entries)
    ensures var candidates := CandidateList(entries, request.model, cursor);
            var list := Forwarded(PlanOf(s, request, candidates), candidates);
            multiset(list)[b] ==
            if b.id in entries && entries[b.id].backend == b && Eligible(entries[b.id], request.model) &&
               InPool(Resolve(s, request.id).pool, b.id) && Meets(request.requirements, b.attributes) then 1 else 0
  {
    hide PlanOf;
    hide WithIds;
    hide Forwarded;
    hide CandidateList;
    hide Meets;
    hide InPool;
    hide Resolve;
    hide AllDiffer;
    hide EligibleAmong;
    var candidates := CandidateList(entries, request.model, cursor);
    var d := PlanOf(s, request, candidates);
    ForwardedIsPermutation(s, request, candidates);
    CandidatesAreEligible(entries, request.model, cursor);
    WithIdsCount(candidates, EligibleIds(d.candidates), b);
    OnceEach(EligibleAmong(entries, request.model, InOrder(entries.Keys)), b);
    assert b in candidates <==> multiset(candidates)[b] > 0;
    CandidatesDescribeBackends(s, request, candidates, b.id);
    if b in candidates {
      assert b.id in EligibleIds(d.candidates) <==> exists c :: c in d.candidates && c.eligible && c.id == b.id;
      if x :| x in candidates && x.id == b.id && InPool(Resolve(s, request.id).pool, b.id) &&
              Meets(request.requirements, x.attributes) {
        assert entries[x.id].backend == x == b;
      }
    }
  }

  // ---- the order of the list ----

  /** Some of the backends in the order they have there. */
  ghost predicate InTheirOrder(part: seq<Backend>, whole: seq<Backend>) {
    exists places: seq<int> :: Places(part, whole, places)
  }

  ghost predicate Places(part: seq<Backend>, whole: seq<Backend>, places: seq<int>) {
    && |places| == |part|
    && (forall i :: 0 <= i < |part| ==> 0 <= places[i] < |whole| && whole[places[i]] == part[i])
    && (forall i, j :: 0 <= i < j < |part| ==> places[i] < places[j])
  }

  lemma {:induction false} WithIdsInOrder(backends: seq<Backend>, ids: set<string>)
    ensures InTheirOrder(WithIds(backends, ids), backends)
  {
    if backends == [] {
      assert Places([], [], []);
    } else {
      var n := |backends| - 1;
      var init := WithIds(backends[..n], ids);
      WithIdsInOrder(backends[..n], ids);
      var places :| Places(init, backends[..n], places);
      assert Places(init, backends, places);
      if backends[n].id in ids {
        assert Places(init + [backends[n]], backends, places + [n]);
      }
    }
  }

  lemma {:induction false} WithSomeIds(backends: seq<Backend>, ids: set<string>, others: set<string>)
    ensures WithIds(WithIds(backends, ids), others) == WithIds(backends, ids * others)
  {
    if backends != [] {
      var n := |backends| - 1;
      var init := WithIds(backends[..n], ids);
      WithSomeIds(backends[..n], ids, others);
      NilUnit(init);
      if backends[n].id in ids {
        assert (init + [backends[n]])[..|init|] == init;
      }
    }
  }

  /**
   The eligible candidates stay in the order of the registry's list. Only a
   selection that is enforced and no fallback comes before all others; a
   shadowed or missing one moves nothing.
   */
  lemma ForwardedInOrder(s: Setting, request: Request, candidates: seq<Backend>) returns (head: seq<Backend>, rest: seq<Backend>)
    requires s.experiment.Some? ==> Experiment.Sound(s.experiment.value)
    ensures var d := PlanOf(s, request, candidates);
            && Forwarded(d, candidates) == head + rest
            && InTheirOrder(head, candidates) && InTheirOrder(rest, candidates)
            && (if d.enforced && !d.fallback && d.selected.Some?
                then (forall b :: b in head ==> b.id == d.selected.value) && (forall b :: b in rest ==> b.id != d.selected.value)
                else head == [])
  {
    hide PlanOf;
    hide WithIds;
    hide InTheirOrder;
    var d := PlanOf(s, request, candidates);
    var kept := WithIds(candidates, EligibleIds(d.candidates));
    match Preferred(d)
    case None =>
      head, rest := [], kept;
      WithIdsInOrder(candidates, EligibleIds(d.candidates));
      WithIdsInOrder(candidates, {});
      NothingKept(candidates);
      NilUnit(kept);
    case Some(id) =>
      var others := (set b | b in kept :: b.id) - {id};
      head, rest := WithIds(kept, {id}), WithIds(kept, others);
      WithSomeIds(candidates, EligibleIds(d.candidates), {id});
      WithSomeIds(candidates, EligibleIds(d.candidates), others);
      WithIdsInOrder(candidates, EligibleIds(d.candidates) * {id});
      WithIdsInOrder(candidates, EligibleIds(d.candidates) * others);
      WithIdsMembers(kept, {id});
      WithIdsMembers(kept, others);
  }

  lemma {:induction false} NothingKept(candidates: seq<Backend>)
    ensures WithIds(candidates, {}) == []
  {
    if candidates != [] {
      NothingKept(candidates[..|candidates| - 1]);
    }
  }
}
