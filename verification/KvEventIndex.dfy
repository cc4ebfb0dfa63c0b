/**
 The gateway's index of KV-cache blocks: engine events come in, duplicates and
 late ones are dropped, a new generation clears its backend, and the blocks
 held are a bounded least-recently-used list.
 */
module KvEventIndex {
  import opened Common
  import opened Recency

  datatype Quality = Unset | Fresh | Stale | Missing | Invalid

  datatype KvEvent = KvEvent(
    operation: string, backendId: string, cacheKey: string, matchedTokens: int, totalTokens: int,
    sequence: nat, hasSequence: bool, generation: string, engineEventId: string,
    observedAt: Option<int>, quality: Quality)

  const CLEAR := "clear"
  const REMOVE := "remove"

  /** `seen` lists the remembered event keys, oldest first. */
  datatype Index = Index(
    items: seq<Item<KvEvent>>, generation: map<string, string>, last: map<string, nat>, seen: seq<string>)

  const EMPTY := Index([], map[], map[], [])

  ghost predicate WellFormed(max: nat, x: Index) {
    && Distinct(x.items) && |x.items| <= max
    && (forall i, j :: 0 <= i < j < |x.seen| ==> x.seen[i] != x.seen[j])
    && |x.seen| <= 4 * max
  }

  function Defaulted(e: KvEvent, now: int): KvEvent {
    e.(observedAt := if e.observedAt.None? then Some(now) else e.observedAt,
       quality := if e.quality.Unset? then Fresh else e.quality)
  }

  function Cleared(items: seq<Item<KvEvent>>, backendId: string): seq<Item<KvEvent>> {
    Keep(items, (item: Item<KvEvent>) => !HasPrefix(item.key, backendId + NUL))
  }

  /** A named generation that differs from the backend's named one starts the backend afresh. */
  function Switched(x: Index, e: KvEvent): Index {
    var known := if e.backendId in x.generation then x.generation[e.backendId] else "";
    var base := if e.generation != "" && known != "" && known != e.generation
                 then x.(items := Cleared(x.items, e.backendId), last := x.last - {e.backendId}) else x;
    if e.generation != "" then base.(generation := base.generation[e.backendId := e.generation]) else base
  }

  predicate Sequenced(e: KvEvent) {
    e.hasSequence || e.sequence > 0
  }

  function EventKey(e: KvEvent): string {
    Composite(e.backendId, e.engineEventId)
  }

  predicate Late(x: Index, e: KvEvent) {
    Sequenced(e) && e.backendId in x.last &&
    (if e.engineEventId != "" then e.sequence < x.last[e.backendId] else e.sequence <= x.last[e.backendId])
  }

  predicate Dropped(x: Index, e: KvEvent) {
    (e.engineEventId != "" && EventKey(e) in x.seen) || Late(x, e)
  }

  /** The event is remembered by its key, with its sequence number. */
  function Noted(max: nat, x: Index, e: KvEvent): Index {
    var seen := if e.engineEventId == "" then x.seen else Newest(4 * max, x.seen + [EventKey(e)]);
    x.(seen := seen, last := if Sequenced(e) then x.last[e.backendId := e.sequence] else x.last)
  }

  function Newest(limit: nat, keys: seq<string>): seq<string> {
    if |keys| > limit then keys[|keys| - limit..] else keys
  }

  function Performed(max: nat, x: Index, e: KvEvent): Index {
    var key := Composite(e.backendId, e.cacheKey);
    if e.operation == CLEAR then x.(items := Cleared(x.items, e.backendId))
    else if e.operation == REMOVE then x.(items := Without(x.items, key))
    else x.(items := Trim(max, ToFront(x.items, Item(key, e))))
  }

  predicate Ignored(e: KvEvent) {
    e.backendId == "" || (e.operation != CLEAR && e.cacheKey == "")
  }

  function Observed(max: nat, x: Index, event: KvEvent, now: int): Index {
    if Ignored(event) then x
    else
      var e := Defaulted(event, now);
      var y := Switched(x, e);
      if Dropped(y, e) then y else Performed(max, Noted(max, y, e), e)
  }

  /** What is delivered twice counts once: anything with an ID or a sequence number, whatever the index holds. */
  lemma ObservedTwice(max: nat, x: Index, event: KvEvent, now: int, later: int)
    requires max > 0 && (event.engineEventId != "" || event.hasSequence || event.sequence > 0)
    ensures Observed(max, Observed(max, x, event, now), event, later) == Observed(max, x, event, now)
  {
    hide Switched;
    hide Dropped;
    hide Noted;
    hide Performed;
    var e, again := Defaulted(event, now), Defaulted(event, later);
    var y := Switched(x, e);
    var z := Observed(max, x, event, now);
    if !Ignored(event) {
      SwitchedOnce(x, y, e, again);
      PerformedItemsOnly(max, Noted(max, y, e), e);
      NotedOnce(max, y, z, e, again);
      SwitchedOnce(x, z, e, again);
    }
  }

  /** An index whose backend is already of the event's generation is not switched. */
  lemma SwitchedOnce(x: Index, z: Index, e: KvEvent, again: KvEvent)
    requires again.generation == e.generation && again.backendId == e.backendId
    ensures z.generation == Switched(x, e).generation ==> Switched(z, again) == z
  {
    hide Cleared;
    if e.generation != "" && z.generation == Switched(x, e).generation {
      assert z.generation[e.backendId := e.generation] == z.generation;
    }
  }

  /** Once noted, the event is a repeat or late. */
  lemma NotedOnce(max: nat, y: Index, z: Index, e: KvEvent, again: KvEvent)
    requires max > 0 && (e.engineEventId != "" || Sequenced(e)) && again == e.(observedAt := again.observedAt)
    ensures Dropped(y, e) ==> Dropped(y, again)
    ensures z == Noted(max, y, e).(items := z.items) ==> z.generation == y.generation && Dropped(z, again)
  {
    hide Newest;
    hide Composite;
    NewestHasLast(4 * max, y.seen, EventKey(e));
  }

  /** An event without a backend, or one about a block without its key, changes nothing. */
  lemma NamelessIgnored(max: nat, x: Index, event: KvEvent, now: int)
    requires event.backendId == "" || (event.operation != "clear" && event.cacheKey == "")
    ensures Observed(max, x, event, now) == x
  {
  }

  lemma NewestHasLast(limit: nat, keys: seq<string>, key: string)
    requires limit > 0
    ensures key in Newest(limit, keys + [key])
  {
    var all := Newest(limit, keys + [key]);
    assert all[|all| - 1] == key;
  }

  /** Within one generation a backend's last sequence number never goes down. */
  lemma LastGrows(max: nat, x: Index, event: KvEvent, now: int, b: string)
    requires b in x.last
    ensures var y := Observed(max, x, event, now);
            (b in y.last && y.last[b] >= x.last[b]) ||
            (b == event.backendId && b in x.generation && event.generation !in {"", x.generation[b]} &&
             b in y.generation && y.generation[b] == event.generation)
  {
    hide Cleared;
    hide Performed;
    hide Newest;
    var e := Defaulted(event, now);
    var y := Switched(x, e);
    if !Ignored(event) && !Dropped(y, e) {
      PerformedItemsOnly(max, Noted(max, y, e), e);
    }
  }

  lemma PerformedItemsOnly(max: nat, x: Index, e: KvEvent)
    ensures Performed(max, x, e) == x.(items := Performed(max, x, e).items)
  {
  }

  // ---- the index is kept well formed ----

  lemma PerformedWellFormed(max: nat, x: Index, e: KvEvent)
    requires WellFormed(max, x)
    ensures WellFormed(max, Performed(max, x, e))
  {
    var key := Composite(e.backendId, e.cacheKey);
    if e.operation == CLEAR {
      ClearedDistinct(x.items, e.backendId);
    } else if e.operation == REMOVE {
      WithoutDistinct(x.items, key);
    } else {
      ToFrontDistinct(x.items, Item(key, e));
    }
  }

  lemma ClearedDistinct(items: seq<Item<KvEvent>>, backendId: string)
    requires Distinct(items)
    ensures Distinct(Cleared(items, backendId)) && |Cleared(items, backendId)| <= |items|
  {
    KeepDistinct(items, (item: Item<KvEvent>) => !HasPrefix(item.key, backendId + NUL));
    KeepMembers(items, (item: Item<KvEvent>) => !HasPrefix(item.key, backendId + NUL));
  }

  lemma NotedWellFormed(max: nat, x: Index, e: KvEvent)
    requires WellFormed(max, x) && (e.engineEventId != "" ==> EventKey(e) !in x.seen)
    ensures WellFormed(max, Noted(max, x, e))
  {
  }

  lemma ObservedWellFormed(max: nat, x: Index, event: KvEvent, now: int)
    requires WellFormed(max, x)
    ensures WellFormed(max, Observed(max, x, event, now))
  {
    if !Ignored(event) {
      var e := Defaulted(event, now);
      ClearedDistinct(x.items, e.backendId);
      var y := Switched(x, e);
      if !Dropped(y, e) {
        PerformedWellFormed(max, Noted(max, y, e), e);
      }
    }
  }

  // ---- whose entries a clear removes ----

  /**
   A clear of `cleared` removes the entry of backend `id`, exactly when the two
   are the same backend or `id` continues the cleared ID with a NUL.
   */
  lemma ClearRemovesIff(items: seq<Item<KvEvent>>, id: string, key: string, cleared: string)
    requires Distinct(items) && Has(items, Composite(id, key)) && NUL[0] !in cleared
    ensures !Has(Cleared(items, cleared), Composite(id, key)) <==> id == cleared || (cleared + NUL) <= id
  {
    var full := Composite(id, key);
    FindKept(items, (item: Item<KvEvent>) => !HasPrefix(item.key, cleared + NUL), full);
    PrefixAtNul(id, key, cleared);
    if (cleared + NUL) <= id {
      assert full[..|cleared| + 1] == id[..|cleared| + 1];
    }
    if HasPrefix(full, cleared + NUL) {
      if |cleared| < |id| {
        assert full[..|cleared| + 1] == id[..|cleared| + 1];
      } else {
        assert id == full[..|id|];
      }
    }
  }

  // ---- what a lookup reports ----

  datatype Evidence = Evidence(
    matchedTokens: int, matchRatio: real, observedAt: Option<int>, quality: Quality, confidence: real)

  const MISSING := Evidence(0, 0.0, None, Missing, 0.0)

  function Time(e: KvEvent): int {
    if e.observedAt.Some? then e.observedAt.value else 0
  }

  function AtLeastZero(n: int): int {
    if n > 0 then n else 0
  }

  function Capped(n: int, limit: int): int {
    if limit > 0 && n > limit then limit else n
  }

  function Clamp01(x: real): real {
    if x < 0.0 then 0.0 else if x > 1.0 then 1.0 else x
  }

  function Share(matched: int, total: int): (r: real)
    ensures 0.0 <= r <= 1.0
    ensures 0 <= matched <= total && total > 0 ==> r * total as real == matched as real
  {
    if total > 0 then
      Clamped(matched, total);
      Clamp01(matched as real / total as real)
    else 0.0
  }

  lemma Clamped(matched: int, total: int)
    requires total > 0
    ensures 0 <= matched <= total ==> 0.0 <= matched as real / total as real <= 1.0
  {
    if 0 <= matched <= total {
      var q := matched as real / total as real;
      assert q * total as real == matched as real;
    }
  }

  /** A resident item becomes the most recent one. */
  function Touched(items: seq<Item<KvEvent>>, key: string): seq<Item<KvEvent>> {
    match Find(items, key)
    case Some(e) => ToFront(items, Item(key, e))
    case None => items
  }

  predicate Usable(items: seq<Item<KvEvent>>, key: string, now: int, ttl: int) {
    match Find(items, key)
    case Some(e) => now - Time(e) <= ttl && e.quality == Fresh
    case None => false
  }

  /** How many leading blocks are usable without a break. */
  function UsableRun(items: seq<Item<KvEvent>>, b: string, keys: seq<string>, now: int, ttl: int): (n: nat)
    ensures n <= |keys|
    ensures forall i :: 0 <= i < n ==> Usable(items, Composite(b, keys[i]), now, ttl)
    ensures n < |keys| ==> !Usable(items, Composite(b, keys[n]), now, ttl)
  {
    if keys == [] || !Usable(items, Composite(b, keys[0]), now, ttl) then 0
    else 1 + UsableRun(items, b, keys[1..], now, ttl)
  }

  function TouchedAll(items: seq<Item<KvEvent>>, b: string, keys: seq<string>): seq<Item<KvEvent>> {
    if keys == [] then items
    else Touched(TouchedAll(items, b, keys[..|keys| - 1]), Composite(b, keys[|keys| - 1]))
  }

  function TokensOf(items: seq<Item<KvEvent>>, key: string): int {
    match Find(items, key)
    case Some(e) => AtLeastZero(e.matchedTokens)
    case None => 0
  }

  function RunTokens(items: seq<Item<KvEvent>>, b: string, keys: seq<string>): (n: int)
    ensures n >= 0
  {
    if keys == [] then 0
    else RunTokens(items, b, keys[..|keys| - 1]) + TokensOf(items, Composite(b, keys[|keys| - 1]))
  }

  /** What the run's blocks are worth to a prompt. */
  function PrefixEvidence(
    items: seq<Item<KvEvent>>, b: string, run: seq<string>, promptTokens: int, now: int, decay: int -> real): (r: Evidence)
    ensures 0 <= r.matchedTokens && (promptTokens > 0 ==> r.matchedTokens <= promptTokens)
    ensures 0.0 <= r.matchRatio <= 1.0 && 0.0 <= r.confidence <= 1.0
    ensures r.matchedTokens > 0 <==> r.quality == Fresh
  {
    var sum := RunTokens(items, b, run);
    if sum == 0 then MISSING
    else
      var latest := match Find(items, Composite(b, run[|run| - 1])) case Some(e) => Time(e) case None => 0;
      var matched := Capped(sum, promptTokens);
      Evidence(matched, Share(matched, promptTokens), Some(latest), Fresh, Clamp01(decay(AtLeastZero(now - latest))))
  }

  function KeyEvidence(entry: Option<KvEvent>, promptTokens: int, now: int, ttl: int, decay: int -> real): (r: Evidence)
    ensures 0 <= r.matchedTokens && (promptTokens > 0 ==> r.matchedTokens <= promptTokens)
    ensures 0.0 <= r.matchRatio <= 1.0 && 0.0 <= r.confidence <= 1.0
    ensures r.confidence > 0.0 ==> entry.Some? && entry.value.quality == Fresh && now - Time(entry.value) <= ttl
  {
    match entry
    case None => MISSING
    case Some(e) =>
      var age := AtLeastZero(now - Time(e));
      var quality := if age > ttl then Stale else e.quality;
      var total := if e.totalTokens <= 0 then promptTokens else e.totalTokens;
      var matched := Capped(Capped(AtLeastZero(e.matchedTokens), total), promptTokens);
      Evidence(matched, Share(matched, total), Some(Time(e)), quality,
               if quality == Fresh then Clamp01(decay(age)) else 0.0)
  }

  /** The value itself where it is between 0 and 1, otherwise the nearer end. */
  ghost predicate NearestShare(share: real, value: real) {
    0.0 <= share <= 1.0 && (share < value ==> share == 1.0) && (share > value ==> share == 0.0)
  }

  /** The largest number from 0 up to `stored` that no positive limit excludes. */
  ghost predicate AsManyAs(n: int, stored: int, limit: int, other: int) {
    0 <= n && (limit > 0 ==> n <= limit) && (other > 0 ==> n <= other) &&
    (stored < 0 ==> n == 0) && (stored >= 0 ==> n <= stored) &&
    (0 <= n < stored ==> n == limit || n == other)
  }

  /**
   What an entry says of its key: fresh for as long as its time to live lasts,
   a share of its own total or, without one, of the prompt, and confidence
   by its age, none once it is not fresh.
   */
  lemma KeyEvidenceIs(e: KvEvent, promptTokens: int, now: int, ttl: int, decay: int -> real)
    requires ttl >= 0
    ensures var r := KeyEvidence(Some(e), promptTokens, now, ttl, decay);
            var total := if e.totalTokens > 0 then e.totalTokens else promptTokens;
            && AsManyAs(r.matchedTokens, e.matchedTokens, total, promptTokens)
            && (if total > 0 then r.matchRatio * total as real == r.matchedTokens as real else r.matchRatio == 0.0)
            && r.observedAt == Some(Time(e))
            && (now - Time(e) > ttl ==> r.quality == Stale) && (now - Time(e) <= ttl ==> r.quality == e.quality)
            && (r.quality == Fresh ==> NearestShare(r.confidence, decay(if Time(e) <= now then now - Time(e) else 0)))
            && (r.quality != Fresh ==> r.confidence == 0.0)
  {
  }

  lemma RunIs(items: seq<Item<KvEvent>>, b: string, keys: seq<string>, now: int, ttl: int, n: nat)
    requires n <= |keys|
    requires forall i :: 0 <= i < n ==> Usable(items, Composite(b, keys[i]), now, ttl)
    requires n < |keys| ==> !Usable(items, Composite(b, keys[n]), now, ttl)
    ensures UsableRun(items, b, keys, now, ttl) == n
  {
    hide UsableRun;
    hide Usable;
    var _ := UsableRun(items, b, keys, now, ttl);
  }

  lemma TouchedFind(items: seq<Item<KvEvent>>, key: string, other: string)
    requires Distinct(items)
    ensures Distinct(Touched(items, key)) && |Touched(items, key)| == |items|
    ensures Find(Touched(items, key), other) == Find(items, other)
  {
    match Find(items, key)
    case Some(e) =>
      ToFrontDistinct(items, Item(key, e));
      FindToFront(items, Item(key, e), other);
      WithoutLength(items, key);
    case None =>
  }

  lemma NothingTouched(items: seq<Item<KvEvent>>, b: string, keys: seq<string>)
    ensures TouchedAll(items, b, keys[..0]) == items && RunTokens(items, b, keys[..0]) == 0
  {
  }

  lemma TouchedStep(items: seq<Item<KvEvent>>, b: string, keys: seq<string>, k: nat)
    requires k < |keys|
    ensures TouchedAll(items, b, keys[..k + 1]) == Touched(TouchedAll(items, b, keys[..k]), Composite(b, keys[k]))
    ensures RunTokens(items, b, keys[..k + 1]) == RunTokens(items, b, keys[..k]) + TokensOf(items, Composite(b, keys[k]))
  {
    assert keys[..k + 1][..k] == keys[..k];
  }

  /** A lookup changes the recency of the items and nothing else. */
  lemma {:induction false} TouchedAllFind(items: seq<Item<KvEvent>>, b: string, keys: seq<string>, other: string)
    requires Distinct(items)
    ensures Distinct(TouchedAll(items, b, keys)) && |TouchedAll(items, b, keys)| == |items|
    ensures Find(TouchedAll(items, b, keys), other) == Find(items, other)
  {
    if keys != [] {
      var init := keys[..|keys| - 1];
      TouchedAllFind(items, b, init, other);
      TouchedFind(TouchedAll(items, b, init), Composite(b, keys[|keys| - 1]), other);
    }
  }

  /** The key is looked up, and `other` is not after that. */
  ghost predicate LookedUpAfter(b: string, keys: seq<string>, key: string, other: string) {
    exists i :: 0 <= i < |keys| && LookedUpAt(b, keys, i, key, other)
  }

  ghost predicate LookedUpAt(b: string, keys: seq<string>, i: nat, key: string, other: string)
    requires i < |keys|
  {
    Composite(b, keys[i]) == key && forall j :: i < j < |keys| ==> Composite(b, keys[j]) != other
  }

  ghost predicate LookedUp(b: string, keys: seq<string>, key: string) {
    exists i :: 0 <= i < |keys| && Composite(b, keys[i]) == key
  }

  lemma LookedUpSnoc(b: string, init: seq<string>, last: string, key: string, other: string)
    requires key != other
    ensures LookedUpAfter(b, init + [last], key, other) <==>
            Composite(b, last) == key || (Composite(b, last) != other && LookedUpAfter(b, init, key, other))
    ensures LookedUp(b, init + [last], key) <==> Composite(b, last) == key || LookedUp(b, init, key)
  {
    hide Composite;
    var keys, n := init + [last], |init|;
    assert keys[n] == last && forall i :: 0 <= i < n ==> keys[i] == init[i];
    if Composite(b, last) == key {
      assert LookedUpAt(b, keys, n, key, other);
    }
    if Composite(b, last) != other && LookedUpAfter(b, init, key, other) {
      var i :| 0 <= i < |init| && LookedUpAt(b, init, i, key, other);
      assert LookedUpAt(b, keys, i, key, other);
    }
    if LookedUpAfter(b, keys, key, other) && Composite(b, last) != key {
      var i :| 0 <= i < |keys| && LookedUpAt(b, keys, i, key, other);
      assert LookedUpAt(b, init, i, key, other);
    }
  }

  /**
   After a lookup the blocks stand in the order of their last use: what was
   looked up later comes first, then the others in the order they had.
   */
  lemma {:induction false} LookupOrder(items: seq<Item<KvEvent>>, b: string, keys: seq<string>, x: string, y: string)
    requires Distinct(items) && x != y && Has(items, x) && Has(items, y)
    ensures Before(TouchedAll(items, b, keys), x, y) <==>
            LookedUpAfter(b, keys, x, y) || (!LookedUp(b, keys, x) && !LookedUp(b, keys, y) && Before(items, x, y))
  {
    hide Before;
    hide Composite;
    hide Has;
    if keys == [] {
    } else {
      hide LookedUpAfter;
      hide LookedUp;
      var init, last := keys[..|keys| - 1], keys[|keys| - 1];
      var before := TouchedAll(items, b, init);
      assert keys == init + [last];
      LookupOrder(items, b, init, x, y);
      LookedUpSnoc(b, init, last, x, y);
      LookedUpSnoc(b, init, last, y, x);
      TouchedAllFind(items, b, init, x);
      TouchedAllFind(items, b, init, y);
      TouchedBefore(before, Composite(b, last), x, y);
    }
  }

  lemma TouchedBefore(items: seq<Item<KvEvent>>, key: string, x: string, y: string)
    requires Distinct(items) && x != y && Find(items, x).Some? && Find(items, y).Some?
    ensures Before(Touched(items, key), x, y) <==> x == key || (y != key && Before(items, x, y))
  {
    hide Before;
    match Find(items, key)
    case Some(e) => ToFrontBefore(items, Item(key, e), x, y);
    case None =>
  }

  /** A stored block comes first, with what the event says of it; the others that stay keep their order behind it. */
  lemma StoreOrder(max: nat, x: Index, e: KvEvent, a: string, b: string)
    requires WellFormed(max, x) && max > 0 && e.operation != CLEAR && e.operation != REMOVE && a != b
    ensures var items := Performed(max, x, e).items;
            && items != [] && items[0] == Item(Composite(e.backendId, e.cacheKey), e)
            && (Before(items, a, b) && a != items[0].key ==> Before(x.items, a, b))
  {
    hide Before;
    hide Composite;
    var item := Item(Composite(e.backendId, e.cacheKey), e);
    var front := ToFront(x.items, item);
    assert Trim(max, front)[0] == item;
    TrimBefore(max, front, a, b);
    ToFrontBefore(x.items, item, a, b);
  }

  // ---- the provider ----

  /** Set and queue agree. */
  ghost predicate Queued(keys: set<string>, queue: seq<string>) {
    && (forall i, j :: 0 <= i < j < |queue| ==> queue[i] != queue[j])
    && (forall key :: key in keys <==> key in queue)
  }

  class KvEventProvider {
    const max: nat
    const ttl: int
    var entries: map<string, Item<KvEvent>>
    var order: seq<Item<KvEvent>>
    var generation: map<string, string>
    var lastSequence: map<string, nat>
    var hasSequence: set<string>
    var seenEvents: set<string>
    var eventOrder: seq<string>

    /** The map and the list hold the same items, no key twice, at most `max`. */
    ghost predicate Linked()
      reads `entries, `order
    {
      Distinct(order) && |order| <= max && Agree(entries, order)
    }

    /** The set and the queue hold the same event keys, no key twice. */
    ghost predicate Remembering()
      reads `seenEvents, `eventOrder
    {
      Queued(seenEvents, eventOrder) && |eventOrder| <= 4 * max
    }

    ghost predicate Valid()
      reads this
      ensures Valid() ==> WellFormed(max, View())
    {
      max > 0 && Linked() && Remembering() && hasSequence == lastSequence.Keys
    }

    ghost function View(): Index
      reads this
    {
      Index(order, generation, lastSequence, eventOrder)
    }

    constructor (limit: int, ttl: int)
      ensures Valid() && View() == EMPTY
      ensures max == (if limit <= 0 then 4096 else limit)
      ensures this.ttl == if ttl <= 0 then 300_000_000_000 else ttl
    {
      max := if limit <= 0 then 4096 else limit;
      this.ttl := if ttl <= 0 then 300_000_000_000 else ttl;
      entries, order, generation, lastSequence, hasSequence := map[], [], map[], map[], {};
      seenEvents, eventOrder := {}, [];
    }

    method Remove(key: string)
      requires Linked()
      modifies `entries, `order
      ensures Linked() && order == Without(old(order), key) && entries == old(entries) - {key}
    {
      hide Without;
      hide Agree;
      hide Distinct;
      if key in entries {
        RemovedMembers(entries, order, key);
        entries := entries - {key};
        order := Without(order, key);
      } else {
        AbsentMembers(entries, order, key);
      }
    }

    /** Delete from the map and the list every key with the backend's prefix, in any order. */
    method ClearBackend(backendId: string)
      requires Linked()
      modifies `entries, `order
      ensures Linked() && order == Cleared(old(order), backendId)
    {
      hide Without;
      hide Distinct;
      hide Has;
      var prefix := backendId + NUL;
      var keys := entries.Keys;
      ghost var before := order;
      ghost var drop := (item: Item<KvEvent>) => HasPrefix(item.key, prefix);
      NoneMet(entries, before, drop);
      while keys != {}
        invariant Linked() && keys <= entries.Keys
        invariant order == Keep(before, Unmet(drop, keys))
        decreases keys
      {
        var key :| key in keys;
        UnmetStep(before, drop, keys, key, HasPrefix(key, prefix));
        if HasPrefix(key, prefix) {
          Remove(key);
        }
        keys := keys - {key};
      }
      KeepAgree(before, Unmet(drop, {}), (item: Item<KvEvent>) => !HasPrefix(item.key, prefix));
    }

    method StoreItem(key: string, e: KvEvent)
      requires Linked() && max > 0
      modifies `entries, `order
      ensures Linked() && order == Trim(max, ToFront(old(order), Item(key, e)))
    {
      hide Without;
      hide Agree;
      hide Distinct;
      ghost var target := ToFront(order, Item(key, e));
      StoredMembers(entries, order, Item(key, e));
      var resident := key in entries;
      entries := entries[key := Item(key, e)];
      order := [Item(key, e)] + Without(order, key);
      if resident {
        return;
      }
      EvictOldest(target);
    }

    method EvictOldest(ghost target: seq<Item<KvEvent>>)
      requires Distinct(order) && Agree(entries, order) && order == target
      modifies `entries, `order
      ensures Linked() && order == Trim(max, target)
    {
      hide Agree;
      hide Distinct;
      while |order| > max
        invariant Agree(entries, order) && Distinct(order)
        invariant |order| <= |target| && order == target[..|order|] && (|order| >= max || order == target)
        decreases |order|
      {
        TrimmedMembers(entries, order);
        entries := entries - {order[|order| - 1].key};
        order := order[..|order| - 1];
      }
    }

    method Remember(eventKey: string)
      requires Remembering() && eventKey !in seenEvents
      modifies `seenEvents, `eventOrder
      ensures Remembering() && eventOrder == Newest(4 * max, old(eventOrder) + [eventKey])
    {
      seenEvents := seenEvents + {eventKey};
      eventOrder := eventOrder + [eventKey];
      ghost var all := eventOrder;
      while |eventOrder| > 4 * max
        invariant Newest(4 * max, eventOrder) == Newest(4 * max, all) && Queued(seenEvents, eventOrder)
        decreases |eventOrder|
      {
        QueueTail(seenEvents, eventOrder);
        seenEvents := seenEvents - {eventOrder[0]};
        eventOrder := eventOrder[1..];
      }
    }

    method SwitchGeneration(e: KvEvent)
      requires Valid()
      modifies `entries, `order, `generation, `lastSequence, `hasSequence
      ensures Valid() && View() == Switched(old(View()), e)
    {
      hide Cleared;
      hide Agree;
      hide Distinct;
      var known := if e.backendId in generation then generation[e.backendId] else "";
      if e.generation != "" && known != "" && known != e.generation {
        ClearBackend(e.backendId);
        lastSequence := lastSequence - {e.backendId};
        hasSequence := hasSequence - {e.backendId};
      }
      if e.generation != "" {
        generation := generation[e.backendId := e.generation];
      }
    }

    /** Drop a duplicate or late event, or note the event. */
    method Admit(e: KvEvent) returns (ok: bool)
      requires Valid()
      modifies `lastSequence, `hasSequence, `seenEvents, `eventOrder
      ensures Valid() && ok == !old(Dropped(View(), e))
      ensures View() == if ok then Noted(max, old(View()), e) else old(View())
    {
      hide Queued;
      hide Newest;
      hide Agree;
      hide Distinct;
      var sequenced := e.hasSequence || e.sequence > 0;
      if e.engineEventId != "" {
        var eventKey := e.backendId + NUL + e.engineEventId;
        SeenAgrees(seenEvents, eventOrder, eventKey);
        if eventKey in seenEvents {
          return false;
        }
        if sequenced && e.backendId in hasSequence && e.sequence < lastSequence[e.backendId] {
          return false;
        }
        Remember(eventKey);
      } else if sequenced && e.backendId in hasSequence && e.sequence <= lastSequence[e.backendId] {
        return false;
      }
      if sequenced {
        lastSequence := lastSequence[e.backendId := e.sequence];
        hasSequence := hasSequence + {e.backendId};
      }
      ok := true;
    }

    method Observe(event: KvEvent, now: int)
      requires Valid()
      modifies this
      ensures Valid() && View() == Observed(max, old(View()), event, now)
    {
      hide Switched;
      hide Dropped;
      hide Noted;
      hide Linked;
      hide Remembering;
      hide Cleared;
      hide Without;
      hide ToFront;
      hide Trim;
      if event.backendId == "" || (event.operation != CLEAR && event.cacheKey == "") {
        return;
      }
      var e := Defaulted(event, now);
      SwitchGeneration(e);
      var ok := Admit(e);
      if !ok {
        return;
      }
      if e.operation == CLEAR {
        ClearBackend(e.backendId);
        return;
      }
      var key := e.backendId + NUL + e.cacheKey;
      if e.operation == REMOVE {
        Remove(key);
        return;
      }
      StoreItem(key, e);
    }

    method MoveToFront(key: string)
      requires Linked() && key in entries
      modifies `order
      ensures Linked() && order == Touched(old(order), key)
    {
      hide Without;
      hide Agree;
      hide Distinct;
      EntriesFind(entries, order, key);
      StoredMembers(entries, order, entries[key]);
      assert entries[key := entries[key]] == entries;
      order := [entries[key]] + Without(order, key);
    }

    /** Move the longest usable run of leading blocks to the front, and add up its tokens. */
    method TouchRun(backendId: string, keys: seq<string>, now: int) returns (matched: int, latest: int)
      requires Linked()
      modifies `order
      ensures Linked()
      ensures var run := keys[..UsableRun(old(order), backendId, keys, now, ttl)];
              && order == TouchedAll(old(order), backendId, run)
              && matched == RunTokens(old(order), backendId, run)
              && (run != [] ==>
                   match Find(old(order), Composite(backendId, run[|run| - 1]))
                   case Some(e) => latest == Time(e)
                   case None => false)
    {
      hide Agree;
      hide Distinct;
      hide Touched;
      hide UsableRun;
      hide Find;
      hide TouchedAll;
      hide RunTokens;
      matched, latest := 0, 0;
      ghost var before := order;
      NothingTouched(before, backendId, keys);
      var k := 0;
      while k < |keys|
        invariant k <= |keys| && Linked() && matched == RunTokens(before, backendId, keys[..k])
        invariant order == TouchedAll(before, backendId, keys[..k])
        invariant forall i :: 0 <= i < k ==> Usable(before, Composite(backendId, keys[i]), now, ttl)
        invariant k > 0 ==> match Find(before, Composite(backendId, keys[k - 1]))
                            case Some(e) => latest == Time(e)
                            case None => false
      {
        var key := backendId + NUL + keys[k];
        TouchedAllFind(before, backendId, keys[..k], key);
        EntriesFind(entries, order, key);
        assert key == Composite(backendId, keys[k]);
        if key !in entries {
          break;
        }
        var event := entries[key].value;
        if now - Time(event) > ttl || event.quality != Fresh {
          break;
        }
        MoveToFront(key);
        matched := matched + AtLeastZero(event.matchedTokens);
        latest := Time(event);
        TouchedStep(before, backendId, keys, k);
        k := k + 1;
      }
      RunIs(before, backendId, keys, now, ttl, k);
    }

    /** Evidence for a prompt given by the keys of its blocks; `decay` turns an age into a confidence. */
    method MatchExternalPrefix(backendId: string, keys: seq<string>, promptTokens: int, now: int, decay: int -> real)
      returns (evidence: Evidence)
      requires Valid()
      modifies `order
      ensures Valid()
      ensures View() == old(View()).(items := TouchedAll(old(order), backendId, Run(old(order), backendId, keys, now)))
      ensures evidence == PrefixEvidence(old(order), backendId, Run(old(order), backendId, keys, now), promptTokens, now, decay)
    {
      hide Agree;
      hide Distinct;
      hide UsableRun;
      var matched, latest := TouchRun(backendId, keys, now);
      if matched == 0 {
        return MISSING;
      }
      if promptTokens > 0 && matched > promptTokens {
        matched := promptTokens;
      }
      var ratio := 0.0;
      if promptTokens > 0 {
        ratio := Clamp01(matched as real / promptTokens as real);
      }
      var age := now - latest;
      if age < 0 {
        age := 0;
      }
      evidence := Evidence(matched, ratio, Some(latest), Fresh, Clamp01(decay(age)));
    }

    function Run(items: seq<Item<KvEvent>>, backendId: string, keys: seq<string>, now: int): seq<string> {
      keys[..UsableRun(items, backendId, keys, now, ttl)]
    }

    /** Evidence for a single cache key. */
    method MatchKey(backendId: string, cacheKey: string, promptTokens: int, now: int, decay: int -> real)
      returns (evidence: Evidence)
      requires Valid()
      modifies `order
      ensures Valid()
      ensures View() ==
              if cacheKey == "" then old(View())
              else old(View()).(items := Touched(old(order), Composite(backendId, cacheKey)))
      ensures evidence ==
              if cacheKey == "" then MISSING
              else KeyEvidence(Find(old(order), Composite(backendId, cacheKey)), promptTokens, now, ttl, decay)
    {
      hide Agree;
      hide Distinct;
      if cacheKey == "" {
        return MISSING;
      }
      var key := backendId + NUL + cacheKey;
      EntriesFind(entries, order, key);
      if key !in entries {
        return MISSING;
      }
      var event := entries[key].value;
      MoveToFront(key);
      var age := now - Time(event);
      if age < 0 {
        age := 0;
      }
      var quality := event.quality;
      if age > ttl {
        quality := Stale;
      }
      var total := event.totalTokens;
      if total <= 0 {
        total := promptTokens;
      }
      var matched := AtLeastZero(event.matchedTokens);
      if total > 0 && matched > total {
        matched := total;
      }
      if promptTokens > 0 && matched > promptTokens {
        matched := promptTokens;
      }
      var ratio := 0.0;
      if total > 0 {
        ratio := Clamp01(matched as real / total as real);
      }
      var confidence := 0.0;
      if quality == Fresh {
        confidence := Clamp01(decay(age));
      }
      evidence := Evidence(matched, ratio, Some(Time(event)), quality, confidence);
    }
  }

  lemma QueueTail(keys: set<string>, queue: seq<string>)
    requires queue != [] && Queued(keys, queue)
    ensures Queued(keys - {queue[0]}, queue[1..])
  {
    assert forall key :: key in queue <==> key == queue[0] || key in queue[1..] by {
      TakeDrop(queue, 1);
    }
    assert queue[0] !in queue[1..];
  }

  lemma SeenAgrees(keys: set<string>, queue: seq<string>, key: string)
    requires Queued(keys, queue)
    ensures key in keys <==> key in queue
  {
  }
}
