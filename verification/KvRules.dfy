/**
 Why the pipeline's runs are held to rules: for each of them a run that breaks
 it, and it alone, and after which the gateway's index is wrong.
 */
module KvRules {
  import opened Common
  import opened EventIds
  import opened Recency
  import opened KvEventIndex
  import opened KvEventAdapter
  import opened KvPipeline
  import opened KvMemory

  /** Nothing is under way, and the adapter is as saved. */
  ghost predicate Resting(s: System) {
    s.inflight.None? && s.adapter == s.checkpoint && (s.partial.Some? ==> !s.partial.value.live)
  }

  // ---- single steps ----

  lemma Publish(b: string, max: nat, rules: Rules, g: string, steps: seq<Step>, s: System, batch: Batch)
    requires Reaches(b, max, rules, g, steps, s) && Numbered(batch) && InOrder(s.log + [batch])
    ensures Reaches(b, max, rules, g, steps + [Emit(batch)], s.(log := s.log + [batch]))
  {
    hide Numbered;
    hide InOrder;
    Next(b, max, rules, g, steps, s, Emit(batch));
  }

  lemma Restart(b: string, max: nat, rules: Rules, g: string, steps: seq<Step>, s: System)
    requires Reaches(b, max, rules, g, steps, s) && Resting(s)
    requires rules.committedFirst ==> s.adapter.last.Some?
    ensures var t := s.(log := [], adopted := false,
                        partial := if s.partial.Some? then Some(s.partial.value.(live := false)) else None);
            Reaches(b, max, rules, g, steps + [EngineRestart], t) && Resting(t)
  {
    Next(b, max, rules, g, steps, s, EngineRestart);
  }

  ghost predicate Deliverable(b: string, max: nat, rules: Rules, s: System, q: nat, p: Prepared) {
    && Resting(s) && q < |s.log| && Prepare(s.adapter, q, s.log[q]) == Ready(p) && |p.ops| <= 1
    && (rules.firstFirst && (s.adapter.last.None? || !s.adopted) ==> q == 0)
    && (rules.newNames ==> !IsRestart(s.adapter, q, s.log[q]))
    && (p.ops != [] ==>
          var e := EventOf(b, p, p.ops[0]);
          rules.room > 0 && Spares(max, Switched(s.index, e).items, e, b))
  }

  /** The index after a batch of at most one operation. */
  function IndexWith(b: string, max: nat, x: Index, p: Prepared): Index {
    if p.ops == [] then x else Observed(max, x, EventOf(b, p, p.ops[0]), 0)
  }

  /** What a batch of at most one operation leaves, received and posted but not committed. */
  lemma ReceiveAndPost(b: string, max: nat, rules: Rules, g: string, steps: seq<Step>, s: System, q: nat, p: Prepared)
    returns (more: seq<Step>, t: System)
    requires Reaches(b, max, rules, g, steps, s) && Deliverable(b, max, rules, s, q, p)
    ensures Reaches(b, max, rules, g, more, t)
    ensures t.log == s.log && t.adapter == t.checkpoint == s.adapter && t.index == IndexWith(b, max, s.index, p)
    ensures t.partial.Some? && t.partial.value.prepared == p && t.partial.value.live && t.inflight == Some(|p.ops|)
  {
    hide Prepare;
    hide Observed;
    hide Reaches;
    hide Spares;
    hide EventOf;
    hide Switched;
    hide IsRestart;
    hide NewName;
    t := Do(b, max, rules, s, Receive(q));
    Next(b, max, rules, g, steps, s, Receive(q));
    more := steps + [Receive(q)];
    if p.ops != [] {
      var u := Do(b, max, rules, t, Post(0));
      Next(b, max, rules, g, more, t, Post(0));
      more, t := more + [Post(0)], u;
    }
  }

  /** A batch of at most one operation, delivered and committed. */
  lemma DeliverSmall(b: string, max: nat, rules: Rules, g: string, steps: seq<Step>, s: System, q: nat, p: Prepared)
    returns (more: seq<Step>, t: System)
    requires Reaches(b, max, rules, g, steps, s) && Deliverable(b, max, rules, s, q, p)
    ensures Reaches(b, max, rules, g, more, t) && Resting(t)
    ensures t.log == s.log && t.adapter == KvEventAdapter.Committed(s.adapter, p) && t.adopted && t.partial.None?
    ensures t.index == IndexWith(b, max, s.index, p)
  {
    hide Prepare;
    hide Reaches;
    hide IndexWith;
    hide Deliverable;
    var u;
    more, u := ReceiveAndPost(b, max, rules, g, steps, s, q, p);
    t := Do(b, max, rules, u, Commit);
    Next(b, max, rules, g, more, u, Commit);
    more := more + [Commit];
  }

  // ---- batches of no operation and of one ----

  lemma EmptyIsReady(a: Adapter, q: nat, t: real)
    requires t >= 0.0 && q < SEQUENCE_LIMIT
    requires a.last.None? || (!IsRestart(a, q, Batch(t, [])) && q == a.last.value + 1)
    ensures Prepare(a, q, Batch(t, [])) == Ready(Prepared(q, t, a.generation, []))
  {
  }

  lemma RestartIsReady(a: Adapter, t: real)
    requires a.last.Some? && t >= 0.0 && t > a.lastTimestamp
    ensures Prepare(a, 0, Batch(t, [])) == Ready(Prepared(0, t, RestartName(t), [Op(0, CLEAR, "", 0)]))
  {
    assert [Op(0, CLEAR, "", 0)] + [] == [Op(0, CLEAR, "", 0)];
  }

  const STORED := [BlockStored(["h"], 16)]

  lemma StoreIsReady(a: Adapter, q: nat, t: real)
    requires t >= 0.0 && q < SEQUENCE_LIMIT
    requires a.last.None? || (!IsRestart(a, q, Batch(t, STORED)) && q == a.last.value + 1)
    ensures Prepare(a, q, Batch(t, STORED)) == Ready(Prepared(q, t, a.generation, [Op(SPAN, STORE, CacheKey("h"), 16)]))
  {
    assert STORED[..0] == [];
    assert HashOps(1, STORE, ["h"], 16) == [Op(SPAN, STORE, CacheKey("h"), 16)];
    assert forall raw :: raw in STORED ==> Supported(raw);
  }

  lemma StoredCache(log: seq<Batch>, t: real)
    ensures EngineCache([Batch(t, STORED)]) == map[CacheKey("h") := Block(16, t)]
    ensures EngineCache([Batch(t, [])]) == map[]
    ensures EngineCache([Batch(t, STORED), Batch(t, [])]) == map[CacheKey("h") := Block(16, t)]
  {
    var one, two := [Batch(t, STORED)], [Batch(t, STORED), Batch(t, [])];
    assert one[..0] == [] && two[..1] == one && STORED[..0] == [] && ["h"][..0] == [] && [Batch(t, [])][..0] == [];
    assert EngineBatch(map[], STORED[..0], t) == map[];
    assert StoreBlocks(map[], ["h"], Block(16, t)) == map[CacheKey("h") := Block(16, t)];
    assert EngineBatch(map[], STORED, t) == map[CacheKey("h") := Block(16, t)];
  }

  // ---- one run for each rule ----

  lemma NotExact(b: string, s: System, q: nat)
    requires s.partial.None? && s.adopted && s.adapter.last == Some(q) && q < |s.log|
    requires CacheKey("h") in EngineCache(s.log[..q + 1]) <==> Find(s.index.items, Composite(b, CacheKey("h"))).None?
    ensures !Exact(b, s)
  {
    hide EngineCache;
    hide Find;
    hide Composite;
    assert !SameAt(s.index.items, b, EngineCache(s.log[..q + 1]), CacheKey("h"));
  }

  /** The engine's second batch is the first to arrive: the adapter takes it, and the first is lost unnoticed. */
  lemma FirstBatchLost(b: string, max: nat, rules: Rules, g: string) returns (steps: seq<Step>, s: System)
    requires !rules.firstFirst
    ensures Reaches(b, max, rules, g, steps, s) && !Exact(b, s)
  {
    hide Prepare;
    hide Reaches;
    hide EngineCache;
    var one, two := Batch(0.0, STORED), Batch(0.0, []);
    NothingDone(b, max, rules, g);
    steps, s := [], Start(g);
    assert s.log + [one] == [one] && [one] + [two] == [one, two];
    Publish(b, max, rules, g, steps, s, one);
    steps, s := steps + [Emit(one)], s.(log := [one]);
    Publish(b, max, rules, g, steps, s, two);
    steps, s := steps + [Emit(two)], s.(log := [one, two]);
    EmptyIsReady(s.adapter, 1, 0.0);
    steps, s := DeliverSmall(b, max, rules, g, steps, s, 1, Prepared(1, 0.0, g, []));
    StoredCache([], 0.0);
    assert s.log[..2] == [one, two];
    NotExact(b, s, 1);
  }

  function Holding(b: string, e: KvEvent): seq<Item<KvEvent>> {
    [Item(Composite(b, CacheKey("h")), e)]
  }

  /** A store into an index that holds nothing, of an event not seen before. */
  lemma StoresFirst(b: string, max: nat, x: Index, p: Prepared)
    requires max > 0 && b != "" && p.generation != "" && x.items == []
    requires p.ops == [Op(SPAN, STORE, CacheKey("h"), 16)]
    requires b in x.generation ==> x.generation[b] == p.generation
    requires b in x.last ==> x.last[b] <= p.sequence
    requires EventKey(EventOf(b, p, p.ops[0])) !in x.seen
    ensures var e := EventOf(b, p, p.ops[0]);
            && Spares(max, Switched(x, e).items, e, b)
            && IndexWith(b, max, x, p) ==
               Index(Holding(b, e), x.generation[b := p.generation], x.last[b := p.sequence],
                     Newest(4 * max, x.seen + [EventKey(e)]))
  {
    hide EventId;
    hide Composite;
    hide Newest;
    var e := EventOf(b, p, p.ops[0]);
    EventIdNotEmpty(p.generation, p.sequence, SPAN);
    assert Without<KvEvent>([], Composite(b, CacheKey("h"))) == [];
    assert Switched(x, e).items == [] && Defaulted(e, 0) == e;
  }

  lemma HoldingFinds(b: string, e: KvEvent)
    ensures Find(Holding(b, e), Composite(b, CacheKey("h"))).Some?
  {
  }

  lemma StoreDelivered(b: string, max: nat, rules: Rules, g: string)
    returns (steps: seq<Step>, s: System, p: Prepared)
    requires rules.room > 0 && max > 0 && b != "" && g != ""
    ensures Reaches(b, max, rules, g, steps, s) && s.log == [Batch(0.0, STORED)] && s.adapter == Start(g).adapter
    ensures p == Prepared(0, 0.0, g, [Op(SPAN, STORE, CacheKey("h"), 16)]) && s.index == EMPTY
    ensures Deliverable(b, max, rules, s, 0, p) && IndexWith(b, max, EMPTY, p).items == Holding(b, EventOf(b, p, p.ops[0]))
  {
    hide Prepare;
    hide Reaches;
    hide Spares;
    hide Observed;
    hide IndexWith;
    var batch := Batch(0.0, STORED);
    NothingDone(b, max, rules, g);
    steps, s := [], Start(g);
    assert s.log + [batch] == [batch];
    Publish(b, max, rules, g, steps, s, batch);
    steps, s := steps + [Emit(batch)], s.(log := [batch]);
    StoreIsReady(s.adapter, 0, 0.0);
    p := Prepared(0, 0.0, g, [Op(SPAN, STORE, CacheKey("h"), 16)]);
    StoresFirst(b, max, EMPTY, p);
  }

  /** An engine restarts before anything was committed: what was posted of its first batch stays. */
  lemma RestartedTooSoon(b: string, max: nat, rules: Rules, g: string) returns (steps: seq<Step>, s: System)
    requires rules.room > 0 && max > 0 && b != "" && g != "" && !rules.committedFirst
    ensures Reaches(b, max, rules, g, steps, s) && !Exact(b, s)
  {
    hide Prepare;
    hide Reaches;
    hide EngineCache;
    hide IndexWith;
    hide Spares;
    hide Find;
    var p, u;
    steps, s, p := StoreDelivered(b, max, rules, g);
    steps, u := ReceiveAndPost(b, max, rules, g, steps, s, 0, p);
    s := u.(inflight := None);
    Next(b, max, rules, g, steps, u, Crash);
    assert Do(b, max, rules, u, Crash) == s;
    steps := steps + [Crash];
    var empty := Batch(0.0, []);
    var t := s.(log := [], adopted := false, partial := Some(s.partial.value.(live := false)));
    Next(b, max, rules, g, steps, s, EngineRestart);
    assert Do(b, max, rules, s, EngineRestart) == t;
    steps, s := steps + [EngineRestart], t;
    assert s.log + [empty] == [empty];
    Publish(b, max, rules, g, steps, s, empty);
    steps, s := steps + [Emit(empty)], s.(log := [empty]);
    EmptyIsReady(s.adapter, 0, 0.0);
    var none := Prepared(0, 0.0, g, []);
    steps, t := DeliverSmall(b, max, rules, g, steps, s, 0, none);
    assert IndexWith(b, max, s.index, none) == s.index by { NothingPosted(b, max, s.index, none); }
    s := t;
    StoredCache([], 0.0);
    assert s.log[..1] == [empty];
    HoldingFinds(b, EventOf(b, p, p.ops[0]));
    NotExact(b, s, 0);
  }

  lemma NothingPosted(b: string, max: nat, x: Index, p: Prepared)
    requires p.ops == []
    ensures IndexWith(b, max, x, p) == x
  {
  }

  // ---- two restarts within one millisecond ----

  function ClearOf(t: real): Prepared
    requires t >= 0.0
  {
    Prepared(0, t, RestartName(t), [Op(0, CLEAR, "", 0)])
  }

  lemma SameMillisecond()
    ensures RestartName(1.0) == RestartName(1.0001) == "auto-" + Decimal(1000) && RestartName(1.0) != ""
  {
    hide Decimal;
  }

  lemma ClearsFirst(b: string, max: nat, name: string)
    requires max > 0 && b != "" && name != ""
    ensures var p := Prepared(0, 1.0, name, [Op(0, CLEAR, "", 0)]);
            IndexWith(b, max, EMPTY, p) ==
            Index([], map[b := name], map[b := 0], [Composite(b, EventId(name, 0, 0))])
  {
    hide EventId;
    hide Composite;
    EventIdNotEmpty(name, 0, 0);
    assert Cleared([], b) == [];
  }

  lemma ClearSwallowed(b: string, max: nat, x: Index, t: real, name: string)
    requires b in x.generation && x.generation[b] == name && Composite(b, EventId(name, 0, 0)) in x.seen
    ensures IndexWith(b, max, x, Prepared(0, t, name, [Op(0, CLEAR, "", 0)])).items == x.items
  {
    hide EventId;
    hide Composite;
    hide Cleared;
    EventIdNotEmpty(name, 0, 0);
  }

  /** The engine restarts a first time and stores a block under its new name. */
  lemma StoredAfterRestart(b: string, max: nat, rules: Rules, g: string) returns (steps: seq<Step>, s: System, e: KvEvent)
    requires rules.room > 0 && max > 0 && b != "" && NUL[0] !in b && g != "" && !rules.newNames
    ensures Reaches(b, max, rules, g, steps, s) && Resting(s)
    ensures var name := RestartName(1.0);
            && s.adapter == Adapter(name, Some(1), 1.0) && s.index.items == Holding(b, e)
            && b in s.index.generation && s.index.generation[b] == name
            && Composite(b, EventId(name, 0, 0)) in s.index.seen
  {
    hide Prepare;
    hide Reaches;
    hide IndexWith;
    hide Spares;
    hide RestartName;
    hide EventId;
    hide Composite;
    var name := RestartName(1.0);
    SameMillisecond();
    steps, s := Restarted(b, max, rules, g);
    var stored := Batch(1.0, STORED);
    Publish(b, max, rules, g, steps, s, stored);
    steps, s := steps + [Emit(stored)], s.(log := s.log + [stored]);
    StoreIsReady(s.adapter, 1, 1.0);
    var p := Prepared(1, 1.0, name, [Op(SPAN, STORE, CacheKey("h"), 16)]);
    e := EventOf(b, p, p.ops[0]);
    KeyOfOther(b, name);
    StoresFirst(b, max, s.index, p);
    steps, s := DeliverSmall(b, max, rules, g, steps, s, 1, p);
  }

  lemma KeyOfOther(b: string, name: string)
    requires NUL[0] !in b
    ensures Composite(b, EventId(name, 0, 0)) != Composite(b, EventId(name, 1, SPAN))
  {
    hide EventId;
    CompositeInjective(b, EventId(name, 0, 0), b, EventId(name, 1, SPAN));
    if EventId(name, 0, 0) == EventId(name, 1, SPAN) {
      EventIdInjective(name, 0, 0, name, 1, SPAN);
    }
  }

  /** An empty batch, a restart and the new engine's first batch. */
  lemma Restarted(b: string, max: nat, rules: Rules, g: string) returns (steps: seq<Step>, s: System)
    requires rules.room > 0 && max > 0 && b != "" && g != "" && !rules.newNames
    ensures Reaches(b, max, rules, g, steps, s) && Resting(s) && s.log == [Batch(1.0, [])] && s.adopted
    ensures var name := RestartName(1.0);
            && s.adapter == Adapter(name, Some(0), 1.0)
            && s.index == Index([], map[b := name], map[b := 0], [Composite(b, EventId(name, 0, 0))])
  {
    hide Prepare;
    hide Reaches;
    hide IndexWith;
    hide RestartName;
    hide EventId;
    hide Composite;
    var empty, first := Batch(0.0, []), Batch(1.0, []);
    steps, s := EmptyDelivered(b, max, rules, g);
    Restart(b, max, rules, g, steps, s);
    steps, s := steps + [EngineRestart], s.(log := [], adopted := false);
    assert s.log + [first] == [first];
    Publish(b, max, rules, g, steps, s, first);
    steps, s := steps + [Emit(first)], s.(log := [first]);
    RestartIsReady(s.adapter, 1.0);
    SameMillisecond();
    ClearsFirst(b, max, RestartName(1.0));
    steps, s := DeliverSmall(b, max, rules, g, steps, s, 0, ClearOf(1.0));
  }

  lemma EmptyDelivered(b: string, max: nat, rules: Rules, g: string) returns (steps: seq<Step>, s: System)
    requires rules.room > 0
    ensures Reaches(b, max, rules, g, steps, s) && Resting(s) && s.adapter == Adapter(g, Some(0), 0.0) && s.index == EMPTY
    ensures s.partial.None?
  {
    hide Prepare;
    hide Reaches;
    var empty := Batch(0.0, []);
    NothingDone(b, max, rules, g);
    steps, s := [], Start(g);
    assert s.log + [empty] == [empty];
    Publish(b, max, rules, g, steps, s, empty);
    steps, s := steps + [Emit(empty)], s.(log := [empty]);
    EmptyIsReady(s.adapter, 0, 0.0);
    steps, s := DeliverSmall(b, max, rules, g, steps, s, 0, Prepared(0, 0.0, g, []));
  }

  /** A second restart in the same millisecond: the clear carries the first one's ID and is taken for a repeat. */
  lemma NameReused(b: string, max: nat, rules: Rules, g: string) returns (steps: seq<Step>, s: System)
    requires rules.room > 0 && max > 0 && b != "" && NUL[0] !in b && g != "" && !rules.newNames
    ensures Reaches(b, max, rules, g, steps, s) && !Exact(b, s)
  {
    hide Prepare;
    hide Reaches;
    hide IndexWith;
    hide RestartName;
    hide EngineCache;
    hide Find;
    hide EventId;
    hide Composite;
    var e;
    steps, s, e := StoredAfterRestart(b, max, rules, g);
    var again := Batch(1.0001, []);
    Restart(b, max, rules, g, steps, s);
    steps, s := steps + [EngineRestart],
      s.(log := [], adopted := false, partial := if s.partial.Some? then Some(s.partial.value.(live := false)) else None);
    assert s.log + [again] == [again];
    Publish(b, max, rules, g, steps, s, again);
    steps, s := steps + [Emit(again)], s.(log := [again]);
    RestartIsReady(s.adapter, 1.0001);
    SameMillisecond();
    ClearSwallowed(b, max, s.index, 1.0001, RestartName(1.0));
    steps, s := DeliverSmall(b, max, rules, g, steps, s, 0, ClearOf(1.0001));
    StoredCache([], 1.0001);
    assert s.log[..1] == [again];
    HoldingFinds(b, e);
    NotExact(b, s, 0);
  }

  // ---- other backends push the block out ----

  /** A store of another backend that carries neither an ID nor a number. */
  function Intruder(b: string, i: nat): KvEvent {
    KvEvent(STORE, b + "c", "f" + Decimal(i), 1, 1, 0, false, "", "", Some(0), Fresh)
  }

  function IntruderItem(b: string, i: nat): Item<KvEvent> {
    Item(Composite(b + "c", Intruder(b, i).cacheKey), Intruder(b, i))
  }

  /** The newest of `n` intruders first. */
  function Intruders(b: string, n: nat): seq<Item<KvEvent>> {
    seq(n, i requires 0 <= i < n => IntruderItem(b, n - 1 - i))
  }

  lemma IntrudersApart(b: string, n: nat, e: KvEvent)
    requires NUL[0] !in b
    ensures Distinct(Intruders(b, n) + Holding(b, e)) && !Has(Intruders(b, n) + Holding(b, e), IntruderItem(b, n).key)
    ensures !Has(Intruders(b, n), Composite(b, CacheKey("h")))
  {
    hide Composite;
    hide Decimal;
    assert NUL[0] !in b + "c";
    forall i: nat ensures IntruderItem(b, i).key != Composite(b, CacheKey("h")) {
      CompositeInjective(b + "c", "f" + Decimal(i), b, CacheKey("h"));
    }
    forall i: nat, j: nat | i != j ensures IntruderItem(b, i).key != IntruderItem(b, j).key {
      CompositeInjective(b + "c", "f" + Decimal(i), b + "c", "f" + Decimal(j));
      if "f" + Decimal(i) == "f" + Decimal(j) {
        assert ("f" + Decimal(i))[1..] == Decimal(i) && ("f" + Decimal(j))[1..] == Decimal(j);
        DecimalInjective(i, j);
      }
    }
  }

  lemma IntruderObserved(b: string, max: nat, n: nat, x: Index, e: KvEvent)
    requires max > n && NUL[0] !in b && x.items == Intruders(b, n) + Holding(b, e)
    ensures Observed(max, x, Intruder(b, n), 0) ==
            x.(items := if n + 1 == max then Intruders(b, n + 1) else Intruders(b, n + 1) + Holding(b, e))
  {
    hide Composite;
    hide Decimal;
    hide Keep;
    hide Has;
    var event, item := Intruder(b, n), IntruderItem(b, n);
    IntrudersApart(b, n, e);
    WithoutAbsent(x.items, item.key);
    assert Defaulted(event, 0) == event && Switched(x, event) == x && Noted(max, x, event) == x;
    assert [item] + Intruders(b, n) == Intruders(b, n + 1);
    Assoc([item], Intruders(b, n), Holding(b, e));
    if n + 1 == max {
      DropPrefix(Intruders(b, n + 1), Holding(b, e));
    }
  }

  lemma {:induction false} Intruded(b: string, max: nat, rules: Rules, g: string, steps: seq<Step>, s: System, e: KvEvent, n: nat)
    returns (more: seq<Step>, t: System)
    requires Reaches(b, max, rules, g, steps, s) && s.partial.None? && !rules.sparing && NUL[0] !in b && n <= max
    requires s.index.items == Holding(b, e) && max > 0
    ensures Reaches(b, max, rules, g, more, t) && t == s.(index := t.index, window := t.window)
    ensures t.index.items == if n == max then Intruders(b, n) else Intruders(b, n) + Holding(b, e)
  {
    hide Reaches;
    hide Observed;
    hide IntruderItem;
    hide Composite;
    if n == 0 {
      more, t := steps, s;
      NilUnit(Holding(b, e));
      assert Intruders(b, 0) == [];
    } else {
      var u;
      more, u := Intruded(b, max, rules, g, steps, s, e, n - 1);
      var event := Intruder(b, n - 1);
      assert NUL[0] !in b + "c" && b + "c" != b;
      IntruderObserved(b, max, n - 1, u.index, e);
      Next(b, max, rules, g, more, u, Foreign(event, 0));
      t := Do(b, max, rules, u, Foreign(event, 0));
      more := more + [Foreign(event, 0)];
    }
  }

  /** As many stores of another backend as the index has room for push the block out. */
  lemma PushedOut(b: string, max: nat, rules: Rules, g: string) returns (steps: seq<Step>, s: System)
    requires rules.room > 0 && max > 0 && b != "" && NUL[0] !in b && g != "" && !rules.sparing
    ensures Reaches(b, max, rules, g, steps, s) && !Exact(b, s)
  {
    hide Prepare;
    hide Reaches;
    hide IndexWith;
    hide EngineCache;
    hide Find;
    hide Spares;
    hide Intruders;
    hide Composite;
    var p;
    steps, s, p := StoreDelivered(b, max, rules, g);
    var e := EventOf(b, p, p.ops[0]);
    steps, s := DeliverSmall(b, max, rules, g, steps, s, 0, p);
    steps, s := Intruded(b, max, rules, g, steps, s, e, max);
    IntrudersApart(b, max, e);
    StoredCache([], 0.0);
    assert s.log[..1] == [Batch(0.0, STORED)];
    var _ := Find(s.index.items, Composite(b, CacheKey("h")));
    NotExact(b, s, 0);
  }

  // ---- where no batch may note an event, nothing can go wrong but a lost first batch ----

  ghost predicate Idle(log: seq<Batch>) {
    forall i :: 0 <= i < |log| ==> Ops(log[i].events) == []
  }

  /** Nothing of the backend was ever posted, so only batches without operations were committed. */
  ghost predicate Silent(b: string, max: nat, s: System) {
    && WellFormed(max, s.index) && Mirrors(s.index.items, b, map[]) && s.checkpoint == s.adapter
    && (match s.partial
        case None => s.inflight.None?
        case Some(p) =>
          && p.reached == 0 && (s.inflight.Some? ==> s.inflight == Some(0)) && p.prepared.ops == BatchOps(p.batch, p.restart)
          && (p.live && !p.restart ==>
                && p.prepared.sequence < |s.log| && s.log[p.prepared.sequence] == p.batch
                && (p.prepared.sequence > 0 ==> s.adopted && s.adapter.last == Some(p.prepared.sequence - 1))))
    && (s.adopted && s.adapter.last.Some? ==> s.adapter.last.value < |s.log| && Idle(s.log[..s.adapter.last.value + 1]))
  }

  lemma SilentStart(b: string, max: nat, g: string)
    ensures Silent(b, max, Start(g))
  {
    forall key ensures SameAt([], b, map[], key) {
    }
  }

  /** What another backend does brings nothing of this one in. */
  lemma AbsentElsewhere(max: nat, x: Index, event: KvEvent, now: int, b: string)
    requires WellFormed(max, x) && Mirrors(x.items, b, map[])
    requires event.backendId != b && NUL[0] !in b && NUL[0] !in event.backendId
    ensures Mirrors(Observed(max, x, event, now).items, b, map[])
  {
    hide Mirrors;
    hide Cleared;
    hide Newest;
    hide Performed;
    var e := Defaulted(event, now);
    var y := Switched(x, e);
    if !Ignored(event) {
      SwitchedElsewhere(max, x, e, b, map[]);
      if !Dropped(y, e) {
        ClearedDistinct(x.items, e.backendId);
        NotedWellFormed(max, y, e);
        AbsentPerformed(max, Noted(max, y, e), e, b);
      }
    }
  }

  lemma AbsentPerformed(max: nat, x: Index, e: KvEvent, b: string)
    requires WellFormed(max, x) && NUL[0] !in b && NUL[0] !in e.backendId && e.backendId != b
    requires Mirrors(x.items, b, map[])
    ensures Mirrors(Performed(max, x, e).items, b, map[])
  {
    hide Find;
    var item := Item(Composite(e.backendId, e.cacheKey), e);
    forall key ensures SameAt(Performed(max, x, e).items, b, map[], key) {
      assert SameAt(x.items, b, map[], key);
      CompositeInjective(b, key, e.backendId, e.cacheKey);
      if e.operation == CLEAR {
        ClearedElsewhere(x.items, e.backendId, b, key);
      } else if e.operation == REMOVE {
        FindWithout(x.items, item.key, Composite(b, key));
      } else if x.items == [] {
        AbsentAlone(max, item, Composite(b, key));
      } else {
        FindStored(max, x.items, item, Composite(b, key));
      }
    }
  }

  lemma AbsentAlone(max: nat, item: Item<KvEvent>, key: string)
    requires item.key != key
    ensures Find(Trim(max, ToFront([], item)), key).None?
  {
    assert Without<KvEvent>([], item.key) == [];
    assert [item][..0] == [];
    HoldsOnly(item, key);
  }

  lemma HoldsOnly(item: Item<KvEvent>, key: string)
    requires item.key != key
    ensures Find([item], key).None? && Find<KvEvent>([], key).None?
  {
    assert [item][1..] == [];
  }

  lemma SilentStep(b: string, max: nat, rules: Rules, s: System, step: Step)
    requires NUL[0] !in b && rules.room == 0 && rules.firstFirst && Silent(b, max, s) && Enabled(b, max, rules, s, step)
    ensures Silent(b, max, Do(b, max, rules, s, step))
  {
    hide Prepare;
    hide Ops;
    hide Mirrors;
    hide WellFormed;
    hide Observed;
    hide Numbered;
    hide InOrder;
    hide NewName;
    hide Spares;
    var t := Do(b, max, rules, s, step);
    match step
    case Emit(batch) =>
      if s.adopted && s.adapter.last.Some? {
        assert t.log[..s.adapter.last.value + 1] == s.log[..s.adapter.last.value + 1];
      }
    case EngineRestart =>
    case Receive(q) => SilentReceive(b, max, rules, s, q);
    case Post(now) =>
    case Commit => SilentCommit(b, max, rules, s);
    case Crash =>
    case Foreign(e, now) =>
      ObservedWellFormed(max, s.index, e, now);
      AbsentElsewhere(max, s.index, e, now, b);
  }

  lemma SilentReceive(b: string, max: nat, rules: Rules, s: System, q: nat)
    requires rules.firstFirst && Silent(b, max, s) && Enabled(b, max, rules, s, Receive(q))
    ensures Silent(b, max, Do(b, max, rules, s, Receive(q)))
  {
    hide Ops;
    hide Mirrors;
    hide WellFormed;
    hide NewName;
    hide BatchOps;
    hide Idle;
  }

  lemma SilentCommit(b: string, max: nat, rules: Rules, s: System)
    requires Silent(b, max, s) && Enabled(b, max, rules, s, Commit)
    ensures Silent(b, max, Do(b, max, rules, s, Commit))
  {
    hide Prepare;
    hide Ops;
    hide Mirrors;
    hide WellFormed;
    var p := s.partial.value;
    assert p.prepared.ops == [] && BatchOps(p.batch, p.restart) == [];
    RestartHasOps(p.batch);
    if p.live && !p.restart {
      var q := p.prepared.sequence;
      NilUnit(Ops(p.batch.events));
      assert s.log[..q + 1] == s.log[..q] + [p.batch];
    }
  }

  lemma RestartHasOps(batch: Batch)
    ensures BatchOps(batch, true) != []
  {
    hide Ops;
    assert BatchOps(batch, true)[0] == Op(0, CLEAR, "", 0);
  }

  lemma {:induction false} SilentRun(b: string, max: nat, rules: Rules, g: string, steps: seq<Step>)
    requires NUL[0] !in b && rules.room == 0 && rules.firstFirst && CanRun(b, max, rules, g, steps)
    ensures Silent(b, max, Run(b, max, rules, g, steps))
  {
    hide Silent;
    hide Enabled;
    hide Do;
    if steps == [] {
      SilentStart(b, max, g);
    } else {
      var n := |steps| - 1;
      SilentRun(b, max, rules, g, steps[..n]);
      SilentStep(b, max, rules, Run(b, max, rules, g, steps[..n]), steps[n]);
    }
  }

  lemma {:induction false} IdleCache(log: seq<Batch>)
    requires Idle(log)
    ensures EngineCache(log) == map[]
  {
    hide Ops;
    hide EngineBatch;
    if log != [] {
      var n := |log| - 1;
      IdleCache(log[..n]);
      OpsAreBatch(map[], log[n].events, log[n].timestamp);
    }
  }

  lemma SilentExact(b: string, max: nat, s: System)
    requires Silent(b, max, s)
    ensures Exact(b, s)
  {
    hide Mirrors;
    hide EngineCache;
    if s.partial.None? && s.adopted && s.adapter.last.Some? {
      IdleCache(s.log[..s.adapter.last.value + 1]);
    }
  }

  // ---- the rules are exactly what it takes ----

  /**
   Exactly-once delivery holds in every run, if and only if the runs keep all
   the rules: each rule given up admits a run after which the index is wrong.
   Where no batch may note any event only the first rule matters.
   */
  lemma RulesIff(b: string, max: nat, rules: Rules, g: string)
    requires max > 0 && b != "" && NUL[0] !in b && g != ""
    ensures (forall steps :: CanRun(b, max, rules, g, steps) ==> Exact(b, Run(b, max, rules, g, steps)))
            <==> rules.firstFirst && (rules.room == 0 || Safe(rules, max))
  {
    hide CanRun;
    hide Exact;
    if rules.firstFirst && (rules.room == 0 || Safe(rules, max)) {
      forall steps | CanRun(b, max, rules, g, steps) ensures Exact(b, Run(b, max, rules, g, steps)) {
        if rules.room == 0 {
          SilentRun(b, max, rules, g, steps);
          SilentExact(b, max, Run(b, max, rules, g, steps));
        } else {
          ExactlyOnce(b, max, rules, g, steps);
        }
      }
    } else {
      var steps := SomeRunFails(b, max, rules, g);
    }
  }

  lemma SomeRunFails(b: string, max: nat, rules: Rules, g: string) returns (steps: seq<Step>)
    requires max > 0 && b != "" && NUL[0] !in b && g != ""
    requires !rules.firstFirst || (rules.room > 0 && !Safe(rules, max))
    ensures CanRun(b, max, rules, g, steps) && !Exact(b, Run(b, max, rules, g, steps))
  {
    hide CanRun;
    hide Exact;
    var s;
    if !rules.firstFirst {
      steps, s := FirstBatchLost(b, max, rules, g);
    } else if rules.room > 4 * max {
      steps := OneTooMany(b, max, rules, g);
    } else if !rules.committedFirst {
      steps, s := RestartedTooSoon(b, max, rules, g);
    } else if !rules.newNames {
      steps, s := NameReused(b, max, rules, g);
    } else {
      steps, s := PushedOut(b, max, rules, g);
    }
  }
}
