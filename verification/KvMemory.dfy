/**
 How long a posted event is remembered, and why that bounds the pipeline: the
 remembered event keys are shared by all backends, and the oldest go first.
 */
module KvMemory {
  import opened Common
  import opened EventIds
  import opened Recency
  import opened KvEventIndex
  import opened KvEventAdapter
  import opened KvPipeline

  function ObservedAll(max: nat, x: Index, events: seq<KvEvent>): Index {
    if events == [] then x
    else Observed(max, ObservedAll(max, x, events[..|events| - 1]), events[|events| - 1], 0)
  }

  function KeysOf(events: seq<KvEvent>): seq<string> {
    seq(|events|, i requires 0 <= i < |events| => EventKey(events[i]))
  }

  /** The event is taken in and its key remembered. */
  ghost predicate TakenIn(x: Index, event: KvEvent) {
    var e := Defaulted(event, 0);
    event.engineEventId != "" && !Ignored(event) && !Dropped(Switched(x, e), e)
  }

  ghost predicate AllTakenIn(max: nat, x: Index, events: seq<KvEvent>) {
    events == [] ||
    (AllTakenIn(max, x, events[..|events| - 1]) &&
     TakenIn(ObservedAll(max, x, events[..|events| - 1]), events[|events| - 1]))
  }

  lemma NewestTwice(limit: nat, keys: seq<string>, key: string)
    ensures Newest(limit, Newest(limit, keys) + [key]) == Newest(limit, keys + [key])
  {
  }

  lemma TakenInSeen(max: nat, x: Index, e: KvEvent)
    requires TakenIn(x, e)
    ensures Observed(max, x, e, 0).seen == Newest(4 * max, x.seen + [EventKey(e)])
  {
    hide Newest;
    hide Cleared;
    hide Without;
    hide ToFront;
    hide Trim;
  }

  lemma {:induction false} AllTakenInSeen(max: nat, x: Index, events: seq<KvEvent>)
    requires AllTakenIn(max, x, events) && |x.seen| <= 4 * max
    ensures ObservedAll(max, x, events).seen == Newest(4 * max, x.seen + KeysOf(events))
  {
    hide Observed;
    hide TakenIn;
    if events == [] {
      NilUnit(x.seen);
    } else {
      hide Newest;
      var init, last := events[..|events| - 1], events[|events| - 1];
      AllTakenInSeen(max, x, init);
      TakenInSeen(max, ObservedAll(max, x, init), last);
      assert KeysOf(events) == KeysOf(init) + [EventKey(last)];
      Assoc(x.seen, KeysOf(init), [EventKey(last)]);
      NewestTwice(4 * max, x.seen + KeysOf(init), EventKey(last));
    }
  }

  lemma {:induction false} ForeignLast(max: nat, x: Index, events: seq<KvEvent>, b: string)
    requires NUL[0] !in b && forall f :: f in events ==> f.backendId != b && NUL[0] !in f.backendId
    ensures var y := ObservedAll(max, x, events);
            (b in y.last <==> b in x.last) && (b in x.last ==> y.last[b] == x.last[b])
  {
    hide Observed;
    if events != [] {
      var init, last := events[..|events| - 1], events[|events| - 1];
      InitAndLast(events);
      ForeignLast(max, x, init, b);
      ObservedElsewhere(max, ObservedAll(max, x, init), last, 0, b);
    }
  }

  lemma KeyStays(limit: nat, seen: seq<string>, key: string, others: seq<string>)
    requires limit > 0 && key !in seen && key !in others
    ensures key in Newest(limit, Newest(limit, seen + [key]) + others) <==> |others| < limit
  {
    var mine := Newest(limit, seen + [key]);
    var all := mine + others;
    assert mine[|mine| - 1] == key;
    assert forall i :: 0 <= i < |all| ==> (all[i] == key <==> i == |mine| - 1);
    if |others| < limit && |all| > limit {
      assert Newest(limit, all)[|mine| - 1 - (|all| - limit)] == key;
    } else if |others| < limit {
      assert Newest(limit, all)[|mine| - 1] == key;
    } else {
      assert forall i :: 0 <= i < |Newest(limit, all)| ==> Newest(limit, all)[i] == all[|all| - |Newest(limit, all)| + i];
    }
  }

  /**
   How long a repeat is recognised: after an event was taken in and `others` of
   other backends were, delivering it again is dropped if and only if these are
   fewer than the keys the index remembers.
   */
  lemma RepeatDroppedIff(max: nat, x: Index, e: KvEvent, others: seq<KvEvent>, now: int)
    requires max > 0 && NUL[0] !in e.backendId && TakenIn(x, e)
    requires forall f :: f in others ==> f.backendId != e.backendId && NUL[0] !in f.backendId
    requires AllTakenIn(max, Observed(max, x, e, 0), others)
    ensures var y := ObservedAll(max, Observed(max, x, e, 0), others);
            Dropped(Switched(y, Defaulted(e, now)), Defaulted(e, now)) <==> |others| < 4 * max
  {
    hide ObservedAll;
    hide AllTakenIn;
    hide Newest;
    hide Cleared;
    hide Performed;
    var x1 := Observed(max, x, e, 0);
    TakenInSeen(max, x, e);
    ForeignLast(max, x1, others, e.backendId);
    AtMostLimit(4 * max, x.seen + [EventKey(e)]);
    AllTakenInSeen(max, x1, others);
    forall f | f in others ensures EventKey(f) != EventKey(e) {
      CompositeInjective(f.backendId, f.engineEventId, e.backendId, e.engineEventId);
    }
    var keys := KeysOf(others);
    forall i | 0 <= i < |keys| ensures keys[i] != EventKey(e) {
      assert others[i] in others;
    }
    KeyStays(4 * max, x.seen, EventKey(e), keys);
    NotedLast(max, x, e);
  }

  lemma AtMostLimit(limit: nat, keys: seq<string>)
    ensures |Newest(limit, keys)| <= limit
  {
  }

  lemma NotedLast(max: nat, x: Index, e: KvEvent)
    requires TakenIn(x, e)
    ensures Sequenced(e) ==> e.backendId in Observed(max, x, e, 0).last && Observed(max, x, e, 0).last[e.backendId] == e.sequence
  {
    hide Newest;
    hide Cleared;
    hide Without;
    hide ToFront;
    hide Trim;
  }

  // ---- a run that forgets one event too many ----

  /** A batch that stores a block and removes it again. */
  const BRIEF := Batch(0.0, [BlockStored(["h"], 16), BlockRemoved(["h"])])

  const BRIEF_OPS := [Op(SPAN, STORE, CacheKey("h"), 16), Op(2 * SPAN, REMOVE, CacheKey("h"), 0)]

  function BriefPrepared(g: string): Prepared {
    Prepared(0, 0.0, g, BRIEF_OPS)
  }

  function BriefEvent(b: string, g: string, k: nat): KvEvent
    requires k < 2
  {
    EventOf(b, BriefPrepared(g), BRIEF_OPS[k])
  }

  /** An event of another backend that is noted and changes nothing else. */
  function Other(b: string, i: nat): KvEvent {
    KvEvent(REMOVE, b + "c", "k", 0, 0, 0, false, "", "f" + Decimal(i), Some(0), Fresh)
  }

  function OtherKeys(b: string, n: nat): seq<string> {
    seq(n, i requires 0 <= i < n => EventKey(Other(b, i)))
  }

  function BriefIndex(b: string, g: string, held: bool, seen: seq<string>): Index {
    Index(if held then [Item(Composite(b, CacheKey("h")), BriefEvent(b, g, 0))] else [], map[b := g], map[b := 0], seen)
  }

  /** The machine with that batch under way. */
  function UnderWay(g: string, x: Index, inflight: Option<nat>, reached: nat, posted: set<Stamp>, window: nat): System {
    var a := Adapter(g, None, 0.0);
    System([BRIEF], a, a, inflight, Some(Partial(BRIEF, BriefPrepared(g), false, reached, true)), x, true, [], {g},
           posted, window)
  }

  ghost predicate Reaches(b: string, max: nat, rules: Rules, g: string, steps: seq<Step>, s: System) {
    CanRun(b, max, rules, g, steps) && Run(b, max, rules, g, steps) == s
  }

  lemma Next(b: string, max: nat, rules: Rules, g: string, steps: seq<Step>, s: System, step: Step)
    requires Reaches(b, max, rules, g, steps, s) && Enabled(b, max, rules, s, step)
    ensures Reaches(b, max, rules, g, steps + [step], Do(b, max, rules, s, step))
  {
    hide Enabled;
    hide Do;
    SnocInit(steps, step);
  }

  lemma BriefIsReady(g: string)
    ensures Prepare(Adapter(g, None, 0.0), 0, BRIEF) == Ready(BriefPrepared(g))
  {
    var events := BRIEF.events;
    assert events[..2] == events && events[..1] == [events[0]];
    NoOps(events);
    OpsStep(events, 0);
    OpsStep(events, 1);
    assert forall raw :: raw in events ==> Supported(raw);
  }

  lemma BriefLeavesNothing()
    ensures EngineCache([BRIEF]) == map[]
  {
    var log := [BRIEF];
    var events, hashes := BRIEF.events, ["h"];
    assert log[..0] == [] && events[..0] == [] && hashes[..0] == [];
    assert events[..1][..0] == [] && events[..1][0] == BlockStored(["h"], 16);
    assert EngineBatch(map[], events[..0], 0.0) == map[];
    assert StoreBlocks(map[], hashes, Block(16, 0.0)) == map[CacheKey("h") := Block(16, 0.0)];
    assert EngineBatch(map[], events[..1], 0.0) == map[CacheKey("h") := Block(16, 0.0)];
    assert RemoveBlocks(map[CacheKey("h") := Block(16, 0.0)], hashes) == map[];
  }

  lemma KeysApart(b: string, g: string, n: nat)
    requires NUL[0] !in b
    ensures EventKey(BriefEvent(b, g, 0)) != EventKey(BriefEvent(b, g, 1))
    ensures forall i, k :: 0 <= i < n && 0 <= k < 2 ==> OtherKeys(b, n)[i] != EventKey(BriefEvent(b, g, k))
    ensures EventKey(Other(b, n)) !in OtherKeys(b, n)
  {
    hide Composite;
    hide EventId;
    var id0, id1 := EventId(g, 0, SPAN), EventId(g, 0, 2 * SPAN);
    CompositeInjective(b, id0, b, id1);
    if id0 == id1 {
      EventIdInjective(g, 0, SPAN, g, 0, 2 * SPAN);
    }
    assert NUL[0] !in b + "c";
    forall i, k | 0 <= i < n && 0 <= k < 2 ensures OtherKeys(b, n)[i] != EventKey(BriefEvent(b, g, k)) {
      CompositeInjective(b + "c", "f" + Decimal(i), b, BriefEvent(b, g, k).engineEventId);
    }
    forall i | 0 <= i < n ensures OtherKeys(b, n)[i] != EventKey(Other(b, n)) {
      CompositeInjective(b + "c", "f" + Decimal(i), b + "c", "f" + Decimal(n));
      if "f" + Decimal(i) == "f" + Decimal(n) {
        assert ("f" + Decimal(i))[1..] == Decimal(i) && ("f" + Decimal(n))[1..] == Decimal(n);
        DecimalInjective(i, n);
      }
    }
  }

  /** The batch's own operations on the index: noted unless their key is remembered. */
  lemma BriefObserved(b: string, max: nat, g: string, held: bool, seen: seq<string>, k: nat, now: int)
    requires b != "" && NUL[0] !in b && g != "" && max > 0 && k < 2
    ensures var e := BriefEvent(b, g, k);
            Observed(max, BriefIndex(b, g, held, seen), e, now) ==
            if EventKey(e) in seen then BriefIndex(b, g, held, seen)
            else BriefIndex(b, g, k == 0, Newest(4 * max, seen + [EventKey(e)]))
  {
    hide EventId;
    hide Newest;
    hide Keep;
    hide Composite;
    var x, e := BriefIndex(b, g, held, seen), BriefEvent(b, g, k);
    EventIdNotEmpty(g, 0, BRIEF_OPS[k].index);
    assert Defaulted(e, now) == e && Switched(x, e) == x;
    if EventKey(e) !in seen {
      assert Noted(max, x, e).last == x.last;
      BriefWithout(b, g, held);
    }
  }

  lemma BriefWithout(b: string, g: string, held: bool)
    ensures Without(BriefIndex(b, g, held, []).items, Composite(b, CacheKey("h"))) == []
  {
    var items := BriefIndex(b, g, held, []).items;
    WithoutLength(items, Composite(b, CacheKey("h")));
    if held {
      assert items[0].key == Composite(b, CacheKey("h"));
    }
  }

  lemma FirstObserved(b: string, max: nat, g: string, now: int)
    requires b != "" && g != "" && max > 0
    ensures Observed(max, EMPTY, BriefEvent(b, g, 0), now) == BriefIndex(b, g, true, [EventKey(BriefEvent(b, g, 0))])
  {
    hide EventId;
    hide Composite;
    var e := BriefEvent(b, g, 0);
    EventIdNotEmpty(g, 0, BRIEF_OPS[0].index);
    assert Without<KvEvent>([], Composite(b, e.cacheKey)) == [];
  }

  lemma OtherObserved(b: string, max: nat, g: string, n: nat, now: int)
    requires b != "" && NUL[0] !in b && n + 1 < 4 * max
    ensures var k := EventKey(BriefEvent(b, g, 0));
            Observed(max, BriefIndex(b, g, true, [k] + OtherKeys(b, n)), Other(b, n), now) ==
            BriefIndex(b, g, true, [k] + OtherKeys(b, n + 1))
  {
    hide EventId;
    hide Composite;
    hide Keep;
    var k, e := EventKey(BriefEvent(b, g, 0)), Other(b, n);
    var x := BriefIndex(b, g, true, [k] + OtherKeys(b, n));
    KeysApart(b, g, n);
    KeysApart(b, g, n + 1);
    assert EventKey(e) == OtherKeys(b, n + 1)[n];
    assert EventKey(e) !in x.seen;
    assert Defaulted(e, now) == e && Switched(x, e) == x && !Dropped(x, e);
    assert [k] + OtherKeys(b, n) + [EventKey(e)] == [k] + OtherKeys(b, n + 1);
    CompositeInjective(b, CacheKey("h"), b + "c", "k");
    WithoutAbsent(x.items, Composite(b + "c", "k"));
  }

  // ---- the steps of the run ----

  lemma NothingDone(b: string, max: nat, rules: Rules, g: string)
    ensures Reaches(b, max, rules, g, [], Start(g))
  {
  }

  lemma EmitBrief(b: string, max: nat, rules: Rules, g: string)
    ensures Enabled(b, max, rules, Start(g), Emit(BRIEF))
    ensures Do(b, max, rules, Start(g), Emit(BRIEF)) == Start(g).(log := [BRIEF])
  {
    assert [] + [BRIEF] == [BRIEF];
  }

  lemma ReceiveBrief(b: string, max: nat, rules: Rules, g: string)
    ensures Enabled(b, max, rules, Start(g).(log := [BRIEF]), Receive(0))
    ensures Do(b, max, rules, Start(g).(log := [BRIEF]), Receive(0)) == UnderWay(g, EMPTY, Some(0), 0, {}, 0)
  {
    hide Prepare;
    BriefIsReady(g);
  }

  lemma PostFirst(b: string, max: nat, rules: Rules, g: string)
    requires rules.room > 0 && max > 0 && b != "" && g != ""
    ensures var s := UnderWay(g, EMPTY, Some(0), 0, {}, 0);
            Enabled(b, max, rules, s, Post(0)) &&
            Do(b, max, rules, s, Post(0)) ==
            UnderWay(g, BriefIndex(b, g, true, [EventKey(BriefEvent(b, g, 0))]), Some(1), 1, {Stamp(g, 0, SPAN)}, 1)
  {
    hide EventId;
    hide Composite;
    hide Observed;
    FirstFits(b, max, g);
    FirstObserved(b, max, g, 0);
  }

  lemma Begin(b: string, max: nat, rules: Rules, g: string) returns (steps: seq<Step>)
    requires rules.room > 0 && max > 0 && b != "" && g != ""
    ensures Reaches(b, max, rules, g, steps,
                    UnderWay(g, BriefIndex(b, g, true, [EventKey(BriefEvent(b, g, 0))]), Some(1), 1,
                             {Stamp(g, 0, SPAN)}, 1))
  {
    hide Reaches;
    hide Enabled;
    hide Do;
    steps := [];
    NothingDone(b, max, rules, g);
    EmitBrief(b, max, rules, g);
    Next(b, max, rules, g, steps, Start(g), Emit(BRIEF));
    steps := steps + [Emit(BRIEF)];
    ReceiveBrief(b, max, rules, g);
    Next(b, max, rules, g, steps, Start(g).(log := [BRIEF]), Receive(0));
    steps := steps + [Receive(0)];
    PostFirst(b, max, rules, g);
    Next(b, max, rules, g, steps, UnderWay(g, EMPTY, Some(0), 0, {}, 0), Post(0));
    steps := steps + [Post(0)];
  }

  lemma FirstFits(b: string, max: nat, g: string)
    requires max > 0
    ensures Fits(max, Switched(EMPTY, BriefEvent(b, g, 0)).items, BriefEvent(b, g, 0))
  {
    hide Composite;
    assert Without<KvEvent>([], Composite(b, CacheKey("h"))) == [];
  }

  lemma {:induction false} Others(b: string, max: nat, rules: Rules, g: string, n: nat) returns (steps: seq<Step>)
    requires rules.room > 4 * max > n && b != "" && NUL[0] !in b && g != ""
    ensures Reaches(b, max, rules, g, steps,
                    UnderWay(g, BriefIndex(b, g, true, [EventKey(BriefEvent(b, g, 0))] + OtherKeys(b, n)), Some(1), 1,
                             {Stamp(g, 0, SPAN)}, n + 1))
  {
    hide Reaches;
    hide Observed;
    hide EventId;
    hide Composite;
    var k := EventKey(BriefEvent(b, g, 0));
    if n == 0 {
      steps := Begin(b, max, rules, g);
      assert [k] + OtherKeys(b, 0) == [k];
    } else {
      steps := Others(b, max, rules, g, n - 1);
      var s := UnderWay(g, BriefIndex(b, g, true, [k] + OtherKeys(b, n - 1)), Some(1), 1, {Stamp(g, 0, SPAN)}, n);
      var e := Other(b, n - 1);
      assert b + "c" != b && NUL[0] !in b + "c";
      Next(b, max, rules, g, steps, s, Foreign(e, 0));
      OtherObserved(b, max, g, n - 1, 0);
      steps := steps + [Foreign(e, 0)];
    }
  }

  /** The second post pushes the first one's key out; then the subscriber crashes. */
  lemma Forget(b: string, max: nat, rules: Rules, g: string) returns (steps: seq<Step>, posted: set<Stamp>)
    requires rules.room > 4 * max > 0 && b != "" && NUL[0] !in b && g != ""
    ensures Reaches(b, max, rules, g, steps,
                    UnderWay(g, BriefIndex(b, g, false, OtherKeys(b, 4 * max - 1) + [EventKey(BriefEvent(b, g, 1))]),
                             None, 2, posted, 4 * max + 1))
  {
    hide Reaches;
    hide Observed;
    hide EventId;
    hide Composite;
    var n := 4 * max - 1;
    var k, l := EventKey(BriefEvent(b, g, 0)), EventKey(BriefEvent(b, g, 1));
    var before := [k] + OtherKeys(b, n);
    steps := Others(b, max, rules, g, n);
    var s := UnderWay(g, BriefIndex(b, g, true, before), Some(1), 1, {Stamp(g, 0, SPAN)}, 4 * max);
    Next(b, max, rules, g, steps, s, Post(0));
    steps := steps + [Post(0)];
    KeysApart(b, g, n);
    BriefObserved(b, max, g, true, before, 1, 0);
    assert Newest(4 * max, before + [l]) == OtherKeys(b, n) + [l];
    posted := {Stamp(g, 0, SPAN)} + {Stamp(g, 0, 2 * SPAN)};
    var t := UnderWay(g, BriefIndex(b, g, false, OtherKeys(b, n) + [l]), Some(2), 2, posted, 4 * max + 1);
    assert Do(b, max, rules, s, Post(0)) == t;
    Next(b, max, rules, g, steps, t, Crash);
    steps := steps + [Crash];
  }

  /** Delivered again, the store is taken for new and the removal for a repeat. */
  lemma Repeat(b: string, max: nat, rules: Rules, g: string) returns (steps: seq<Step>, posted: set<Stamp>, seen: seq<string>)
    requires rules.room > 4 * max > 0 && b != "" && NUL[0] !in b && g != ""
    ensures Reaches(b, max, rules, g, steps,
                    UnderWay(g, BriefIndex(b, g, true, seen), Some(2), 2, posted, 4 * max + 1))
  {
    hide Reaches;
    hide Observed;
    hide Prepare;
    hide EventId;
    hide Composite;
    var n := 4 * max - 1;
    var k, l := EventKey(BriefEvent(b, g, 0)), EventKey(BriefEvent(b, g, 1));
    var before := OtherKeys(b, n) + [l];
    steps, posted := Forget(b, max, rules, g);
    var x := BriefIndex(b, g, false, before);
    var s := UnderWay(g, x, None, 2, posted, 4 * max + 1);
    BriefIsReady(g);
    Next(b, max, rules, g, steps, s, Receive(0));
    steps := steps + [Receive(0)];
    var t := UnderWay(g, x, Some(0), 2, posted, 4 * max + 1);
    Next(b, max, rules, g, steps, t, Post(0));
    steps := steps + [Post(0)];
    KeysApart(b, g, n);
    BriefObserved(b, max, g, false, before, 0, 0);
    seen := OtherKeys(b, n)[1..] + [l, k];
    assert Newest(4 * max, before + [k]) == seen && seen[n - 1] == l;
    var u := UnderWay(g, BriefIndex(b, g, true, seen), Some(1), 2, posted, 4 * max + 1);
    assert Do(b, max, rules, t, Post(0)) == u;
    Next(b, max, rules, g, steps, u, Post(0));
    steps := steps + [Post(0)];
    BriefObserved(b, max, g, true, seen, 1, 0);
  }

  /** One event more than the index remembers breaks the mirror. */
  lemma OneTooMany(b: string, max: nat, rules: Rules, g: string) returns (steps: seq<Step>)
    requires rules.room > 4 * max > 0 && b != "" && NUL[0] !in b && g != ""
    ensures CanRun(b, max, rules, g, steps) && !Exact(b, Run(b, max, rules, g, steps))
  {
    hide Observed;
    hide Prepare;
    hide EventId;
    hide Composite;
    hide EngineCache;
    var posted, seen;
    steps, posted, seen := Repeat(b, max, rules, g);
    var s := UnderWay(g, BriefIndex(b, g, true, seen), Some(2), 2, posted, 4 * max + 1);
    Next(b, max, rules, g, steps, s, Commit);
    steps := steps + [Commit];
    var t := Run(b, max, rules, g, steps);
    BriefLeavesNothing();
    assert t.log[..1] == [BRIEF];
    assert !SameAt(t.index.items, b, map[], CacheKey("h")) by {
      assert t.index.items[0].key == Composite(b, CacheKey("h"));
    }
  }

  /**
   The bound of the pipeline is exact: held to the other rules, every run keeps
   the mirror if and only if at most as many events as the index remembers may
   be noted during a batch.
   */
  lemma WindowBoundIff(b: string, max: nat, room: nat, generation: string)
    requires max > 0 && b != "" && NUL[0] !in b && generation != ""
    ensures var rules := Rules(room, true, true, true, true);
            (forall steps :: CanRun(b, max, rules, generation, steps) ==> Exact(b, Run(b, max, rules, generation, steps)))
            <==> room <= 4 * max
  {
    hide CanRun;
    hide Exact;
    var rules := Rules(room, true, true, true, true);
    if room <= 4 * max {
      forall steps | CanRun(b, max, rules, generation, steps)
        ensures Exact(b, Run(b, max, rules, generation, steps))
      {
        ExactlyOnce(b, max, rules, generation, steps);
      }
    } else {
      var steps := OneTooMany(b, max, rules, generation);
    }
  }
}
