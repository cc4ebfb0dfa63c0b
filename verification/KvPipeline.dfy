/**
 From the engine's cache to the gateway's index: an engine that logs batches
 and may restart, a subscriber that posts them and may crash between posts, and
 other backends' traffic in between. Each batch takes effect exactly once.
 */
module KvPipeline {
  import opened Common
  import opened EventIds
  import opened Recency
  import opened KvEventIndex
  import opened KvEventAdapter

  // ---- the part of the index that belongs to one backend ----

  /** The index holds exactly `cache` for backend `b`. */
  ghost predicate Mirrors(items: seq<Item<KvEvent>>, b: string, cache: Cache) {
    forall key :: SameAt(items, b, cache, key)
  }

  ghost predicate SameAt(items: seq<Item<KvEvent>>, b: string, cache: Cache, key: string) {
    match Find(items, Composite(b, key))
    case Some(e) => key in cache && IsCopy(e, cache[key])
    case None => key !in cache
  }

  /** The entry says how large the block is and, to the millisecond, when it was last stored. */
  predicate IsCopy(e: KvEvent, block: Block) {
    e.matchedTokens == block.size && e.totalTokens == block.size && e.quality == Fresh &&
    e.observedAt == Some(LastMillisecond(block.storedAt))
  }

  /** A store of a block at that time. */
  predicate Stamped(e: KvEvent, time: real) {
    e.operation == CLEAR || e.operation == REMOVE || IsCopy(e, Block(e.matchedTokens, time))
  }

  /** A store would not push anything out. */
  ghost predicate Fits(max: nat, items: seq<Item<KvEvent>>, e: KvEvent) {
    e.operation == CLEAR || e.operation == REMOVE ||
    |ToFront(items, Item(Composite(e.backendId, e.cacheKey), e))| <= max
  }

  /** Nothing of backend `b` would be pushed out. */
  ghost predicate Spares(max: nat, items: seq<Item<KvEvent>>, e: KvEvent, b: string) {
    Fits(max, items, e) || (items != [] && !HasPrefix(items[|items| - 1].key, b + NUL))
  }

  lemma {:induction false} FindInit(items: seq<Item<KvEvent>>, key: string)
    requires items != [] && Distinct(items)
    ensures Find(items[..|items| - 1], key) == if key == items[|items| - 1].key then None else Find(items, key)
  {
    hide Find;
    var init, last := items[..|items| - 1], items[|items| - 1];
    LastIsGone(items);
    HasInit(items, key);
    var _ := Find(init, key);
    var _ := Find(items, key);
    if Has(init, key) {
      var i :| 0 <= i < |init| && init[i].key == key;
      assert items[i] == init[i] && init[i] in init;
      FindMember(init, init[i]);
      FindMember(items, items[i]);
    }
  }

  /** What a store leaves to be found, with or without pushing out the last item. */
  lemma FindStored(max: nat, items: seq<Item<KvEvent>>, item: Item<KvEvent>, key: string)
    requires Distinct(items) && |items| <= max && items != []
    ensures Find(Trim(max, ToFront(items, item)), key) ==
            if key == item.key then Some(item.value)
            else if |ToFront(items, item)| > max && key == items[|items| - 1].key then None
            else Find(items, key)
  {
    hide Find;
    FindToFront(items, item, key);
    if |ToFront(items, item)| > max {
      WithoutLength(items, item.key);
      NewKeyEvictsOldest(max, items, item);
      var init := items[..max - 1];
      FindInit(items, key);
      FindHead(item, init, key);
    }
  }

  lemma FindHead(item: Item<KvEvent>, rest: seq<Item<KvEvent>>, key: string)
    ensures Find([item] + rest, key) == if key == item.key then Some(item.value) else Find(rest, key)
  {
    assert ([item] + rest)[1..] == rest;
  }

  function Effect(cache: Cache, e: KvEvent, time: real): Cache {
    if e.operation == CLEAR then map[]
    else if e.operation == REMOVE then cache - {e.cacheKey}
    else cache[e.cacheKey := Block(e.matchedTokens, time)]
  }

  lemma ClearedMirrors(items: seq<Item<KvEvent>>, b: string)
    requires Distinct(items)
    ensures Mirrors(Cleared(items, b), b, map[])
  {
    forall key ensures SameAt(Cleared(items, b), b, map[], key) {
      FindKept(items, (item: Item<KvEvent>) => !HasPrefix(item.key, b + NUL), Composite(b, key));
      assert Composite(b, key)[..|b| + 1] == b + NUL;
    }
  }

  lemma PerformedMirrors(max: nat, x: Index, e: KvEvent, b: string, cache: Cache, time: real)
    requires WellFormed(max, x) && NUL[0] !in b && e.backendId == b && Stamped(e, time)
    requires e.operation == CLEAR || Mirrors(x.items, b, cache)
    requires Spares(max, x.items, e, b)
    ensures Mirrors(Performed(max, x, e).items, b, Effect(cache, e, time))
  {
    var full := Composite(b, e.cacheKey);
    if e.operation == CLEAR {
      ClearedMirrors(x.items, b);
    } else {
      forall key ensures SameAt(Performed(max, x, e).items, b, Effect(cache, e, time), key) {
        assert SameAt(x.items, b, cache, key);
        CompositeInjective(b, key, b, e.cacheKey);
        if e.operation == REMOVE {
          FindWithout(x.items, full, Composite(b, key));
        } else {
          FoundOf(max, x, e, b, key);
        }
      }
    }
  }

  /** A store that spares the backend changes at most its own key there. */
  lemma FoundOf(max: nat, x: Index, e: KvEvent, b: string, key: string)
    requires WellFormed(max, x) && Spares(max, x.items, e, b) && e.operation != CLEAR && e.operation != REMOVE
    ensures var item := Item(Composite(e.backendId, e.cacheKey), e);
            Find(Performed(max, x, e).items, Composite(b, key)) ==
            if Composite(b, key) == item.key then Some(e) else Find(x.items, Composite(b, key))
  {
    hide Find;
    var item := Item(Composite(e.backendId, e.cacheKey), e);
    if x.items == [] {
      FindToFront(x.items, item, Composite(b, key));
    } else {
      FindStored(max, x.items, item, Composite(b, key));
      assert Composite(b, key)[..|b| + 1] == b + NUL;
    }
  }

  /**
   A store keeps the mirror of a backend, its own or another's, exactly when no
   entry of that backend is pushed out for lack of space.
   */
  lemma StoreKeepsMirrorIff(max: nat, x: Index, e: KvEvent, b: string, cache: Cache, time: real)
    requires WellFormed(max, x) && x.items != [] && NUL[0] !in b && NUL[0] !in e.backendId
    requires Mirrors(x.items, b, cache) && e.operation != CLEAR && e.operation != REMOVE
    requires e.backendId == b ==> Stamped(e, time)
    ensures Mirrors(Performed(max, x, e).items, b, if e.backendId == b then Effect(cache, e, time) else cache) <==>
            Spares(max, x.items, e, b)
  {
    hide Find;
    if Spares(max, x.items, e, b) {
      if e.backendId == b {
        PerformedMirrors(max, x, e, b, cache, time);
      } else {
        PerformedElsewhere(max, x, e, b, cache);
      }
    } else {
      var last := x.items[|x.items| - 1];
      var rest := last.key[|b| + 1..];
      assert last.key == (b + NUL) + rest == Composite(b, rest);
      var item := Item(Composite(e.backendId, e.cacheKey), e);
      FindMember(x.items, last);
      assert SameAt(x.items, b, cache, rest);
      WithoutLength(x.items, item.key);
      FindStored(max, x.items, item, last.key);
      CompositeInjective(b, rest, e.backendId, e.cacheKey);
      assert !SameAt(Performed(max, x, e).items, b, if e.backendId == b then Effect(cache, e, time) else cache, rest);
    }
  }

  lemma PerformedElsewhere(max: nat, x: Index, e: KvEvent, b: string, cache: Cache)
    requires WellFormed(max, x) && NUL[0] !in b && NUL[0] !in e.backendId && e.backendId != b
    requires Mirrors(x.items, b, cache) && Spares(max, x.items, e, b)
    ensures Mirrors(Performed(max, x, e).items, b, cache)
  {
    var full := Composite(e.backendId, e.cacheKey);
    forall key ensures SameAt(Performed(max, x, e).items, b, cache, key) {
      assert SameAt(x.items, b, cache, key);
      CompositeInjective(b, key, e.backendId, e.cacheKey);
      if e.operation == CLEAR {
        ClearedElsewhere(x.items, e.backendId, b, key);
      } else if e.operation == REMOVE {
        FindWithout(x.items, full, Composite(b, key));
      } else {
        FoundOf(max, x, e, b, key);
      }
    }
  }

  lemma ClearedElsewhere(items: seq<Item<KvEvent>>, cleared: string, b: string, key: string)
    requires Distinct(items) && NUL[0] !in b && NUL[0] !in cleared && cleared != b
    ensures Find(Cleared(items, cleared), Composite(b, key)) == Find(items, Composite(b, key))
  {
    FindKept(items, (item: Item<KvEvent>) => !HasPrefix(item.key, cleared + NUL), Composite(b, key));
    CompositePrefix(b, key, cleared);
  }

  lemma SwitchedElsewhere(max: nat, x: Index, e: KvEvent, b: string, cache: Cache)
    requires WellFormed(max, x) && NUL[0] !in b && NUL[0] !in e.backendId && e.backendId != b
    requires Mirrors(x.items, b, cache)
    ensures Mirrors(Switched(x, e).items, b, cache)
  {
    forall key ensures SameAt(Switched(x, e).items, b, cache, key) {
      assert SameAt(x.items, b, cache, key);
      ClearedElsewhere(x.items, e.backendId, b, key);
    }
  }

  // ---- remembered event keys ----

  /** The newest `w` of the remembered keys. */
  function Recent(seen: seq<string>, w: nat): seq<string> {
    if |seen| <= w then seen else seen[|seen| - w..]
  }

  lemma RecentAfterPush(limit: nat, seen: seq<string>, w: nat, key: string)
    requires w + 1 <= limit
    ensures key in Recent(Newest(limit, seen + [key]), w + 1)
    ensures forall k :: k in Recent(seen, w) ==> k in Recent(Newest(limit, seen + [key]), w + 1)
  {
    var all := seen + [key];
    var now := Newest(limit, all);
    assert Recent(now, w + 1) == Recent(all, w + 1);
    assert Recent(all, w + 1) == Recent(seen, w) + [key];
  }

  lemma RecentGrows(seen: seq<string>, w: nat)
    ensures forall k :: k in Recent(seen, w) ==> k in Recent(seen, w + 1)
    ensures forall k :: k in Recent(seen, w) ==> k in seen
  {
    forall k | k in Recent(seen, w) ensures k in Recent(seen, w + 1) {
      var i :| 0 <= i < |Recent(seen, w)| && Recent(seen, w)[i] == k;
      if |seen| > w {
        assert seen[|seen| - w + i] == k;
        if |seen| > w + 1 {
          assert Recent(seen, w + 1)[i + 1] == k;
        }
      }
    }
  }

  // ---- the whole pipeline as a state machine ----

  /** A batch that was received but not committed: its first `reached` operations were posted. */
  datatype Partial = Partial(batch: Batch, prepared: Prepared, restart: bool, reached: nat, live: bool)

  datatype Stamp = Stamp(generation: string, sequence: nat, index: nat)

  /**
   `log` is what the running engine has published since it started, `inflight`
   how far the delivery in progress has come, `history` the committed batches of
   the adapter's generation, and `adopted` says that this is the running
   engine's generation. `used` and `posted` record the generations and stamps
   of the past; `window` counts the events noted since the partial batch began.
   */
  datatype System = System(
    log: seq<Batch>, adapter: Adapter, checkpoint: Adapter, inflight: Option<nat>, partial: Option<Partial>,
    index: Index, adopted: bool, history: seq<Batch>, used: set<string>, posted: set<Stamp>, window: nat)

  datatype Step =
    | Emit(batch: Batch)
    | EngineRestart
    | Receive(sequence: nat)
    | Post(now: int)
    | Commit
    | Crash
    | Foreign(event: KvEvent, now: int)

  function Start(generation: string): System {
    var adapter := Adapter(generation, None, 0.0);
    System([], adapter, adapter, None, None, EMPTY, true, [], {generation}, {}, 0)
  }

  function NextEvent(b: string, s: System): KvEvent
    requires CanPost(s)
  {
    EventOf(b, s.partial.value.prepared, s.partial.value.prepared.ops[s.inflight.value])
  }

  predicate CanPost(s: System) {
    s.partial.Some? && s.inflight.Some? && s.inflight.value < |s.partial.value.prepared.ops|
  }

  /**
   What the runs are held to, beyond what the code enforces: how many events may
   be noted while a batch is under way; whether an engine's first batch is
   delivered first, an engine restarts only after something was committed, its
   new name is new, and no store pushes out an entry of this backend.
   */
  datatype Rules = Rules(room: nat, firstFirst: bool, committedFirst: bool, newNames: bool, sparing: bool)

  predicate Safe(rules: Rules, max: nat) {
    rules.room <= 4 * max && rules.firstFirst && rules.committedFirst && rules.newNames && rules.sparing
  }

  /** The event is noted and stored within the rules. */
  ghost predicate Roomy(b: string, max: nat, rules: Rules, s: System, e: KvEvent) {
    (s.partial.Some? ==> s.window + 1 <= rules.room) && (rules.sparing ==> Spares(max, Switched(s.index, e).items, e, b))
  }

  /** A restarted engine's name is none of the earlier ones. */
  predicate NewName(s: System, name: string) {
    name !in s.used && (s.partial.Some? && !s.partial.value.live ==> name != s.partial.value.prepared.generation)
  }

  ghost predicate Enabled(b: string, max: nat, rules: Rules, s: System, step: Step) {
    match step
    case Emit(batch) => Numbered(batch) && InOrder(s.log + [batch])
    case EngineRestart => rules.committedFirst ==> s.adapter.last.Some?
    case Receive(q) =>
      s.inflight.None? && q < |s.log| && (rules.firstFirst && (s.adapter.last.None? || !s.adopted) ==> q == 0) &&
      (rules.newNames && IsRestart(s.adapter, q, s.log[q]) && s.log[q].timestamp >= 0.0 ==>
         NewName(s, RestartName(s.log[q].timestamp)))
    case Post(now) => CanPost(s) && (s.inflight.value >= s.partial.value.reached ==> Roomy(b, max, rules, s, NextEvent(b, s)))
    case Commit => s.partial.Some? && s.inflight == Some(|s.partial.value.prepared.ops|)
    case Crash => true
    case Foreign(e, now) => e.backendId != b && NUL[0] !in e.backendId && Roomy(b, max, rules, s, Defaulted(e, now))
  }

  ghost predicate InOrder(log: seq<Batch>) {
    (forall i :: 0 <= i < |log| ==> log[i].timestamp >= 0.0) &&
    (forall i, j :: 0 <= i < j < |log| ==> log[i].timestamp <= log[j].timestamp)
  }

  function Received(s: System, q: nat): System
    requires q < |s.log|
  {
    match Prepare(s.adapter, q, s.log[q])
    case Ready(prepared) =>
      if s.partial.Some? && s.partial.value.live then s.(inflight := Some(0))
      else
        s.(inflight := Some(0), window := 0,
           partial := Some(Partial(s.log[q], prepared, IsRestart(s.adapter, q, s.log[q]), 0, true)),
           used := s.used + if s.partial.Some? then {s.partial.value.prepared.generation} else {})
    case _ => s
  }

  function Posted(b: string, max: nat, s: System, now: int): System
    requires CanPost(s)
  {
    var partial := s.partial.value;
    var k := s.inflight.value;
    var t := s.(index := Observed(max, s.index, NextEvent(b, s), now), inflight := Some(k + 1));
    if k < partial.reached then t
    else t.(partial := Some(partial.(reached := k + 1)), window := s.window + 1,
            posted := s.posted + {StampOf(partial.prepared, partial.prepared.ops[k])})
  }

  function CommittedTo(s: System): System
    requires s.partial.Some?
  {
    var partial := s.partial.value;
    var adapter := KvEventAdapter.Committed(s.adapter, partial.prepared);
    s.(adapter := adapter, checkpoint := adapter, partial := None, inflight := None,
       history := if partial.restart then [partial.batch] else s.history + [partial.batch],
       adopted := partial.live,
       used := s.used + {partial.prepared.generation})
  }

  function Do(b: string, max: nat, rules: Rules, s: System, step: Step): System
    requires Enabled(b, max, rules, s, step)
  {
    match step
    case Emit(batch) => s.(log := s.log + [batch])
    case EngineRestart =>
      s.(log := [], adopted := false,
         partial := if s.partial.Some? then Some(s.partial.value.(live := false)) else None)
    case Receive(q) => Received(s, q)
    case Post(now) => Posted(b, max, s, now)
    case Commit => CommittedTo(s)
    case Crash => s.(inflight := None, adapter := s.checkpoint)
    case Foreign(e, now) => s.(index := Observed(max, s.index, e, now), window := s.window + 1)
  }

  ghost predicate CanRun(b: string, max: nat, rules: Rules, generation: string, steps: seq<Step>)
    decreases |steps|, 0
  {
    steps == [] ||
    (CanRun(b, max, rules, generation, steps[..|steps| - 1]) &&
     Enabled(b, max, rules, Run(b, max, rules, generation, steps[..|steps| - 1]), steps[|steps| - 1]))
  }

  ghost function Run(b: string, max: nat, rules: Rules, generation: string, steps: seq<Step>): System
    requires CanRun(b, max, rules, generation, steps)
    decreases |steps|, 1
  {
    if steps == [] then Start(generation)
    else Do(b, max, rules, Run(b, max, rules, generation, steps[..|steps| - 1]), steps[|steps| - 1])
  }

  // ---- what every step keeps ----

  function StampOf(p: Prepared, op: Op): Stamp {
    Stamp(p.generation, p.sequence, op.index)
  }

  function StampKey(b: string, stamp: Stamp): string {
    Composite(b, EventId(stamp.generation, stamp.sequence, stamp.index))
  }

  ghost predicate PartialShape(s: System, p: Partial) {
    && p.prepared.sequence == (if p.restart then 0 else |s.history|)
    && Prepare(s.adapter, p.prepared.sequence, p.batch) == Ready(p.prepared)
    && p.restart == IsRestart(s.adapter, p.prepared.sequence, p.batch)
    && p.prepared.timestamp == p.batch.timestamp
    && p.prepared.ops == BatchOps(p.batch, p.restart) && Numbered(p.batch)
    && p.prepared.generation != ""
    && (if p.restart then p.prepared.generation !in s.used && s.history != []
        else p.prepared.generation == s.adapter.generation)
    && p.reached <= |p.prepared.ops|
    && (s.inflight.Some? ==> s.inflight.value <= p.reached)
    && (p.live ==> p.prepared.sequence < |s.log| && s.log[p.prepared.sequence] == p.batch && p.restart == !s.adopted)
    && (s.adopted ==> p.live)
  }

  ghost predicate Shape(s: System) {
    && s.checkpoint == s.adapter
    && s.adapter.generation != "" && s.adapter.generation in s.used
    && (match s.adapter.last
        case None => s.history == []
        case Some(q) => q == |s.history| - 1 && s.adapter.lastTimestamp == s.history[q].timestamp)
    && InOrder(s.log) && (forall batch :: batch in s.log ==> Numbered(batch))
    && (if s.adopted then s.history <= s.log else s.history != [])
    && (match s.partial
        case None => s.inflight.None?
        case Some(p) => PartialShape(s, p))
  }

  predicate Begun(s: System) {
    s.partial.Some? && s.partial.value.reached > 0
  }

  predicate Restarting(s: System) {
    s.partial.Some? && s.partial.value.restart
  }

  /** What the index remembers of the backend's generation and last sequence. */
  ghost predicate Tracked(b: string, s: System) {
    && (b !in s.index.generation ==> b !in s.index.last && !Begun(s))
    && (b in s.index.generation ==>
          s.index.generation[b] != "" &&
          (if Begun(s) then s.index.generation[b] == s.partial.value.prepared.generation
           else if Restarting(s) then s.index.generation[b] in s.used
           else s.index.generation[b] == s.adapter.generation))
    && (b in s.index.last && (Begun(s) || !Restarting(s)) ==>
          s.index.last[b] <= if s.partial.Some? then s.partial.value.prepared.sequence else |s.history|)
  }

  ghost predicate Known(b: string, posted: set<Stamp>, key: string) {
    exists stamp :: stamp in posted && StampKey(b, stamp) == key
  }

  ghost predicate Past(s: System, stamp: Stamp) {
    stamp.generation in s.used &&
    (stamp.generation == s.adapter.generation && !Restarting(s) ==> stamp.sequence < |s.history|)
  }

  ghost predicate Reached(p: Partial, stamp: Stamp) {
    exists i :: 0 <= i < p.reached <= |p.prepared.ops| && StampOf(p.prepared, p.prepared.ops[i]) == stamp
  }

  /** Whatever the index remembers of this backend was posted: in the past, or of the partial batch. */
  ghost predicate Accounted(b: string, s: System) {
    && (forall key :: key in s.index.seen && HasPrefix(key, b + NUL) ==> Known(b, s.posted, key))
    && (forall stamp :: stamp in s.posted ==> Past(s, stamp) || (s.partial.Some? && Reached(s.partial.value, stamp)))
  }

  /** The partial batch's posted events are still remembered. */
  ghost predicate Remembered(b: string, max: nat, s: System) {
    s.partial.Some? ==>
      s.window <= 4 * max &&
      forall i :: 0 <= i < s.partial.value.reached <= |s.partial.value.prepared.ops| ==>
        StampKey(b, StampOf(s.partial.value.prepared, s.partial.value.prepared.ops[i])) in Recent(s.index.seen, s.window)
  }

  function Expected(s: System): Cache {
    match s.partial
    case None => EngineCache(s.history)
    case Some(p) =>
      if p.reached <= |p.prepared.ops| then OpEffects(EngineCache(s.history), p.prepared.ops[..p.reached], p.batch.timestamp)
      else EngineCache(s.history)
  }

  ghost predicate Held(b: string, s: System) {
    (Restarting(s) && !Begun(s)) || Mirrors(s.index.items, b, Expected(s))
  }

  ghost predicate Invariant(b: string, max: nat, s: System) {
    WellFormed(max, s.index) && Shape(s) && Tracked(b, s) && Accounted(b, s) && Remembered(b, max, s) && Held(b, s)
  }

  lemma StartInvariant(b: string, max: nat, generation: string)
    requires generation != ""
    ensures Invariant(b, max, Start(generation))
  {
    forall key ensures SameAt([], b, map[], key) {
    }
  }

  // ---- steps that leave the index alone ----

  lemma EmitKeeps(b: string, max: nat, rules: Rules, s: System, batch: Batch)
    requires Invariant(b, max, s) && Enabled(b, max, rules, s, Emit(batch))
    ensures Invariant(b, max, Do(b, max, rules, s, Emit(batch)))
  {
    hide Prepare;
    hide Known;
    hide Reached;
    hide Mirrors;
    hide BatchOps;
    var t := Do(b, max, rules, s, Emit(batch));
    assert Shape(t) by {
      hide InOrder;
    }
    assert Tracked(b, t) && Accounted(b, t) && Remembered(b, max, t);
    assert Expected(t) == Expected(s);
  }

  lemma EngineRestartKeeps(b: string, max: nat, rules: Rules, s: System)
    requires Safe(rules, max)
    requires Invariant(b, max, s) && Enabled(b, max, rules, s, EngineRestart)
    ensures Invariant(b, max, Do(b, max, rules, s, EngineRestart))
  {
    hide Prepare;
    hide Known;
    hide Mirrors;
    hide BatchOps;
    var t := Do(b, max, rules, s, EngineRestart);
    assert Shape(t);
    forall stamp | stamp in t.posted ensures Past(t, stamp) || (t.partial.Some? && Reached(t.partial.value, stamp)) {
      assert Past(s, stamp) || (s.partial.Some? && Reached(s.partial.value, stamp));
    }
    assert Expected(t) == Expected(s);
  }

  lemma CrashKeeps(b: string, max: nat, rules: Rules, s: System)
    requires Invariant(b, max, s)
    ensures Invariant(b, max, Do(b, max, rules, s, Crash))
  {
    hide Prepare;
    hide Known;
    hide Reached;
    hide Mirrors;
    hide BatchOps;
    hide InOrder;
    var t := Do(b, max, rules, s, Crash);
    assert Shape(t);
    assert Expected(t) == Expected(s);
  }

  // ---- receiving: the batch is the one begun, or a new one that follows the history ----

  lemma ReadyFollows(b: string, max: nat, rules: Rules, s: System, q: nat)
    requires Safe(rules, max)
    requires Shape(s) && Enabled(b, max, rules, s, Receive(q)) && Prepare(s.adapter, q, s.log[q]).Ready?
    ensures IsRestart(s.adapter, q, s.log[q]) == !s.adopted
    ensures q == if s.adopted then |s.history| else 0
  {
    hide PartialShape;
    hide BatchOps;
    if s.adopted && s.adapter.last.Some? {
      assert s.history[|s.history| - 1] == s.log[|s.history| - 1];
    }
  }

  /** What is delivered again is the very batch begun before, with the same operations. */
  lemma RedeliveredIsSame(b: string, max: nat, rules: Rules, s: System, q: nat)
    requires Safe(rules, max)
    requires Shape(s) && Enabled(b, max, rules, s, Receive(q)) && Prepare(s.adapter, q, s.log[q]).Ready?
    requires s.partial.Some? && s.partial.value.live
    ensures s.log[q] == s.partial.value.batch && Prepare(s.adapter, q, s.log[q]) == Ready(s.partial.value.prepared)
  {
    hide Prepare;
    hide InOrder;
    ReadyFollows(b, max, rules, s, q);
  }

  lemma NewPartialShape(b: string, max: nat, rules: Rules, s: System, q: nat)
    requires Safe(rules, max)
    requires Shape(s) && Enabled(b, max, rules, s, Receive(q)) && Prepare(s.adapter, q, s.log[q]).Ready?
    requires s.partial.Some? ==> !s.partial.value.live
    ensures Shape(Received(s, q))
  {
    hide InOrder;
    hide BatchOps;
    ReadyFollows(b, max, rules, s, q);
    assert s.log[q] in s.log;
  }

  lemma ReceiveKeeps(b: string, max: nat, rules: Rules, s: System, q: nat)
    requires Safe(rules, max)
    requires Invariant(b, max, s) && Enabled(b, max, rules, s, Receive(q))
    ensures Invariant(b, max, Do(b, max, rules, s, Receive(q)))
  {
    hide Prepare;
    hide InOrder;
    hide NewName;
    hide BatchOps;
    hide Accounted;
    hide Tracked;
    hide Remembered;
    hide Held;
    hide WellFormed;
    var t := Do(b, max, rules, s, Receive(q));
    if Prepare(s.adapter, q, s.log[q]).Ready? {
      if s.partial.Some? && s.partial.value.live {
        RedeliveryKeeps(b, max, s, t);
      } else {
        NewPartialShape(b, max, rules, s, q);
        ReadyFollows(b, max, rules, s, q);
        NewPartialIndex(b, max, s, t);
      }
    }
  }

  lemma RedeliveryKeeps(b: string, max: nat, s: System, t: System)
    requires Invariant(b, max, s) && s.partial.Some? && t == s.(inflight := Some(0))
    ensures Invariant(b, max, t)
  {
    hide Prepare;
    hide InOrder;
    hide Known;
    hide Reached;
    hide Mirrors;
    hide WellFormed;
    hide BatchOps;
    assert Shape(t);
    StampsKeptBy(b, max, s, t);
    assert Expected(t) == Expected(s);
  }

  lemma StampsKeptBy(b: string, max: nat, s: System, t: System)
    requires Accounted(b, s) && t == s.(inflight := t.inflight)
    ensures Accounted(b, t)
  {
    hide Known;
    hide Reached;
  }

  lemma NewPartialIndex(b: string, max: nat, s: System, t: System)
    requires Invariant(b, max, s) && Shape(t) && t.partial.Some? && t.partial.value.reached == 0 && t.window == 0
    requires s.partial.Some? ==> !s.partial.value.live && t.partial.value.restart
    requires t.index == s.index && t.adapter == s.adapter && t.history == s.history && t.posted == s.posted
    requires t.used == s.used + if s.partial.Some? then {s.partial.value.prepared.generation} else {}
    ensures Tracked(b, t) && Accounted(b, t) && Remembered(b, max, t) && Held(b, t)
  {
    hide Known;
    hide Mirrors;
    hide InOrder;
    hide Prepare;
    hide BatchOps;
    forall stamp | stamp in t.posted ensures Past(t, stamp) {
      assert Past(s, stamp) || (s.partial.Some? && Reached(s.partial.value, stamp));
    }
    assert t.partial.value.prepared.ops[..0] == [];
  }

  // ---- committing ----

  lemma CommitShape(b: string, max: nat, rules: Rules, s: System)
    requires Shape(s) && Enabled(b, max, rules, s, Commit)
    ensures Shape(Do(b, max, rules, s, Commit))
  {
    hide InOrder;
    hide BatchOps;
    var p := s.partial.value;
    if s.adopted && !p.restart {
      assert s.history + [p.batch] == s.log[..|s.history| + 1];
    }
  }

  lemma CommitKeeps(b: string, max: nat, rules: Rules, s: System)
    requires Invariant(b, max, s) && Enabled(b, max, rules, s, Commit)
    ensures Invariant(b, max, Do(b, max, rules, s, Commit))
  {
    hide InOrder;
    hide Prepare;
    hide Known;
    hide Mirrors;
    hide EngineBatch;
    hide OpEffects;
    hide Ops;
    var p := s.partial.value;
    var t := Do(b, max, rules, s, Commit);
    CommitShape(b, max, rules, s);
    assert !p.restart || p.reached > 0 by {
      assert |BatchOps(p.batch, true)| > 0;
    }
    assert Tracked(b, t);
    CommitStamps(b, max, rules, s);
    CommitCache(s);
  }

  lemma CommitStamps(b: string, max: nat, rules: Rules, s: System)
    requires Shape(s) && Accounted(b, s) && Enabled(b, max, rules, s, Commit)
    ensures Accounted(b, Do(b, max, rules, s, Commit))
  {
    hide InOrder;
    hide Prepare;
    hide Known;
    hide BatchOps;
    var t := Do(b, max, rules, s, Commit);
    forall stamp | stamp in t.posted ensures Past(t, stamp) {
      assert Past(s, stamp) || Reached(s.partial.value, stamp);
    }
  }

  lemma CommitCache(s: System)
    requires Shape(s) && s.partial.Some? && s.partial.value.reached == |s.partial.value.prepared.ops|
    ensures Expected(s) == Expected(CommittedTo(s))
  {
    hide Prepare;
    hide InOrder;
    hide Ops;
    hide OpEffects;
    hide EngineBatch;
    var p := s.partial.value;
    BatchOpsEffect(EngineCache(s.history), p.batch, p.restart);
    assert p.prepared.ops[..p.reached] == p.prepared.ops;
    if p.restart {
      assert [p.batch][..0] == [] && EngineCache([]) == map[];
      assert EngineCache([p.batch]) == EngineBatch(EngineCache([p.batch][..0]), p.batch.events, p.batch.timestamp);
    } else {
      SnocInit(s.history, p.batch);
    }
  }

  // ---- another backend's event ----

  lemma NotedSeen(max: nat, x: Index, e: KvEvent)
    ensures forall key :: key in Noted(max, x, e).seen ==> key in x.seen || (e.engineEventId != "" && key == EventKey(e))
  {
  }

  lemma NotedRecent(max: nat, x: Index, e: KvEvent, w: nat)
    requires w + 1 <= 4 * max
    ensures forall key :: key in Recent(x.seen, w) ==> key in Recent(Noted(max, x, e).seen, w + 1)
    ensures e.engineEventId != "" ==> EventKey(e) in Recent(Noted(max, x, e).seen, w + 1)
  {
    hide Recent;
    if e.engineEventId == "" {
      RecentGrows(x.seen, w);
    } else {
      RecentAfterPush(4 * max, x.seen, w, EventKey(e));
    }
  }

  /** Another backend's event leaves what the index says of this one as it was. */
  lemma ObservedElsewhere(max: nat, x: Index, event: KvEvent, now: int, b: string)
    requires event.backendId != b && NUL[0] !in b && NUL[0] !in event.backendId
    ensures var y := Observed(max, x, event, now);
            && (b in y.generation <==> b in x.generation) && (b in y.last <==> b in x.last)
            && (b in x.generation ==> y.generation[b] == x.generation[b]) && (b in x.last ==> y.last[b] == x.last[b])
            && forall key :: key in y.seen && HasPrefix(key, b + NUL) ==> key in x.seen
  {
    hide HasPrefix;
    hide Newest;
    var e := Defaulted(event, now);
    var y := Switched(x, e);
    if !Ignored(event) && !Dropped(y, e) {
      NotedSeen(max, y, e);
      CompositePrefix(e.backendId, e.engineEventId, b);
    }
  }

  lemma ObservedElsewhereItems(max: nat, x: Index, event: KvEvent, now: int, b: string, cache: Cache)
    requires WellFormed(max, x) && event.backendId != b && NUL[0] !in b && NUL[0] !in event.backendId
    requires Mirrors(x.items, b, cache) && Spares(max, Switched(x, Defaulted(event, now)).items, Defaulted(event, now), b)
    ensures Mirrors(Observed(max, x, event, now).items, b, cache)
  {
    hide Mirrors;
    hide Cleared;
    hide Newest;
    hide Spares;
    hide Performed;
    var e := Defaulted(event, now);
    var y := Switched(x, e);
    if !Ignored(event) {
      SwitchedElsewhere(max, x, e, b, cache);
      if !Dropped(y, e) {
        ClearedDistinct(x.items, e.backendId);
        NotedWellFormed(max, y, e);
        PerformedElsewhere(max, Noted(max, y, e), e, b, cache);
      }
    }
  }

  lemma ObservedRecent(max: nat, x: Index, event: KvEvent, now: int, w: nat)
    requires w + 1 <= 4 * max
    ensures forall key :: key in Recent(x.seen, w) ==> key in Recent(Observed(max, x, event, now).seen, w + 1)
  {
    hide Recent;
    hide Noted;
    RecentGrows(x.seen, w);
    var e := Defaulted(event, now);
    NotedRecent(max, Switched(x, e), e, w);
  }

  lemma ForeignKeeps(b: string, max: nat, rules: Rules, s: System, event: KvEvent, now: int)
    requires Safe(rules, max)
    requires NUL[0] !in b && Invariant(b, max, s) && Enabled(b, max, rules, s, Foreign(event, now))
    ensures Invariant(b, max, Do(b, max, rules, s, Foreign(event, now)))
  {
    hide Prepare;
    hide Known;
    hide Reached;
    hide Mirrors;
    hide BatchOps;
    hide InOrder;
    hide Observed;
    hide HasPrefix;
    hide Spares;
    hide Recent;
    hide WellFormed;
    var t := Do(b, max, rules, s, Foreign(event, now));
    ObservedWellFormed(max, s.index, event, now);
    assert Shape(t);
    ObservedElsewhere(max, s.index, event, now, b);
    assert Tracked(b, t);
    assert Accounted(b, t);
    if s.partial.Some? {
      ObservedRecent(max, s.index, event, now, s.window);
    }
    assert Expected(t) == Expected(s);
    if Mirrors(s.index.items, b, Expected(s)) {
      ObservedElsewhereItems(max, s.index, event, now, b, Expected(s));
    }
  }

  // ---- posting an operation that was posted before ----

  lemma PostedAgain(b: string, max: nat, s: System, now: int)
    requires b != "" && Invariant(b, max, s) && CanPost(s) && s.inflight.value < s.partial.value.reached
    ensures Observed(max, s.index, NextEvent(b, s), now) == s.index
  {
    hide Prepare;
    hide Known;
    hide Mirrors;
    hide InOrder;
    hide WellFormed;
    hide BatchOps;
    hide Cleared;
    hide Recent;
    hide EventId;
    var p := s.partial.value;
    var op := p.prepared.ops[s.inflight.value];
    var e := NextEvent(b, s);
    RecentGrows(s.index.seen, s.window);
    assert EventKey(e) == StampKey(b, StampOf(p.prepared, op));
    assert EventKey(e) in s.index.seen;
    EventIdNotEmpty(p.prepared.generation, p.prepared.sequence, op.index);
    assert s.index.generation[b := s.index.generation[b]] == s.index.generation;
  }

  lemma EventIdNotEmpty(generation: string, sequence: nat, index: nat)
    ensures EventId(generation, sequence, index) != ""
  {
    assert EventId(generation, sequence, index)[|generation|] == ':';
  }

  // ---- posting the next operation ----

  /** The batch's generation is the index's, and no later sequence number stands in its way. */
  lemma SwitchedTo(b: string, max: nat, s: System)
    requires Shape(s) && Tracked(b, s) && CanPost(s)
    ensures var y := Switched(s.index, NextEvent(b, s));
            && y.seen == s.index.seen && b in y.generation && y.generation[b] == s.partial.value.prepared.generation
            && (b in y.last ==> y.last[b] <= s.partial.value.prepared.sequence)
            && ((Restarting(s) && !Begun(s)) || y.items == s.index.items)
            && (y.items == s.index.items || y.items == Cleared(s.index.items, b))
  {
    hide Prepare;
    hide InOrder;
    hide BatchOps;
    hide Cleared;
    hide EventId;
  }

  lemma StampKeyInjective(b: string, x: Stamp, y: Stamp)
    requires NUL[0] !in b && StampKey(b, x) == StampKey(b, y)
    ensures x == y
  {
    CompositeInjective(b, EventId(x.generation, x.sequence, x.index), b, EventId(y.generation, y.sequence, y.index));
    EventIdInjective(x.generation, x.sequence, x.index, y.generation, y.sequence, y.index);
  }

  lemma NextIsUnseen(b: string, max: nat, s: System)
    requires NUL[0] !in b && Shape(s) && Accounted(b, s) && CanPost(s) && s.inflight.value == s.partial.value.reached
    ensures EventKey(NextEvent(b, s)) !in s.index.seen
  {
    hide Prepare;
    hide InOrder;
    hide BatchOps;
    hide EventId;
    var p := s.partial.value;
    var k := p.reached;
    var next := StampOf(p.prepared, p.prepared.ops[k]);
    var key := EventKey(NextEvent(b, s));
    assert key == StampKey(b, next);
    assert HasPrefix(key, b + NUL);
    if key in s.index.seen {
      var stamp :| stamp in s.posted && StampKey(b, stamp) == key;
      StampKeyInjective(b, stamp, next);
      assert !Past(s, next);
      assert Reached(p, next);
      BatchOpsIndices(p.batch, p.restart);
    }
  }

  /** The next operation is neither a repeat nor late: it is noted and performed. */
  lemma NextIsPerformed(b: string, max: nat, s: System, now: int)
    requires b != "" && NUL[0] !in b && Invariant(b, max, s) && CanPost(s)
    requires s.inflight.value == s.partial.value.reached
    ensures var e := NextEvent(b, s);
            Observed(max, s.index, e, now) == Performed(max, Noted(max, Switched(s.index, e), e), e)
  {
    hide Prepare;
    hide InOrder;
    hide Switched;
    hide Noted;
    hide Performed;
    hide Mirrors;
    hide Known;
    hide WellFormed;
    hide EventId;
    hide Ops;
    hide Remembered;
    var p := s.partial.value;
    SwitchedTo(b, max, s);
    NextIsUnseen(b, max, s);
    var op := p.prepared.ops[p.reached];
    var e := NextEvent(b, s);
    assert op.operation == CLEAR || op.cacheKey != "" by {
      OpsNamed(p.batch.events);
      assert op in p.prepared.ops;
    }
    EventIdNotEmpty(p.prepared.generation, p.prepared.sequence, op.index);
    assert Defaulted(e, now) == e && !Ignored(e);
    assert !Dropped(Switched(s.index, e), e);
  }

  lemma NextCache(b: string, s: System)
    requires Shape(s) && CanPost(s) && s.inflight.value == s.partial.value.reached
    ensures Expected(s.(partial := Some(s.partial.value.(reached := s.partial.value.reached + 1)))) ==
            Effect(Expected(s), NextEvent(b, s), s.partial.value.batch.timestamp)
    ensures Stamped(NextEvent(b, s), s.partial.value.batch.timestamp)
    ensures Restarting(s) && !Begun(s) ==> NextEvent(b, s).operation == CLEAR
  {
    hide Prepare;
    hide InOrder;
    hide Ops;
    hide EventId;
    hide EngineCache;
    var p := s.partial.value;
    var ops, k := p.prepared.ops, p.reached;
    assert ops[..k + 1][..k] == ops[..k];
  }

  lemma NextMirrors(b: string, max: nat, rules: Rules, s: System)
    requires Safe(rules, max)
    requires NUL[0] !in b && Invariant(b, max, s) && CanPost(s) && s.inflight.value == s.partial.value.reached
    requires Roomy(b, max, rules, s, NextEvent(b, s))
    ensures var e := NextEvent(b, s);
            Mirrors(Performed(max, Noted(max, Switched(s.index, e), e), e).items, b,
                    Effect(Expected(s), e, s.partial.value.batch.timestamp))
  {
    hide Prepare;
    hide InOrder;
    hide EventId;
    hide Performed;
    hide Mirrors;
    hide Known;
    hide Cleared;
    hide BatchOps;
    hide Effect;
    hide Expected;
    hide Newest;
    var e := NextEvent(b, s);
    SwitchedTo(b, max, s);
    NextIsUnseen(b, max, s);
    NextCache(b, s);
    ClearedDistinct(s.index.items, b);
    var y := Switched(s.index, e);
    assert WellFormed(max, y);
    NotedWellFormed(max, y, e);
    PerformedMirrors(max, Noted(max, y, e), e, b, Expected(s), s.partial.value.batch.timestamp);
  }

  lemma NextStamps(b: string, max: nat, s: System, t: System)
    requires Shape(s) && Accounted(b, s) && CanPost(s) && s.inflight.value == s.partial.value.reached
    requires t.posted == s.posted + {StampOf(s.partial.value.prepared, s.partial.value.prepared.ops[s.partial.value.reached])}
    requires t.partial == Some(s.partial.value.(reached := s.partial.value.reached + 1))
    requires t.adapter == s.adapter && t.history == s.history && t.used == s.used
    requires forall key :: key in t.index.seen ==> key in s.index.seen || key == EventKey(NextEvent(b, s))
    ensures Accounted(b, t)
  {
    hide Prepare;
    hide InOrder;
    hide EventId;
    hide BatchOps;
    hide HasPrefix;
    var p, q := s.partial.value, t.partial.value;
    var next := StampOf(p.prepared, p.prepared.ops[p.reached]);
    assert EventKey(NextEvent(b, s)) == StampKey(b, next);
    assert Known(b, t.posted, StampKey(b, next));
    forall key | key in t.index.seen && HasPrefix(key, b + NUL) ensures Known(b, t.posted, key) {
      if key != StampKey(b, next) {
        assert Known(b, s.posted, key);
      }
    }
    forall stamp | stamp in t.posted ensures Past(t, stamp) || Reached(q, stamp) {
      if stamp == next {
        assert StampOf(q.prepared, q.prepared.ops[p.reached]) == stamp;
      } else {
        assert Past(s, stamp) || Reached(p, stamp);
      }
    }
  }

  lemma PostKeeps(b: string, max: nat, rules: Rules, s: System, now: int)
    requires Safe(rules, max)
    requires b != "" && NUL[0] !in b && Invariant(b, max, s) && Enabled(b, max, rules, s, Post(now))
    ensures Invariant(b, max, Do(b, max, rules, s, Post(now)))
  {
    hide Invariant;
    hide Roomy;
    hide NextEvent;
    hide StampOf;
    hide Observed;
    if s.inflight.value < s.partial.value.reached {
      PostedAgain(b, max, s, now);
      PostAgainKeeps(b, max, s, Do(b, max, rules, s, Post(now)));
    } else {
      assert s.inflight.value == s.partial.value.reached by {
        NeverAhead(b, max, s);
      }
      PostNextKeeps(b, max, rules, s, now);
    }
  }

  lemma NeverAhead(b: string, max: nat, s: System)
    requires Invariant(b, max, s) && CanPost(s)
    ensures s.inflight.value <= s.partial.value.reached
  {
  }

  lemma PostAgainKeeps(b: string, max: nat, s: System, t: System)
    requires Invariant(b, max, s) && CanPost(s) && s.inflight.value < s.partial.value.reached
    requires t == s.(inflight := Some(s.inflight.value + 1))
    ensures Invariant(b, max, t)
  {
    hide Prepare;
    hide InOrder;
    hide BatchOps;
    hide Known;
    hide Reached;
    hide Mirrors;
    hide WellFormed;
    assert Shape(t);
    assert Expected(t) == Expected(s);
  }

  lemma PostNextKeeps(b: string, max: nat, rules: Rules, s: System, now: int)
    requires Safe(rules, max)
    requires b != "" && NUL[0] !in b && Invariant(b, max, s) && CanPost(s)
    requires s.inflight.value == s.partial.value.reached && Roomy(b, max, rules, s, NextEvent(b, s))
    ensures Invariant(b, max, Posted(b, max, s, now))
  {
    hide Prepare;
    hide InOrder;
    hide BatchOps;
    hide Mirrors;
    hide WellFormed;
    hide EventId;
    hide Observed;
    hide Switched;
    hide Newest;
    hide Recent;
    hide Accounted;
    hide Spares;
    hide Effect;
    hide OpEffects;
    hide EngineCache;
    var t := Posted(b, max, s, now);
    var p, q := s.partial.value, t.partial.value;
    var e := NextEvent(b, s);
    var y := Switched(s.index, e);
    ObservedWellFormed(max, s.index, e, now);
    NextIsPerformed(b, max, s, now);
    SwitchedTo(b, max, s);
    assert Shape(t);
    assert Tracked(b, t);
    NotedSeen(max, y, e);
    NextStamps(b, max, s, t);
    EventIdNotEmpty(p.prepared.generation, p.prepared.sequence, p.prepared.ops[p.reached].index);
    NotedRecent(max, y, e, s.window);
    assert Remembered(b, max, t);
    NextMirrors(b, max, rules, s);
    NextCache(b, s);
    assert Held(b, t);
  }

  // ---- every run ----

  lemma StepKeeps(b: string, max: nat, rules: Rules, s: System, step: Step)
    requires Safe(rules, max)
    requires b != "" && NUL[0] !in b && Invariant(b, max, s) && Enabled(b, max, rules, s, step)
    ensures Invariant(b, max, Do(b, max, rules, s, step))
  {
    hide Invariant;
    hide Enabled;
    hide Do;
    match step
    case Emit(batch) => EmitKeeps(b, max, rules, s, batch);
    case EngineRestart => EngineRestartKeeps(b, max, rules, s);
    case Receive(q) => ReceiveKeeps(b, max, rules, s, q);
    case Post(now) => PostKeeps(b, max, rules, s, now);
    case Commit => CommitKeeps(b, max, rules, s);
    case Crash => CrashKeeps(b, max, rules, s);
    case Foreign(e, now) => ForeignKeeps(b, max, rules, s, e, now);
  }

  lemma {:induction false} RunInvariant(b: string, max: nat, rules: Rules, generation: string, steps: seq<Step>)
    requires Safe(rules, max)
    requires b != "" && NUL[0] !in b && generation != "" && CanRun(b, max, rules, generation, steps)
    ensures Invariant(b, max, Run(b, max, rules, generation, steps))
  {
    hide Invariant;
    hide Enabled;
    hide Do;
    if steps == [] {
      StartInvariant(b, max, generation);
    } else {
      var n := |steps| - 1;
      RunInvariant(b, max, rules, generation, steps[..n]);
      StepKeeps(b, max, rules, Run(b, max, rules, generation, steps[..n]), steps[n]);
    }
  }

  /** Once nothing is pending, the index holds for this backend what the log up to the committed sequence leaves. */
  ghost predicate Exact(b: string, s: System) {
    s.partial.None? && s.adopted ==>
      match s.adapter.last
      case None => Mirrors(s.index.items, b, map[])
      case Some(q) => q < |s.log| && Mirrors(s.index.items, b, EngineCache(s.log[..q + 1]))
  }

  /**
   Exactly once: however batches, posts, crashes, redeliveries, engine restarts
   and other backends' events are interleaved, after a commit the index holds
   for this backend exactly what the engine's log up to the committed sequence
   leaves in its cache, no batch missing and none counted twice. `rules` bounds
   the events noted while one batch is under way.
   */
  lemma ExactlyOnce(b: string, max: nat, rules: Rules, generation: string, steps: seq<Step>)
    requires Safe(rules, max)
    requires b != "" && NUL[0] !in b && generation != "" && CanRun(b, max, rules, generation, steps)
    ensures Exact(b, Run(b, max, rules, generation, steps))
  {
    hide Mirrors;
    RunInvariant(b, max, rules, generation, steps);
    var s := Run(b, max, rules, generation, steps);
    if s.adopted {
      assert s.history == s.log[..|s.history|];
    }
  }

  /**
   Half way through a batch, crash or not, the index holds the committed
   history plus the operations posted so far, once each; only a restart of
   which nothing was posted yet is excepted.
   */
  lemma PartialIsPrefix(b: string, max: nat, rules: Rules, generation: string, steps: seq<Step>)
    requires Safe(rules, max)
    requires b != "" && NUL[0] !in b && generation != "" && CanRun(b, max, rules, generation, steps)
    ensures var s := Run(b, max, rules, generation, steps);
            s.partial.Some? ==>
              var p := s.partial.value;
              && p.reached <= |p.prepared.ops| && p.prepared.ops == BatchOps(p.batch, p.restart)
              && p.prepared.sequence == (if p.restart then 0 else |s.history|)
              && ((p.restart && p.reached == 0) ||
                  Mirrors(s.index.items, b, OpEffects(EngineCache(s.history), p.prepared.ops[..p.reached], p.batch.timestamp)))
  {
    hide Mirrors;
    RunInvariant(b, max, rules, generation, steps);
  }

  // ---- where the guarantee ends ----

  /**
   Why a restarted engine needs a new name: under the old name its events carry
   the old engine's IDs, and what is remembered of those swallows them.
   */
  lemma ReusedNameIsSwallowed(max: nat, x: Index, e: KvEvent, now: int)
    requires e.engineEventId != "" && EventKey(e) in x.seen
    requires e.backendId in x.generation && x.generation[e.backendId] == e.generation
    ensures Observed(max, x, e, now) == x
  {
    hide Cleared;
    assert x.generation[e.backendId := e.generation] == x.generation;
  }

  /**
   Why a backend has one in-order subscriber: an old generation's event that
   arrives late clears the backend and turns its generation back, even when the
   event itself is then dropped as a repeat.
   */
  lemma LateGenerationClears(max: nat, x: Index, e: KvEvent, now: int, key: string)
    requires WellFormed(max, x) && !Ignored(e) && e.engineEventId != "" && EventKey(e) in x.seen
    requires e.backendId in x.generation && x.generation[e.backendId] != "" && e.generation != ""
    requires x.generation[e.backendId] != e.generation
    ensures var y := Observed(max, x, e, now);
            !Has(y.items, Composite(e.backendId, key)) && y.generation[e.backendId] == e.generation
  {
    ClearedMirrors(x.items, e.backendId);
    assert SameAt(Cleared(x.items, e.backendId), e.backendId, map[], key);
  }
}
