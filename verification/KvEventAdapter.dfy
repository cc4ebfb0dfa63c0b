/**
 The sidecar that follows one engine's KV-cache events: it numbers what it
 passes on, refuses gaps, drops repeats and notices a restarted engine.
 */
module KvEventAdapter {
  import opened Common
  import opened EventIds
  import opened KvEventIndex

  datatype RawEvent =
    | BlockStored(hashes: seq<string>, blockSize: int)
    | BlockRemoved(hashes: seq<string>)
    | AllBlocksCleared
    | Unsupported

  datatype Batch = Batch(timestamp: real, events: seq<RawEvent>)

  const STORE := "store"
  const SPAN: nat := 1_000_000

  function CacheKey(hash: string): string {
    "vllm:block:" + hash
  }

  // ---- what a batch means to the engine's cache ----

  /** A cached block and the time, in seconds, of the batch that last stored it. */
  datatype Block = Block(size: int, storedAt: real)

  type Cache = map<string, Block>

  function StoreBlocks(cache: Cache, hashes: seq<string>, block: Block): Cache {
    if hashes == [] then cache
    else StoreBlocks(cache, hashes[..|hashes| - 1], block)[CacheKey(hashes[|hashes| - 1]) := block]
  }

  function RemoveBlocks(cache: Cache, hashes: seq<string>): Cache {
    if hashes == [] then cache
    else RemoveBlocks(cache, hashes[..|hashes| - 1]) - {CacheKey(hashes[|hashes| - 1])}
  }

  function EngineStep(cache: Cache, raw: RawEvent, time: real): Cache {
    match raw
    case BlockStored(hashes, blockSize) => StoreBlocks(cache, hashes, Block(blockSize, time))
    case BlockRemoved(hashes) => RemoveBlocks(cache, hashes)
    case AllBlocksCleared => map[]
    case Unsupported => cache
  }

  function EngineBatch(cache: Cache, events: seq<RawEvent>, time: real): Cache {
    if events == [] then cache
    else EngineStep(EngineBatch(cache, events[..|events| - 1], time), events[|events| - 1], time)
  }

  function EngineCache(log: seq<Batch>): Cache {
    if log == [] then map[]
    else EngineBatch(EngineCache(log[..|log| - 1]), log[|log| - 1].events, log[|log| - 1].timestamp)
  }

  // ---- the numbered operations of a batch ----

  datatype Op = Op(index: nat, operation: string, cacheKey: string, tokens: int)

  function OpEffect(cache: Cache, op: Op, time: real): Cache {
    if op.operation == CLEAR then map[]
    else if op.operation == REMOVE then cache - {op.cacheKey}
    else cache[op.cacheKey := Block(op.tokens, time)]
  }

  function OpEffects(cache: Cache, ops: seq<Op>, time: real): Cache {
    if ops == [] then cache else OpEffect(OpEffects(cache, ops[..|ops| - 1], time), ops[|ops| - 1], time)
  }

  function HashOps(number: nat, operation: string, hashes: seq<string>, tokens: int): seq<Op> {
    seq(|hashes|, j requires 0 <= j < |hashes| => Op(number * SPAN + j, operation, CacheKey(hashes[j]), tokens))
  }

  function RawOps(number: nat, raw: RawEvent): seq<Op> {
    match raw
    case BlockStored(hashes, blockSize) => HashOps(number, STORE, hashes, blockSize)
    case BlockRemoved(hashes) => HashOps(number, REMOVE, hashes, 0)
    case AllBlocksCleared => [Op(number * SPAN, CLEAR, "", 0)]
    case Unsupported => []
  }

  /** Raw events are numbered from 1. */
  function Ops(events: seq<RawEvent>): seq<Op> {
    if events == [] then [] else Ops(events[..|events| - 1]) + RawOps(|events|, events[|events| - 1])
  }

  function BatchOps(batch: Batch, restart: bool): seq<Op> {
    (if restart then [Op(0, CLEAR, "", 0)] else []) + Ops(batch.events)
  }

  lemma {:induction false} OpEffectsAppend(cache: Cache, a: seq<Op>, b: seq<Op>, time: real)
    ensures OpEffects(cache, a + b, time) == OpEffects(OpEffects(cache, a, time), b, time)
  {
    if b == [] {
      NilUnit(a);
    } else {
      AppendInit(a, b);
      OpEffectsAppend(cache, a, b[..|b| - 1], time);
    }
  }

  lemma {:induction false} StoreBlocksOps(cache: Cache, number: nat, hashes: seq<string>, blockSize: int, time: real)
    ensures OpEffects(cache, HashOps(number, STORE, hashes, blockSize), time) ==
            StoreBlocks(cache, hashes, Block(blockSize, time))
  {
    if hashes != [] {
      var n := |hashes| - 1;
      StoreBlocksOps(cache, number, hashes[..n], blockSize, time);
      assert HashOps(number, STORE, hashes, blockSize)[..n] == HashOps(number, STORE, hashes[..n], blockSize);
    }
  }

  lemma {:induction false} RemoveBlocksOps(cache: Cache, number: nat, hashes: seq<string>, time: real)
    ensures OpEffects(cache, HashOps(number, REMOVE, hashes, 0), time) == RemoveBlocks(cache, hashes)
  {
    if hashes != [] {
      var n := |hashes| - 1;
      RemoveBlocksOps(cache, number, hashes[..n], time);
      assert HashOps(number, REMOVE, hashes, 0)[..n] == HashOps(number, REMOVE, hashes[..n], 0);
    }
  }

  /** The operations of a batch, one after the other, are the batch. */
  lemma {:induction false} OpsAreBatch(cache: Cache, events: seq<RawEvent>, time: real)
    ensures OpEffects(cache, Ops(events), time) == EngineBatch(cache, events, time)
  {
    if events != [] {
      var init, last := events[..|events| - 1], events[|events| - 1];
      OpsAreBatch(cache, init, time);
      OpEffectsAppend(cache, Ops(init), RawOps(|events|, last), time);
      var before := EngineBatch(cache, init, time);
      match last
      case BlockStored(hashes, blockSize) => StoreBlocksOps(before, |events|, hashes, blockSize, time);
      case BlockRemoved(hashes) => RemoveBlocksOps(before, |events|, hashes, time);
      case AllBlocksCleared => assert [Op(|events| * SPAN, CLEAR, "", 0)][..0] == [];
      case Unsupported =>
    }
  }

  /** A restart's leading clear makes the batch start from an empty cache. */
  lemma BatchOpsEffect(cache: Cache, batch: Batch, restart: bool)
    ensures OpEffects(cache, BatchOps(batch, restart), batch.timestamp) ==
            EngineBatch(if restart then map[] else cache, batch.events, batch.timestamp)
  {
    if restart {
      OpEffectsAppend(cache, [Op(0, CLEAR, "", 0)], Ops(batch.events), batch.timestamp);
      assert [Op(0, CLEAR, "", 0)][..0] == [];
      assert OpEffects(cache, [Op(0, CLEAR, "", 0)], batch.timestamp) == map[];
      OpsAreBatch(map[], batch.events, batch.timestamp);
    } else {
      NilUnit(Ops(batch.events));
      OpsAreBatch(cache, batch.events, batch.timestamp);
    }
  }

  // ---- what the cache says of a block, told from the log ----

  /** A raw event and the time of its batch. */
  datatype Timed = Timed(raw: RawEvent, time: real)

  /** All raw events of the log, in their order. */
  function Published(log: seq<Batch>): seq<Timed> {
    if log == [] then []
    else Published(log[..|log| - 1]) + TimedAll(log[|log| - 1].events, log[|log| - 1].timestamp)
  }

  function TimedAll(events: seq<RawEvent>, time: real): seq<Timed> {
    seq(|events|, i requires 0 <= i < |events| => Timed(events[i], time))
  }

  predicate Names(hashes: seq<string>, key: string) {
    exists hash :: hash in hashes && CacheKey(hash) == key
  }

  predicate StoresAs(event: Timed, key: string, block: Block) {
    event.raw.BlockStored? && Names(event.raw.hashes, key) && Block(event.raw.blockSize, event.time) == block
  }

  predicate Touches(raw: RawEvent, key: string) {
    match raw
    case BlockStored(hashes, _) => Names(hashes, key)
    case BlockRemoved(hashes) => Names(hashes, key)
    case AllBlocksCleared => true
    case Unsupported => false
  }

  /** The last event that concerns the key stores it as that block. */
  ghost predicate LastWord(published: seq<Timed>, key: string, block: Block) {
    exists i :: 0 <= i < |published| && LastWordAt(published, key, block, i)
  }

  ghost predicate LastWordAt(published: seq<Timed>, key: string, block: Block, i: int)
    requires 0 <= i < |published|
  {
    StoresAs(published[i], key, block) && forall j :: i < j < |published| ==> !Touches(published[j].raw, key)
  }

  predicate Holds(cache: Cache, key: string, block: Block) {
    key in cache && cache[key] == block
  }

  lemma {:induction false} StoredBlock(cache: Cache, hashes: seq<string>, block: Block, key: string)
    ensures var after := StoreBlocks(cache, hashes, block);
            if Names(hashes, key) then key in after && after[key] == block
            else (key in after <==> key in cache) && (key in after ==> after[key] == cache[key])
  {
    if hashes != [] {
      var init := hashes[..|hashes| - 1];
      InitAndLast(hashes);
      StoredBlock(cache, init, block, key);
    }
  }

  lemma {:induction false} KeptBlock(cache: Cache, hashes: seq<string>, key: string)
    ensures var after := RemoveBlocks(cache, hashes);
            (key in after <==> key in cache && !Names(hashes, key)) && (key in after ==> after[key] == cache[key])
  {
    if hashes != [] {
      InitAndLast(hashes);
      KeptBlock(cache, hashes[..|hashes| - 1], key);
    }
  }

  lemma StepTold(cache: Cache, event: Timed, key: string, block: Block)
    ensures Holds(EngineStep(cache, event.raw, event.time), key, block) <==>
            StoresAs(event, key, block) || (!Touches(event.raw, key) && Holds(cache, key, block))
  {
    hide Names;
    match event.raw
    case BlockStored(hashes, blockSize) => StoredBlock(cache, hashes, Block(blockSize, event.time), key);
    case BlockRemoved(hashes) => KeptBlock(cache, hashes, key);
    case _ =>
  }

  lemma LastWordSnoc(published: seq<Timed>, event: Timed, key: string, block: Block)
    ensures LastWord(published + [event], key, block) <==>
            StoresAs(event, key, block) || (!Touches(event.raw, key) && LastWord(published, key, block))
  {
    hide StoresAs;
    hide Touches;
    var all, n := published + [event], |published|;
    if StoresAs(event, key, block) {
      assert LastWordAt(all, key, block, n);
    }
    if !Touches(event.raw, key) && LastWord(published, key, block) {
      var i :| 0 <= i < n && LastWordAt(published, key, block, i);
      assert LastWordAt(all, key, block, i);
    }
    if LastWord(all, key, block) {
      var i :| 0 <= i <= n && LastWordAt(all, key, block, i);
      if i < n {
        assert all[n] == event;
        assert forall j :: 0 <= j < n ==> all[j] == published[j];
        assert LastWordAt(published, key, block, i);
      }
    }
  }

  lemma {:induction false} BatchTold(cache: Cache, before: seq<Timed>, events: seq<RawEvent>, time: real, key: string, block: Block)
    requires Holds(cache, key, block) <==> LastWord(before, key, block)
    ensures Holds(EngineBatch(cache, events, time), key, block) <==> LastWord(before + TimedAll(events, time), key, block)
  {
    hide Holds;
    hide LastWord;
    hide EngineStep;
    if events == [] {
      NilUnit(before);
    } else {
      var init, last := events[..|events| - 1], Timed(events[|events| - 1], time);
      BatchTold(cache, before, init, time, key, block);
      StepTold(EngineBatch(cache, init, time), last, key, block);
      LastWordSnoc(before + TimedAll(init, time), last, key, block);
      assert TimedAll(events, time) == TimedAll(init, time) + [last];
      Assoc(before, TimedAll(init, time), [last]);
    }
  }

  /**
   The engine's cache, told from the log: it holds a block under a key exactly
   if the last event that stores, removes or clears the key stores that block,
   in a batch of that time.
   */
  lemma {:induction false} CachedIff(log: seq<Batch>, key: string, block: Block)
    ensures Holds(EngineCache(log), key, block) <==> LastWord(Published(log), key, block)
  {
    if log != [] {
      var init, last := log[..|log| - 1], log[|log| - 1];
      CachedIff(init, key, block);
      BatchTold(EngineCache(init), Published(init), last.events, last.timestamp, key, block);
    }
  }

  /** No raw event carries more hashes than its numbers have room for. */
  ghost predicate Numbered(batch: Batch) {
    forall raw :: raw in batch.events ==>
      match raw
      case BlockStored(hashes, _) => |hashes| <= SPAN
      case BlockRemoved(hashes) => |hashes| <= SPAN
      case _ => true
  }

  lemma {:induction false} OpsIndices(events: seq<RawEvent>)
    requires Numbered(Batch(0.0, events))
    ensures forall op :: op in Ops(events) ==> SPAN <= op.index < (|events| + 1) * SPAN
    ensures forall i, j :: 0 <= i < j < |Ops(events)| ==> Ops(events)[i].index < Ops(events)[j].index
  {
    if events != [] {
      var init, last := events[..|events| - 1], events[|events| - 1];
      assert forall raw :: raw in init ==> raw in events;
      OpsIndices(init);
      assert last in events;
      var tail := RawOps(|events|, last);
      assert forall j :: 0 <= j < |tail| ==> |events| * SPAN <= tail[j].index == |events| * SPAN + j < (|events| + 1) * SPAN;
      forall i, j | 0 <= i < j < |Ops(events)| ensures Ops(events)[i].index < Ops(events)[j].index {
        if i < |Ops(init)| {
          assert Ops(events)[i] == Ops(init)[i] && Ops(init)[i] in Ops(init);
        }
      }
    }
  }

  lemma NoOps(events: seq<RawEvent>)
    ensures Ops(events[..0]) == []
  {
  }

  lemma OpsStep(events: seq<RawEvent>, k: nat)
    requires k < |events|
    ensures Ops(events[..k + 1]) == Ops(events[..k]) + RawOps(k + 1, events[k])
  {
    assert events[..k + 1][..k] == events[..k];
  }

  /** Every operation of a batch has a number of its own. */
  lemma BatchOpsIndices(batch: Batch, restart: bool)
    requires Numbered(batch)
    ensures forall i, j :: 0 <= i < j < |BatchOps(batch, restart)| ==>
              BatchOps(batch, restart)[i].index != BatchOps(batch, restart)[j].index
  {
    hide Ops;
    OpsIndices(batch.events);
    forall i, j | 0 <= i < j < |BatchOps(batch, restart)|
      ensures BatchOps(batch, restart)[i].index != BatchOps(batch, restart)[j].index
    {
      var shift := if restart then 1 else 0;
      assert BatchOps(batch, restart)[j] == Ops(batch.events)[j - shift];
      assert Ops(batch.events)[j - shift] in Ops(batch.events);
    }
  }

  /** The operation stands for raw event `number`, counted from 1, or for one of its blocks, counted from 0. */
  ghost predicate Posts(raw: RawEvent, number: nat, op: Op) {
    match raw
    case BlockStored(hashes, blockSize) =>
      exists j :: 0 <= j < |hashes| && op == Op(number * 1_000_000 + j, "store", "vllm:block:" + hashes[j], blockSize)
    case BlockRemoved(hashes) =>
      exists j :: 0 <= j < |hashes| && op == Op(number * 1_000_000 + j, "remove", "vllm:block:" + hashes[j], 0)
    case AllBlocksCleared => op == Op(number * 1_000_000, "clear", "", 0)
    case Unsupported => false
  }

  lemma RawOpsAre(number: nat, raw: RawEvent, op: Op)
    ensures op in RawOps(number, raw) <==> Posts(raw, number, op)
  {
    var ops := RawOps(number, raw);
    match raw
    case BlockStored(hashes, blockSize) =>
      assert forall j :: 0 <= j < |hashes| ==> ops[j] == Op(number * SPAN + j, STORE, CacheKey(hashes[j]), blockSize);
      if op in ops {
        var j :| 0 <= j < |ops| && ops[j] == op;
      }
      if Posts(raw, number, op) {
        var j :| 0 <= j < |hashes| && op == Op(number * 1_000_000 + j, "store", "vllm:block:" + hashes[j], blockSize);
        assert ops[j] == op;
      }
    case BlockRemoved(hashes) =>
      assert forall j :: 0 <= j < |hashes| ==> ops[j] == Op(number * SPAN + j, REMOVE, CacheKey(hashes[j]), 0);
      if op in ops {
        var j :| 0 <= j < |ops| && ops[j] == op;
      }
      if Posts(raw, number, op) {
        var j :| 0 <= j < |hashes| && op == Op(number * 1_000_000 + j, "remove", "vllm:block:" + hashes[j], 0);
        assert ops[j] == op;
      }
    case _ =>
  }

  ghost predicate PostsOneOf(events: seq<RawEvent>, op: Op) {
    exists k :: 0 <= k < |events| && Posts(events[k], k + 1, op)
  }

  /** Every block and every clear has its operation, and there are no others; `OpsIndices` gives their order. */
  lemma {:induction false} OpsAre(events: seq<RawEvent>, op: Op)
    ensures op in Ops(events) <==> PostsOneOf(events, op)
  {
    hide Posts;
    hide RawOps;
    if events != [] {
      var n := |events| - 1;
      var init := events[..n];
      OpsAre(init, op);
      RawOpsAre(n + 1, events[n], op);
      if k :| 0 <= k < n && Posts(init[k], k + 1, op) {
        assert Posts(events[k], k + 1, op);
      }
      if k :| 0 <= k < |events| && Posts(events[k], k + 1, op) {
        assert k < n ==> Posts(init[k], k + 1, op);
      }
    }
  }

  lemma {:induction false} OpsNamed(events: seq<RawEvent>)
    ensures forall op :: op in Ops(events) ==>
              op.operation == CLEAR || ((op.operation == STORE || op.operation == REMOVE) && op.cacheKey != "")
  {
    if events != [] {
      OpsNamed(events[..|events| - 1]);
    }
  }

  // ---- the adapter ----

  datatype Adapter = Adapter(generation: string, last: Option<nat>, lastTimestamp: real)

  datatype Prepared = Prepared(sequence: nat, timestamp: real, generation: string, ops: seq<Op>)

  datatype Preparation = Malformed | Duplicate | Gap(expected: nat, received: nat) | Ready(prepared: Prepared)

  const SEQUENCE_LIMIT: nat := 0x1_0000_0000_0000_0000

  function RestartName(timestamp: real): string
    requires timestamp >= 0.0
  {
    "auto-" + Decimal((timestamp * 1000.0).Floor)
  }

  predicate Supported(raw: RawEvent) {
    match raw
    case BlockStored(_, blockSize) => blockSize > 0
    case Unsupported => false
    case _ => true
  }

  predicate IsRestart(a: Adapter, sequence: nat, batch: Batch) {
    a.last.Some? && sequence == 0 && batch.timestamp > a.lastTimestamp
  }

  function Prepare(a: Adapter, sequence: nat, batch: Batch): Preparation {
    if sequence >= SEQUENCE_LIMIT || batch.timestamp < 0.0 then Malformed
    else
      var restart := IsRestart(a, sequence, batch);
      if !restart && a.last.Some? && sequence <= a.last.value then Duplicate
      else if !restart && a.last.Some? && sequence != a.last.value + 1 then Gap(a.last.value + 1, sequence)
      else if exists raw :: raw in batch.events && !Supported(raw) then Malformed
      else
        var generation := if restart then RestartName(batch.timestamp) else a.generation;
        Ready(Prepared(sequence, batch.timestamp, generation, BatchOps(batch, restart)))
  }

  /** A raw event that is not one of the three kinds, or stores blocks of no size. */
  ghost predicate Unreadable(raw: RawEvent) {
    raw.Unsupported? || (raw.BlockStored? && raw.blockSize <= 0)
  }

  /**
   What becomes of a batch, told from its number, time and events: unreadable,
   a repeat, too early, or ready under the adapter's generation; number 0 with a
   later time than the last batch's is a restart, which starts with a clear.
   */
  lemma PrepareIs(a: Adapter, sequence: nat, batch: Batch)
    ensures var r := Prepare(a, sequence, batch);
            var restarted := a.last.Some? && sequence == 0 && a.lastTimestamp < batch.timestamp;
            if sequence > 0xFFFF_FFFF_FFFF_FFFF || batch.timestamp < 0.0 then r == Malformed
            else if a.last.Some? && !restarted && sequence < a.last.value + 1 then r == Duplicate
            else if a.last.Some? && !restarted && sequence > a.last.value + 1 then r == Gap(a.last.value + 1, sequence)
            else if exists raw :: raw in batch.events && Unreadable(raw) then r == Malformed
            else
              && r.Ready? && r.prepared.sequence == sequence && r.prepared.timestamp == batch.timestamp
              && (if restarted
                  then r.prepared.ops == [Op(0, "clear", "", 0)] + Ops(batch.events) &&
                       r.prepared.generation == "auto-" + Decimal((batch.timestamp * 1000.0).Floor)
                  else r.prepared.ops == Ops(batch.events) && r.prepared.generation == a.generation)
  {
    hide Ops;
    hide Decimal;
    NilUnit(Ops(batch.events));
    forall raw | raw in batch.events ensures Supported(raw) <==> !Unreadable(raw) {
    }
  }

  function Committed(a: Adapter, p: Prepared): Adapter {
    Adapter(p.generation, Some(p.sequence), p.timestamp)
  }

  /** The instant written for a batch, in nanoseconds: nothing below the millisecond is written. */
  function LastMillisecond(seconds: real): int {
    (seconds * 1000.0).Floor * 1_000_000
  }

  /** It is the only whole millisecond at most that old. */
  lemma LastMillisecondIff(seconds: real, instant: int)
    ensures instant == LastMillisecond(seconds) <==>
            instant % 1_000_000 == 0 &&
            instant as real <= seconds * 1_000_000_000.0 < (instant + 1_000_000) as real
  {
    var whole := (seconds * 1000.0).Floor;
    if instant % 1_000_000 == 0 {
      var q := instant / 1_000_000;
      assert instant == q * 1_000_000;
      assert q == whole <==> q as real <= seconds * 1000.0 < (q + 1) as real;
    }
  }

  /** What is posted for one operation; times are in nanoseconds. */
  function EventOf(backendId: string, p: Prepared, op: Op): KvEvent {
    KvEvent(op.operation, backendId, op.cacheKey, op.tokens, op.tokens, p.sequence, true, p.generation,
            EventId(p.generation, p.sequence, op.index), Some(LastMillisecond(p.timestamp)), Fresh)
  }

  /** The checkpoint file: replaced as a whole, or not at all. */
  class Checkpoint {
    var saved: Option<(string, string, Adapter)>

    constructor ()
      ensures saved.None?
    {
      saved := None;
    }
  }

  class VllmEventAdapter {
    const backendId: string
    const configuredGeneration: string
    const checkpoint: Checkpoint
    var generation: string
    var lastSequence: Option<nat>
    var lastTimestamp: real

    function View(): Adapter
      reads this
    {
      Adapter(generation, lastSequence, lastTimestamp)
    }

    /** A checkpoint of another backend or configured generation is not taken over. */
    constructor (backendId: string, configuredGeneration: string, checkpoint: Checkpoint)
      requires backendId != "" && configuredGeneration != ""
      ensures this.backendId == backendId && this.configuredGeneration == configuredGeneration
      ensures this.checkpoint == checkpoint
      ensures View() == match checkpoint.saved
                        case Some((id, configured, adapter)) =>
                          if id == backendId && configured == configuredGeneration then adapter
                          else Adapter(configuredGeneration, None, 0.0)
                        case None => Adapter(configuredGeneration, None, 0.0)
    {
      this.backendId, this.configuredGeneration, this.checkpoint := backendId, configuredGeneration, checkpoint;
      generation, lastSequence, lastTimestamp := configuredGeneration, None, 0.0;
      match checkpoint.saved {
        case Some((id, configured, adapter)) =>
          if id == backendId && configured == configuredGeneration {
            generation, lastSequence, lastTimestamp := adapter.generation, adapter.last, adapter.lastTimestamp;
          }
        case None =>
      }
    }

    method PrepareBatch(sequence: nat, batch: Batch) returns (r: Preparation)
      ensures r == Prepare(View(), sequence, batch)
    {
      if sequence >= SEQUENCE_LIMIT || batch.timestamp < 0.0 {
        return Malformed;
      }
      var target := generation;
      var restart := lastSequence.Some? && sequence == 0 && batch.timestamp > lastTimestamp;
      if restart {
        target := RestartName(batch.timestamp);
      } else if lastSequence.Some? {
        if sequence <= lastSequence.value {
          return Duplicate;
        }
        if sequence != lastSequence.value + 1 {
          return Gap(lastSequence.value + 1, sequence);
        }
      }
      var ops: seq<Op> := [];
      if restart {
        ops := [Op(0, CLEAR, "", 0)];
      }
      hide Ops;
      hide RawOps;
      ghost var head := ops;
      NilUnit(head);
      NoOps(batch.events);
      for k := 0 to |batch.events|
        invariant ops == head + Ops(batch.events[..k])
        invariant forall i :: 0 <= i < k ==> Supported(batch.events[i])
      {
        var raw := batch.events[k];
        if !Supported(raw) {
          assert raw in batch.events;
          return Malformed;
        }
        OpsStep(batch.events, k);
        Assoc(head, Ops(batch.events[..k]), RawOps(k + 1, raw));
        var next := NumberRaw(k + 1, raw);
        ops := ops + next;
      }
      assert batch.events[..|batch.events|] == batch.events;
      r := Ready(Prepared(sequence, batch.timestamp, target, ops));
    }

    method NumberRaw(number: nat, raw: RawEvent) returns (ops: seq<Op>)
      requires Supported(raw)
      ensures ops == RawOps(number, raw)
    {
      match raw {
        case BlockStored(hashes, blockSize) => ops := NumberHashes(number, STORE, hashes, blockSize);
        case BlockRemoved(hashes) => ops := NumberHashes(number, REMOVE, hashes, 0);
        case AllBlocksCleared => ops := [Op(number * SPAN, CLEAR, "", 0)];
      }
    }

    method NumberHashes(number: nat, operation: string, hashes: seq<string>, tokens: int) returns (ops: seq<Op>)
      ensures ops == HashOps(number, operation, hashes, tokens)
    {
      ops := [];
      for j := 0 to |hashes|
        invariant |ops| == j
        invariant forall i :: 0 <= i < j ==> ops[i] == Op(number * SPAN + i, operation, CacheKey(hashes[i]), tokens)
      {
        ops := ops + [Op(number * SPAN + j, operation, CacheKey(hashes[j]), tokens)];
      }
    }

    method Commit(p: Prepared)
      modifies this, checkpoint
      ensures View() == Committed(old(View()), p)
      ensures checkpoint.saved == Some((backendId, configuredGeneration, View()))
    {
      generation, lastSequence, lastTimestamp := p.generation, Some(p.sequence), p.timestamp;
      checkpoint.saved := Some((backendId, configuredGeneration, Adapter(generation, lastSequence, lastTimestamp)));
    }
  }
}
