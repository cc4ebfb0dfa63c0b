/**
 The subscriber that drives the pipeline: it prepares a batch, posts its events
 one by one and only then commits, and it closes gaps from a replay buffer.
 */
module KvSubscriber {
  import opened Common
  import opened Recency
  import opened KvEventIndex
  import opened KvEventAdapter
  import opened KvPipeline

  /** The gateway's index after the first `n` events of a batch. */
  function AfterPosts(max: nat, x: Index, b: string, p: Prepared, n: nat, now: int): Index
    requires n <= |p.ops|
  {
    if n == 0 then x else Observed(max, AfterPosts(max, x, b, p, n - 1, now), EventOf(b, p, p.ops[n - 1]), now)
  }

  /** The machine after `n` posts in a row. */
  function PostedTimes(b: string, max: nat, s: System, n: nat, now: int): (t: System)
    requires s.partial.Some? && s.inflight == Some(0) && n <= |s.partial.value.prepared.ops|
    ensures t.partial.Some? && t.inflight == Some(n)
    ensures t.partial.value.batch == s.partial.value.batch && t.partial.value.prepared == s.partial.value.prepared
    ensures t.adapter == s.adapter && t.checkpoint == s.checkpoint
    ensures t.index == AfterPosts(max, s.index, b, s.partial.value.prepared, n, now)
  {
    if n == 0 then s else Posted(b, max, PostedTimes(b, max, s, n - 1, now), now)
  }

  lemma {:induction false} PostsKeepLog(b: string, max: nat, s: System, n: nat, now: int)
    requires s.partial.Some? && s.inflight == Some(0) && n <= |s.partial.value.prepared.ops|
    ensures var t := PostedTimes(b, max, s, n, now);
            t.partial.Some? && t.log == s.log && t.partial.value.live == s.partial.value.live
  {
    hide AfterPosts;
    hide Observed;
    if n > 0 {
      PostsKeepLog(b, max, s, n - 1, now);
    }
  }

  /** How many of `n` posts go through when the one numbered `fail` does not. */
  function Reaching(fail: Option<nat>, n: nat): nat {
    if fail.Some? && fail.value < n then fail.value else n
  }

  // ---- a delivery is a stretch of the machine's run ----

  function Posts(n: nat, now: int): seq<Step> {
    seq(n, _ => Post(now))
  }

  /** Received, posted `n` times, and then committed or given up. */
  function DeliverySteps(sequence: nat, n: nat, committed: bool, now: int): seq<Step> {
    [Receive(sequence)] + Posts(n, now) + [if committed then Commit else Crash]
  }

  lemma CanRunInit(b: string, max: nat, rules: Rules, generation: string, steps: seq<Step>, step: Step)
    requires CanRun(b, max, rules, generation, steps + [step])
    ensures CanRun(b, max, rules, generation, steps)
    ensures var s := Run(b, max, rules, generation, steps);
            Enabled(b, max, rules, s, step) &&
            Run(b, max, rules, generation, steps + [step]) == Do(b, max, rules, s, step)
  {
    hide Enabled;
    hide Do;
    SnocInit(steps, step);
  }

  lemma {:induction false} PostsAreRun(
    b: string, max: nat, rules: Rules, generation: string, steps: seq<Step>, n: nat, now: int)
    requires CanRun(b, max, rules, generation, steps + Posts(n, now)) && CanRun(b, max, rules, generation, steps)
    requires var s := Run(b, max, rules, generation, steps);
             s.partial.Some? && s.inflight == Some(0) && n <= |s.partial.value.prepared.ops|
    ensures Run(b, max, rules, generation, steps + Posts(n, now)) ==
            PostedTimes(b, max, Run(b, max, rules, generation, steps), n, now)
  {
    hide CanRun;
    hide Run;
    hide Roomy;
    hide AfterPosts;
    hide Posted;
    if n == 0 {
      NilUnit(steps);
    } else {
      assert steps + Posts(n, now) == (steps + Posts(n - 1, now)) + [Post(now)];
      CanRunInit(b, max, rules, generation, steps + Posts(n - 1, now), Post(now));
      PostsAreRun(b, max, rules, generation, steps, n - 1, now);
    }
  }

  lemma {:induction false} CanRunPrefix(b: string, max: nat, rules: Rules, generation: string, steps: seq<Step>, more: seq<Step>)
    requires CanRun(b, max, rules, generation, steps + more)
    ensures CanRun(b, max, rules, generation, steps)
    decreases |more|
  {
    hide CanRun;
    hide Run;
    hide Enabled;
    hide Do;
    if more == [] {
      NilUnit(steps);
    } else {
      var n := |more| - 1;
      assert steps + more == (steps + more[..n]) + [more[n]];
      CanRunInit(b, max, rules, generation, steps + more[..n], more[n]);
      CanRunPrefix(b, max, rules, generation, steps, more[..n]);
    }
  }

  /**
   What the delivery loop does is a stretch of the machine's run: wherever the
   run stands, receiving a batch, posting its events until one fails and then
   committing or giving up leaves the index and the adapter as the loop does.
   */
  lemma DeliveryIsRun(
    b: string, max: nat, rules: Rules, generation: string, steps: seq<Step>, sequence: nat, fail: Option<nat>, now: int)
    requires Safe(rules, max) && b != "" && NUL[0] !in b && generation != ""
    requires CanRun(b, max, rules, generation, steps)
    requires var s := Run(b, max, rules, generation, steps);
             sequence < |s.log| && Prepare(s.adapter, sequence, s.log[sequence]).Ready? &&
             var p := Prepare(s.adapter, sequence, s.log[sequence]).prepared;
             var n := Reaching(fail, |p.ops|);
             CanRun(b, max, rules, generation, steps + DeliverySteps(sequence, n, n == |p.ops|, now))
    ensures var s := Run(b, max, rules, generation, steps);
            var p := Prepare(s.adapter, sequence, s.log[sequence]).prepared;
            var n := Reaching(fail, |p.ops|);
            var t := Run(b, max, rules, generation, steps + DeliverySteps(sequence, n, n == |p.ops|, now));
            && t.index == AfterPosts(max, s.index, b, p, n, now) && t.inflight.None?
            && t.adapter == t.checkpoint == (if n == |p.ops| then KvEventAdapter.Committed(s.adapter, p) else s.adapter)
            && t.log == s.log && (n == |p.ops| ==> t.partial.None? && t.adopted)
  {
    hide Prepare;
    hide CanRun;
    hide Run;
    hide Invariant;
    hide AfterPosts;
    hide PostedTimes;
    hide Roomy;
    hide NewName;
    var s := Run(b, max, rules, generation, steps);
    var p := Prepare(s.adapter, sequence, s.log[sequence]).prepared;
    var n := Reaching(fail, |p.ops|);
    var begun := steps + [Receive(sequence)];
    var posted := begun + Posts(n, now);
    var last := if n == |p.ops| then Commit else Crash;
    assert steps + DeliverySteps(sequence, n, n == |p.ops|, now) == posted + [last];
    CanRunInit(b, max, rules, generation, posted, last);
    CanRunPrefix(b, max, rules, generation, begun, Posts(n, now));
    CanRunInit(b, max, rules, generation, steps, Receive(sequence));
    RunInvariant(b, max, rules, generation, steps);
    ReceivedIs(b, max, rules, s, sequence);
    PostsAreRun(b, max, rules, generation, begun, n, now);
    PostsKeepLog(b, max, Received(s, sequence), n, now);
  }

  /** Whether begun before or not, what is received is the batch as prepared, nothing of it posted yet this time. */
  lemma ReceivedIs(b: string, max: nat, rules: Rules, s: System, q: nat)
    requires Safe(rules, max)
    requires Invariant(b, max, s) && Enabled(b, max, rules, s, Receive(q)) && Prepare(s.adapter, q, s.log[q]).Ready?
    ensures var t := Received(s, q);
            && t.partial.Some? && t.partial.value.prepared == Prepare(s.adapter, q, s.log[q]).prepared
            && t.inflight == Some(0) && t.index == s.index && t.adapter == s.adapter == t.checkpoint
            && t.log == s.log && t.partial.value.live
  {
    hide Prepare;
    hide InOrder;
    hide PartialShape;
    if s.partial.Some? && s.partial.value.live {
      RedeliveredIsSame(b, max, rules, s, q);
    }
  }

  class VllmSubscriber {
    const adapter: VllmEventAdapter
    const gateway: KvEventProvider

    constructor (adapter: VllmEventAdapter, gateway: KvEventProvider)
      ensures this.adapter == adapter && this.gateway == gateway
    {
      this.adapter, this.gateway := adapter, gateway;
    }

    /** A post that fails, or a crash there, ends the delivery uncommitted. */
    method Deliver(sequence: nat, batch: Batch, fail: Option<nat>, now: int) returns (r: Preparation, done: bool)
      requires gateway.Valid()
      modifies adapter, adapter.checkpoint, gateway
      ensures gateway.Valid()
      ensures r == Prepare(old(adapter.View()), sequence, batch)
      ensures done == Done(r, fail)
      ensures gateway.View() == IndexAfter(gateway.max, old(gateway.View()), adapter.backendId, r, fail, now)
      ensures adapter.View() == After(old(adapter.View()), r, fail)
      ensures adapter.checkpoint.saved ==
              if r.Ready? && done then Some((adapter.backendId, adapter.configuredGeneration, adapter.View()))
              else old(adapter.checkpoint.saved)
    {
      hide Observed;
      hide Prepare;
      r := adapter.PrepareBatch(sequence, batch);
      if !r.Ready? {
        return r, r.Duplicate?;
      }
      var p := r.prepared;
      for k := 0 to |p.ops|
        invariant gateway.Valid() && k <= Reaching(fail, |p.ops|)
        invariant gateway.View() == AfterPosts(gateway.max, old(gateway.View()), adapter.backendId, p, k, now)
        invariant adapter.View() == old(adapter.View()) && adapter.checkpoint.saved == old(adapter.checkpoint.saved)
      {
        if fail == Some(k) {
          return r, false;
        }
        gateway.Observe(EventOf(adapter.backendId, p, p.ops[k]), now);
      }
      adapter.Commit(p);
      done := true;
    }

    /**
     The replay buffer holds `buffer` from sequence `first` on; an older start is
     lost. The delivery of its batch number `fail.value.0` breaks off at an event.
     */
    method Replay(start: nat, first: nat, buffer: seq<Batch>, fail: Option<(nat, nat)>, now: int) returns (ok: bool)
      requires gateway.Valid()
      modifies adapter, adapter.checkpoint, gateway
      ensures gateway.Valid()
      ensures ok <==> buffer == [] || (first <= start && AllDone(old(adapter.View()), first, buffer, fail))
      ensures ok ==>
                adapter.View() == Replayed(old(adapter.View()), first, buffer) &&
                gateway.View() ==
                ReplayedIndex(gateway.max, old(gateway.View()), adapter.backendId, old(adapter.View()), first, buffer, now)
      ensures !ok && first > start ==> adapter.View() == old(adapter.View()) && gateway.View() == old(gateway.View())
      ensures !ok && first <= start ==>
                exists k ::
                  && 0 <= k < |buffer| && FirstBroken(old(adapter.View()), first, buffer, fail, k)
                  && adapter.View() == Replayed(old(adapter.View()), first, buffer[..k])
                  && gateway.View() ==
                     BrokenIndex(gateway.max, old(gateway.View()), adapter.backendId, old(adapter.View()), first, buffer,
                                 fail, now, k)
      ensures fail.None? ==> (AllDone(old(adapter.View()), first, buffer, fail) <==> Accepted(old(adapter.View()), first, buffer))
    {
      hide Prepare;
      hide Accepted;
      hide Replayed;
      hide ReplayedIndex;
      hide AfterPosts;
      ghost var a, x, b := adapter.View(), gateway.View(), adapter.backendId;
      if fail.None? {
        AllDoneIsAccepted(a, first, buffer);
      }
      NothingReplayed(gateway.max, x, b, a, first, buffer, now);
      for k := 0 to |buffer|
        invariant gateway.Valid() && (k > 0 ==> first <= start)
        invariant adapter.View() == Replayed(a, first, buffer[..k])
        invariant forall j :: 0 <= j < k ==> Done(PreparedAt(a, first, buffer, j), FailingAt(fail, j))
        invariant gateway.View() == ReplayedIndex(gateway.max, x, b, a, first, buffer[..k], now)
      {
        if k == 0 && first > start {
          assert buffer[..0] == [];
          return false;
        }
        ReplayStep(gateway.max, x, b, a, first, buffer, k, now);
        var r, done := Deliver(first + k, buffer[k], FailingAt(fail, k), now);
        assert r == PreparedAt(a, first, buffer, k);
        if !done {
          assert FirstBroken(a, first, buffer, fail, k);
          assert gateway.View() == BrokenIndex(gateway.max, x, b, a, first, buffer, fail, now, k);
          return false;
        }
      }
      assert buffer[..|buffer|] == buffer;
      ok := true;
    }

    /** One turn of the subscriber: a gap is closed from the replay buffer, then the batch is delivered again. */
    method Follow(sequence: nat, batch: Batch, first: nat, buffer: seq<Batch>, fails: Failures, now: int)
      returns (r: Preparation, done: bool)
      requires gateway.Valid()
      modifies adapter, adapter.checkpoint, gateway
      ensures gateway.Valid()
      ensures var a, b := old(adapter.View()), adapter.backendId;
              var x := old(gateway.View());
              var r0 := Prepare(a, sequence, batch);
              if !r0.Gap? then
                && r == r0 && done == Done(r, fails.before) && adapter.View() == After(a, r, fails.before)
                && gateway.View() == IndexAfter(gateway.max, x, b, r, fails.before, now)
              else if buffer == [] || (first <= r0.expected && AllDone(a, first, buffer, fails.replay)) then
                var a1 := Replayed(a, first, buffer);
                && r == Prepare(a1, sequence, batch) && done == Done(r, fails.again)
                && adapter.View() == After(a1, r, fails.again)
                && gateway.View() == IndexAfter(gateway.max, ReplayedIndex(gateway.max, x, b, a, first, buffer, now), b, r,
                                                fails.again, now)
              else if first > r0.expected then
                r == r0 && !done && adapter.View() == a && gateway.View() == x
              else
                && r == r0 && !done
                && exists k ::
                     && 0 <= k < |buffer| && FirstBroken(a, first, buffer, fails.replay, k)
                     && adapter.View() == Replayed(a, first, buffer[..k])
                     && gateway.View() == BrokenIndex(gateway.max, x, b, a, first, buffer, fails.replay, now, k)
    {
      hide Prepare;
      hide Replayed;
      hide ReplayedIndex;
      hide AfterPosts;
      hide BrokenIndex;
      hide FirstBroken;
      hide AllDone;
      r, done := Deliver(sequence, batch, fails.before, now);
      if r.Gap? {
        var ok := Replay(r.expected, first, buffer, fails.replay, now);
        if !ok {
          return r, false;
        }
        r, done := Deliver(sequence, batch, fails.again, now);
      }
    }
  }

  /** Where the posts of one turn fail: in the first delivery, at a place of the replay, in the second delivery. */
  datatype Failures = Failures(before: Option<nat>, replay: Option<(nat, nat)>, again: Option<nat>)

  /** Nothing is left to do: a repeat, or a batch whose posts all went through. */
  predicate Done(r: Preparation, fail: Option<nat>) {
    r.Duplicate? || (r.Ready? && Reaching(fail, |r.prepared.ops|) == |r.prepared.ops|)
  }

  function After(a: Adapter, r: Preparation, fail: Option<nat>): Adapter {
    if r.Ready? && Done(r, fail) then Committed(a, r.prepared) else a
  }

  function IndexAfter(max: nat, x: Index, b: string, r: Preparation, fail: Option<nat>, now: int): Index {
    if r.Ready? then AfterPosts(max, x, b, r.prepared, Reaching(fail, |r.prepared.ops|), now) else x
  }

  /** The adapter after the batches from sequence `first` on. */
  function Replayed(a: Adapter, first: nat, buffer: seq<Batch>): Adapter {
    if buffer == [] then a
    else
      var n := |buffer| - 1;
      var before := Replayed(a, first, buffer[..n]);
      After(before, Prepare(before, first + n, buffer[n]), None)
  }

  /** The gateway's index after them. */
  function ReplayedIndex(max: nat, x: Index, b: string, a: Adapter, first: nat, buffer: seq<Batch>, now: int): Index {
    if buffer == [] then x
    else
      var n := |buffer| - 1;
      IndexAfter(max, ReplayedIndex(max, x, b, a, first, buffer[..n], now), b,
                 Prepare(Replayed(a, first, buffer[..n]), first + n, buffer[n]), None, now)
  }

  /** What batch number `k` of the buffer is prepared to, after the ones before it. */
  function PreparedAt(a: Adapter, first: nat, buffer: seq<Batch>, k: nat): Preparation
    requires k < |buffer|
  {
    Prepare(Replayed(a, first, buffer[..k]), first + k, buffer[k])
  }

  function FailingAt(fail: Option<(nat, nat)>, k: nat): Option<nat> {
    if fail.Some? && fail.value.0 == k then Some(fail.value.1) else None
  }

  ghost predicate AllDone(a: Adapter, first: nat, buffer: seq<Batch>, fail: Option<(nat, nat)>) {
    forall k :: 0 <= k < |buffer| ==> Done(PreparedAt(a, first, buffer, k), FailingAt(fail, k))
  }

  /** The first batch of the buffer that is refused or whose posts fail. */
  ghost predicate FirstBroken(a: Adapter, first: nat, buffer: seq<Batch>, fail: Option<(nat, nat)>, k: nat)
    requires k < |buffer|
  {
    !Done(PreparedAt(a, first, buffer, k), FailingAt(fail, k)) &&
    forall j :: 0 <= j < k ==> Done(PreparedAt(a, first, buffer, j), FailingAt(fail, j))
  }

  /** The index with the batches before number `k`, and of that one the events before the failing one. */
  function BrokenIndex(max: nat, x: Index, b: string, a: Adapter, first: nat, buffer: seq<Batch>,
                       fail: Option<(nat, nat)>, now: int, k: nat): Index
    requires k < |buffer|
  {
    IndexAfter(max, ReplayedIndex(max, x, b, a, first, buffer[..k], now), b, PreparedAt(a, first, buffer, k),
               FailingAt(fail, k), now)
  }

  /** None of the batches is refused. */
  predicate Accepted(a: Adapter, first: nat, buffer: seq<Batch>) {
    buffer == [] ||
    (var n := |buffer| - 1;
     var r := Prepare(Replayed(a, first, buffer[..n]), first + n, buffer[n]);
     Accepted(a, first, buffer[..n]) && (r.Ready? || r.Duplicate?))
  }

  lemma {:induction false} AcceptedPrefix(a: Adapter, first: nat, buffer: seq<Batch>, k: nat)
    requires k <= |buffer| && Accepted(a, first, buffer)
    ensures Accepted(a, first, buffer[..k])
    decreases |buffer|
  {
    if k == |buffer| {
      assert buffer[..k] == buffer;
    } else {
      var n := |buffer| - 1;
      AcceptedPrefix(a, first, buffer[..n], k);
      assert buffer[..n][..k] == buffer[..k];
    }
  }

  lemma NothingReplayed(max: nat, x: Index, b: string, a: Adapter, first: nat, buffer: seq<Batch>, now: int)
    ensures Replayed(a, first, buffer[..0]) == a && ReplayedIndex(max, x, b, a, first, buffer[..0], now) == x
  {
  }

  lemma ReplayStep(max: nat, x: Index, b: string, a: Adapter, first: nat, buffer: seq<Batch>, k: nat, now: int)
    requires k < |buffer|
    ensures var before := Replayed(a, first, buffer[..k]);
            var r := PreparedAt(a, first, buffer, k);
            && Replayed(a, first, buffer[..k + 1]) == After(before, r, None)
            && ReplayedIndex(max, x, b, a, first, buffer[..k + 1], now) ==
               IndexAfter(max, ReplayedIndex(max, x, b, a, first, buffer[..k], now), b, r, None, now)
  {
    hide Prepare;
    assert buffer[..k + 1][..k] == buffer[..k];
  }

  /** Where no post fails, a batch is done unless it is refused. */
  lemma {:induction false} AllDoneIsAccepted(a: Adapter, first: nat, buffer: seq<Batch>)
    ensures AllDone(a, first, buffer, None) <==> Accepted(a, first, buffer)
  {
    hide Prepare;
    if buffer != [] {
      var n := |buffer| - 1;
      var init := buffer[..n];
      AllDoneIsAccepted(a, first, init);
      forall k | 0 <= k < n ensures PreparedAt(a, first, init, k) == PreparedAt(a, first, buffer, k) {
        assert init[..k] == buffer[..k];
      }
      var r := PreparedAt(a, first, buffer, n);
      assert Done(r, None) <==> r.Ready? || r.Duplicate?;
      if AllDone(a, first, buffer, None) {
        forall k | 0 <= k < n ensures Done(PreparedAt(a, first, init, k), FailingAt(None, k)) {
          assert PreparedAt(a, first, init, k) == PreparedAt(a, first, buffer, k);
        }
      }
    }
  }

  /**
   A replay that reaches back to the next expected batch closes every gap: no
   batch of it is refused, each is either new or a repeat, and afterwards the
   adapter stands at the end of the buffer, still in the same generation.
   */
  lemma {:induction false} ReplayClosesGap(a: Adapter, first: nat, buffer: seq<Batch>)
    requires a.last.Some? && first <= a.last.value + 1 && first + |buffer| <= SEQUENCE_LIMIT
    requires forall i, raw :: 0 <= i < |buffer| && raw in buffer[i].events ==> Supported(raw)
    requires forall i :: 0 <= i < |buffer| ==> buffer[i].timestamp >= 0.0
    requires first == 0 && buffer != [] ==> buffer[0].timestamp <= a.lastTimestamp
    ensures Accepted(a, first, buffer)
    ensures var end := Replayed(a, first, buffer);
            && end.generation == a.generation && end.last.Some?
            && end.last.value == if first + |buffer| <= a.last.value + 1 then a.last.value else first + |buffer| - 1
  {
    if buffer != [] {
      var n := |buffer| - 1;
      ReplayClosesGap(a, first, buffer[..n]);
      var before := Replayed(a, first, buffer[..n]);
      assert n > 0 ==> buffer[..n][0] == buffer[0];
      assert forall raw :: raw in buffer[n].events ==> Supported(raw);
    }
  }

  /**
   After the replay for a gap the batch that came too early is delivered or a
   repeat, if and only if the buffer reached up to it; else the gap stays.
   */
  lemma {:induction false} GapIsClosedIff(a: Adapter, sequence: nat, batch: Batch, first: nat, buffer: seq<Batch>)
    requires Prepare(a, sequence, batch).Gap? && first <= Prepare(a, sequence, batch).expected
    requires first + |buffer| <= SEQUENCE_LIMIT
    requires forall i, raw :: 0 <= i < |buffer| && raw in buffer[i].events ==> Supported(raw)
    requires forall i :: 0 <= i < |buffer| ==> buffer[i].timestamp >= 0.0
    requires first == 0 && buffer != [] ==> buffer[0].timestamp <= a.lastTimestamp
    requires forall raw :: raw in batch.events ==> Supported(raw)
    ensures Accepted(a, first, buffer)
    ensures var r := Prepare(Replayed(a, first, buffer), sequence, batch);
            && (r.Ready? || r.Duplicate? <==> first + |buffer| >= sequence)
            && (r.Ready? <==> first + |buffer| == sequence)
            && (r.Gap? <==> first + |buffer| < sequence)
  {
    hide Accepted;
    hide Replayed;
    ReplayClosesGap(a, first, buffer);
  }

  // ---- a turn of the subscriber is a stretch of the machine's run ----

  function DeliveredSteps(r: Preparation, sequence: nat, fail: Option<nat>, now: int): seq<Step> {
    if r.Ready? then
      var n := Reaching(fail, |r.prepared.ops|);
      DeliverySteps(sequence, n, n == |r.prepared.ops|, now)
    else []
  }

  function ReplaySteps(a: Adapter, first: nat, buffer: seq<Batch>, now: int): seq<Step> {
    if buffer == [] then []
    else
      var n := |buffer| - 1;
      ReplaySteps(a, first, buffer[..n], now) +
      DeliveredSteps(Prepare(Replayed(a, first, buffer[..n]), first + n, buffer[n]), first + n, None, now)
  }

  function FollowSteps(a: Adapter, sequence: nat, batch: Batch, first: nat, buffer: seq<Batch>, fails: Failures, now: int): seq<Step> {
    var r := Prepare(a, sequence, batch);
    if r.Gap? then
      ReplaySteps(a, first, buffer, now) +
      DeliveredSteps(Prepare(Replayed(a, first, buffer), sequence, batch), sequence, fails.again, now)
    else DeliveredSteps(r, sequence, fails.before, now)
  }

  /** The buffer is a stretch of the engine's log. */
  ghost predicate OfLog(log: seq<Batch>, first: nat, buffer: seq<Batch>) {
    first + |buffer| <= |log| && buffer == log[first..first + |buffer|]
  }

  lemma DeliveredIsRun(
    b: string, max: nat, rules: Rules, generation: string, steps: seq<Step>, sequence: nat, fail: Option<nat>, now: int)
    requires Safe(rules, max) && b != "" && NUL[0] !in b && generation != ""
    requires CanRun(b, max, rules, generation, steps)
    requires var s := Run(b, max, rules, generation, steps);
             s.inflight.None? && sequence < |s.log| &&
             CanRun(b, max, rules, generation,
                    steps + DeliveredSteps(Prepare(s.adapter, sequence, s.log[sequence]), sequence, fail, now))
    ensures var s := Run(b, max, rules, generation, steps);
            var r := Prepare(s.adapter, sequence, s.log[sequence]);
            var t := Run(b, max, rules, generation, steps + DeliveredSteps(r, sequence, fail, now));
            && t.index == IndexAfter(max, s.index, b, r, fail, now) && t.adapter == After(s.adapter, r, fail)
            && t.log == s.log && t.inflight.None? && (r.Ready? && Done(r, fail) ==> t.partial.None? && t.adopted)
  {
    hide Prepare;
    hide CanRun;
    hide Run;
    hide AfterPosts;
    hide DeliverySteps;
    var s := Run(b, max, rules, generation, steps);
    if Prepare(s.adapter, sequence, s.log[sequence]).Ready? {
      DeliveryIsRun(b, max, rules, generation, steps, sequence, fail, now);
    } else {
      NilUnit(steps);
    }
  }

  lemma {:induction false} ReplayIsRun(
    b: string, max: nat, rules: Rules, generation: string, steps: seq<Step>, first: nat, buffer: seq<Batch>, now: int)
    requires Safe(rules, max) && b != "" && NUL[0] !in b && generation != ""
    requires CanRun(b, max, rules, generation, steps)
    requires var s := Run(b, max, rules, generation, steps);
             s.inflight.None? && OfLog(s.log, first, buffer) &&
             CanRun(b, max, rules, generation, steps + ReplaySteps(s.adapter, first, buffer, now))
    ensures var s := Run(b, max, rules, generation, steps);
            var t := Run(b, max, rules, generation, steps + ReplaySteps(s.adapter, first, buffer, now));
            && t.index == ReplayedIndex(max, s.index, b, s.adapter, first, buffer, now)
            && t.adapter == Replayed(s.adapter, first, buffer) && t.log == s.log && t.inflight.None?
    decreases |buffer|
  {
    hide Prepare;
    hide CanRun;
    hide Run;
    hide DeliveredSteps;
    hide IndexAfter;
    hide After;
    var s := Run(b, max, rules, generation, steps);
    if buffer == [] {
      NilUnit(steps);
    } else {
      var n := |buffer| - 1;
      var init := buffer[..n];
      var before := ReplaySteps(s.adapter, first, init, now);
      var last := DeliveredSteps(Prepare(Replayed(s.adapter, first, init), first + n, buffer[n]), first + n, None, now);
      Assoc(steps, before, last);
      CanRunPrefix(b, max, rules, generation, steps + before, last);
      assert init == s.log[first..first + n];
      ReplayIsRun(b, max, rules, generation, steps, first, init, now);
      DeliveredIsRun(b, max, rules, generation, steps + before, first + n, None, now);
    }
  }

  /** One turn leaves the machine where it leaves adapter and index. */
  lemma FollowIsRun(
    b: string, max: nat, rules: Rules, generation: string, steps: seq<Step>, sequence: nat, first: nat, buffer: seq<Batch>,
    fails: Failures, now: int)
    requires Safe(rules, max) && b != "" && NUL[0] !in b && generation != ""
    requires CanRun(b, max, rules, generation, steps)
    requires var s := Run(b, max, rules, generation, steps);
             s.inflight.None? && sequence < |s.log| && OfLog(s.log, first, buffer) &&
             CanRun(b, max, rules, generation,
                    steps + FollowSteps(s.adapter, sequence, s.log[sequence], first, buffer, fails, now))
    ensures var s := Run(b, max, rules, generation, steps);
            var batch := s.log[sequence];
            var t := Run(b, max, rules, generation, steps + FollowSteps(s.adapter, sequence, batch, first, buffer, fails, now));
            var r0 := Prepare(s.adapter, sequence, batch);
            && t.log == s.log && t.inflight.None?
            && if r0.Gap? then
                 var a := Replayed(s.adapter, first, buffer);
                 var r := Prepare(a, sequence, batch);
                 && t.adapter == After(a, r, fails.again)
                 && t.index == IndexAfter(max, ReplayedIndex(max, s.index, b, s.adapter, first, buffer, now), b, r, fails.again, now)
                 && (r.Ready? && Done(r, fails.again) ==> t.partial.None? && t.adopted)
               else
                 && t.adapter == After(s.adapter, r0, fails.before)
                 && t.index == IndexAfter(max, s.index, b, r0, fails.before, now)
                 && (r0.Ready? && Done(r0, fails.before) ==> t.partial.None? && t.adopted)
  {
    hide Prepare;
    hide CanRun;
    hide Run;
    hide DeliveredSteps;
    hide ReplaySteps;
    hide Replayed;
    hide ReplayedIndex;
    hide IndexAfter;
    hide After;
    hide OfLog;
    var s := Run(b, max, rules, generation, steps);
    var batch := s.log[sequence];
    if Prepare(s.adapter, sequence, batch).Gap? {
      var replay := ReplaySteps(s.adapter, first, buffer, now);
      var last := DeliveredSteps(Prepare(Replayed(s.adapter, first, buffer), sequence, batch), sequence, fails.again, now);
      Assoc(steps, replay, last);
      CanRunPrefix(b, max, rules, generation, steps + replay, last);
      ReplayIsRun(b, max, rules, generation, steps, first, buffer, now);
      DeliveredIsRun(b, max, rules, generation, steps + replay, sequence, fails.again, now);
    } else {
      DeliveredIsRun(b, max, rules, generation, steps, sequence, fails.before, now);
    }
  }

  /**
   The chain closed: from any reachable state, after a turn for `sequence` that
   delivered it, gap or not, the index holds for this backend exactly what the
   engine's log up to that batch leaves in its cache; and where the turn found a
   repeat with nothing pending, what the log up to the committed one leaves.
   */
  lemma FollowIsExact(
    b: string, max: nat, rules: Rules, generation: string, steps: seq<Step>, sequence: nat, first: nat, buffer: seq<Batch>,
    fails: Failures, now: int)
    requires Safe(rules, max) && b != "" && NUL[0] !in b && generation != ""
    requires CanRun(b, max, rules, generation, steps)
    requires var s := Run(b, max, rules, generation, steps);
             s.inflight.None? && sequence < |s.log| && OfLog(s.log, first, buffer) &&
             CanRun(b, max, rules, generation,
                    steps + FollowSteps(s.adapter, sequence, s.log[sequence], first, buffer, fails, now))
    ensures var s := Run(b, max, rules, generation, steps);
            var batch := s.log[sequence];
            var t := Run(b, max, rules, generation, steps + FollowSteps(s.adapter, sequence, batch, first, buffer, fails, now));
            var gap := Prepare(s.adapter, sequence, batch).Gap?;
            var r := Prepare(if gap then Replayed(s.adapter, first, buffer) else s.adapter, sequence, batch);
            Done(r, if gap then fails.again else fails.before) ==>
              && t.adapter.last.Some? && sequence <= t.adapter.last.value
              && (r.Ready? ==> t.adapter.last.value == sequence && sequence < |s.log|
                               && Mirrors(t.index.items, b, EngineCache(s.log[..sequence + 1])))
              && (r.Duplicate? && t.partial.None? && t.adopted ==>
                    t.adapter.last.value < |s.log| && Mirrors(t.index.items, b, EngineCache(s.log[..t.adapter.last.value + 1])))
  {
    hide CanRun;
    hide Run;
    hide FollowSteps;
    hide Replayed;
    hide ReplayedIndex;
    hide IndexAfter;
    hide OfLog;
    hide Mirrors;
    hide EngineCache;
    hide BatchOps;
    var s := Run(b, max, rules, generation, steps);
    var more := FollowSteps(s.adapter, sequence, s.log[sequence], first, buffer, fails, now);
    FollowIsRun(b, max, rules, generation, steps, sequence, first, buffer, fails, now);
    ExactlyOnce(b, max, rules, generation, steps + more);
  }
}
