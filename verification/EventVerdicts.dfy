/**
 What an inspected stream may contain, told event by event without the
 inspector: which events offend, with which code, and what the rest adds up to.
 */
module EventVerdicts {
  import opened Common
  import opened SseEvents
  import opened StreamInspection

  /** The event carries data of its own, not the done mark. */
  predicate HasData(event: seq<Byte>) {
    EventData(event) != [] && EventData(event) != DONE
  }

  predicate Mark(event: seq<Byte>) {
    EventData(event) == DONE
  }

  function SizeOf(policy: Policy, event: seq<Byte>): nat {
    if !HasData(event) then 0
    else match policy.scan(EventData(event)) case Clean(size) => size case _ => 0
  }

  function TotalSize(policy: Policy, events: seq<seq<Byte>>): nat {
    if events == [] then 0 else SizeOf(policy, events[0]) + TotalSize(policy, events[1..])
  }

  ghost predicate MarkedBefore(events: seq<seq<Byte>>, k: nat)
    requires k <= |events|
  {
    exists j :: 0 <= j < k && Mark(events[j])
  }

  /**
   Event number `k` offends: it is not UTF-8, it brings data after the done mark,
   its data is no JSON or nested too deep, it holds an email address or a blocked
   term, or with it the clean text exceeds the budget of four bytes a token.
   */
  ghost predicate Offends(policy: Policy, events: seq<seq<Byte>>, k: nat, code: ErrorCode)
    requires k < |events|
  {
    var event := events[k];
    var scan := policy.scan(EventData(event));
    if !policy.isUtf8(event) then code == ProtocolViolation
    else if !HasData(event) then false
    else if MarkedBefore(events, k) then code == ProtocolViolation
    else
      match code
      case ProtocolViolation => scan == NotJson || scan == TooDeep
      case PiiDetected => scan == ContainsEmail
      case ContentBlocked => scan == ContainsBlockedTerm
      case TokenBudgetExceeded =>
        scan.Clean? && policy.tokenBudget > 0 && 4 * policy.tokenBudget < AtMostU64(TotalSize(policy, events[..k + 1]))
      case RequestTooLarge => false
  }

  function AtMostU64(n: nat): nat {
    if n <= U64_MAX then n else U64_MAX
  }

  ghost predicate Offending(policy: Policy, events: seq<seq<Byte>>, k: nat)
    requires k < |events|
  {
    exists code :: Offends(policy, events, k, code)
  }

  /** No event offends. */
  ghost predicate Spotless(policy: Policy, events: seq<seq<Byte>>) {
    forall k :: 0 <= k < |events| ==> !Offending(policy, events, k)
  }

  /** The first event that offends does so with this code. */
  ghost predicate FirstOffence(policy: Policy, events: seq<seq<Byte>>, code: ErrorCode) {
    exists k :: 0 <= k < |events| && Offends(policy, events, k, code) &&
                forall j :: 0 <= j < k ==> !Offending(policy, events, j)
  }

  // ---- tokens ----

  /** A token for every four bytes begun. */
  lemma TokensAre(n: nat)
    ensures 4 * TokensOf(n) >= n && 4 * TokensOf(n) < n + 4
    ensures forall budget: nat :: TokensOf(n) > budget <==> n > 4 * budget
  {
  }

  // ---- one event ----

  /** What the inspector keeps after events none of which offended. */
  ghost predicate Keeps(policy: Policy, events: seq<seq<Byte>>, p: Progress) {
    p.semanticBytes == AtMostU64(TotalSize(policy, events)) && (p.sawDone <==> MarkedBefore(events, |events|))
  }

  lemma {:induction false} TotalSizeSnoc(policy: Policy, events: seq<seq<Byte>>, event: seq<Byte>)
    ensures TotalSize(policy, events + [event]) == TotalSize(policy, events) + SizeOf(policy, event)
  {
    hide SizeOf;
    if events == [] {
      assert [] + [event] == [event] && [event][1..] == [];
    } else {
      assert (events + [event])[1..] == events[1..] + [event];
      TotalSizeSnoc(policy, events[1..], event);
    }
  }

  lemma MarkedSnoc(events: seq<seq<Byte>>, event: seq<Byte>)
    ensures MarkedBefore(events + [event], |events|) <==> MarkedBefore(events, |events|)
    ensures MarkedBefore(events + [event], |events| + 1) <==> MarkedBefore(events, |events|) || Mark(event)
  {
    hide Mark;
    var more := events + [event];
    assert more[|events|] == event;
    assert forall j :: 0 <= j < |events| ==> more[j] == events[j];
  }

  /** The verdict on the event after `events`, and what is kept if it is accepted. */
  lemma JudgeIs(policy: Policy, events: seq<seq<Byte>>, event: seq<Byte>, p: Progress)
    requires Keeps(policy, events, p)
    ensures var more := events + [event];
            var j := Judge(policy, p, event);
            && (forall code :: j.error == Some(code) <==> Offends(policy, more, |events|, code))
            && (j.error.None? <==> !Offending(policy, more, |events|))
            && (j.error.None? ==> Keeps(policy, more, j.progress))
  {
    hide EventData;
    hide TokensOf;
    hide TotalSize;
    hide MarkedBefore;
    var more := events + [event];
    assert more[|events|] == event && more[..|events| + 1] == more;
    TotalSizeSnoc(policy, events, event);
    MarkedSnoc(events, event);
    TokensAre(AtMostU64(TotalSize(policy, more)));
    var j := Judge(policy, p, event);
    if j.error.Some? {
      assert Offends(policy, more, |events|, j.error.value);
    }
  }

  lemma OffendsPrefix(policy: Policy, events: seq<seq<Byte>>, rest: seq<seq<Byte>>, k: nat)
    requires k < |events|
    ensures forall code :: Offends(policy, events + rest, k, code) <==> Offends(policy, events, k, code)
    ensures Offending(policy, events + rest, k) <==> Offending(policy, events, k)
  {
    hide EventData;
    hide TotalSize;
    hide HasData;
    var more := events + rest;
    assert more[k] == events[k] && more[..k + 1] == events[..k + 1];
    assert forall j :: 0 <= j < k ==> more[j] == events[j];
    assert MarkedBefore(more, k) <==> MarkedBefore(events, k);
    forall code ensures Offends(policy, more, k, code) <==> Offends(policy, events, k, code) {
    }
  }

  // ---- all events ----

  lemma {:induction false} JudgeRest(policy: Policy, done: seq<seq<Byte>>, rest: seq<seq<Byte>>, p: Progress)
    requires Keeps(policy, done, p) && Spotless(policy, done)
    ensures var j := JudgeAll(policy, p, rest);
            && (forall code :: j.error == Some(code) <==> FirstOffence(policy, done + rest, code))
            && (j.error.None? <==> Spotless(policy, done + rest))
            && (j.error.None? ==> Keeps(policy, done + rest, j.progress))
    decreases |rest|
  {
    hide Judge;
    hide Offends;
    hide Keeps;
    if rest == [] {
      NilUnit(done);
      NoOffence(policy, done);
    } else {
      var more := done + [rest[0]];
      var all := done + rest;
      assert all == more + rest[1..];
      JudgeIs(policy, done, rest[0], p);
      OffendsPrefix(policy, more, rest[1..], |done|);
      forall k | 0 <= k < |done| ensures !Offending(policy, more, k) && !Offending(policy, all, k) {
        OffendsPrefix(policy, done, [rest[0]], k);
        OffendsPrefix(policy, done, rest, k);
      }
      var first := Judge(policy, p, rest[0]);
      if first.error.None? {
        JudgeRest(policy, more, rest[1..], first.progress);
      } else {
        OneOffence(policy, all, |done|, first.error.value);
      }
    }
  }

  lemma NoOffence(policy: Policy, events: seq<seq<Byte>>)
    requires Spotless(policy, events)
    ensures forall code :: !FirstOffence(policy, events, code)
  {
    hide Offends;
    forall k, code | 0 <= k < |events| ensures Offends(policy, events, k, code) ==> Offending(policy, events, k) {
    }
  }

  lemma OffenceIsOne(policy: Policy, events: seq<seq<Byte>>, k: nat, c: ErrorCode, d: ErrorCode)
    requires k < |events| && Offends(policy, events, k, c) && Offends(policy, events, k, d)
    ensures c == d
  {
    hide EventData;
    hide TotalSize;
  }

  lemma OneOffence(policy: Policy, events: seq<seq<Byte>>, k: nat, c: ErrorCode)
    requires k < |events| && Offends(policy, events, k, c) && forall j :: 0 <= j < k ==> !Offending(policy, events, j)
    ensures forall code :: FirstOffence(policy, events, code) <==> code == c
    ensures !Spotless(policy, events)
  {
    hide Offends;
    assert Offending(policy, events, k);
    forall code | FirstOffence(policy, events, code) ensures code == c {
      var i :| 0 <= i < |events| && Offends(policy, events, i, code) && forall j :: 0 <= j < i ==> !Offending(policy, events, j);
      assert Offending(policy, events, i);
      assert i == k;
      OffenceIsOne(policy, events, k, code, c);
    }
  }

  /**
   The verdict on any events: they are refused with exactly the code of the first
   offence, accepted exactly if there is none, and then the clean text is counted.
   */
  lemma VerdictIff(policy: Policy, events: seq<seq<Byte>>)
    ensures var j := JudgeAll(policy, START.progress, events);
            && (forall code :: j.error == Some(code) <==> FirstOffence(policy, events, code))
            && (j.error.None? <==> Spotless(policy, events))
            && (j.error.None? ==> Keeps(policy, events, j.progress))
  {
    NilUnit(events);
    JudgeRest(policy, [], events, START.progress);
  }

  /** Spotless events, one by one: UTF-8, and without data, the done mark, or clean and before the mark. */
  lemma SpotlessIs(policy: Policy, events: seq<seq<Byte>>)
    requires Spotless(policy, events)
    ensures forall k :: 0 <= k < |events| ==>
              && policy.isUtf8(events[k])
              && (EventData(events[k]) == [] || EventData(events[k]) == DONE ||
                  (policy.scan(EventData(events[k])).Clean? && !MarkedBefore(events, k)))
    ensures policy.tokenBudget > 0 ==>
              forall k :: 0 <= k < |events| && HasData(events[k]) ==>
                AtMostU64(TotalSize(policy, events[..k + 1])) <= 4 * policy.tokenBudget
  {
    hide EventData;
    hide TotalSize;
    hide MarkedBefore;
    forall k | 0 <= k < |events|
      ensures policy.isUtf8(events[k])
      ensures EventData(events[k]) == [] || EventData(events[k]) == DONE ||
              (policy.scan(EventData(events[k])).Clean? && !MarkedBefore(events, k))
      ensures policy.tokenBudget > 0 && HasData(events[k]) ==>
                AtMostU64(TotalSize(policy, events[..k + 1])) <= 4 * policy.tokenBudget
    {
      assert !Offending(policy, events, k);
      assert !Offends(policy, events, k, ProtocolViolation) && !Offends(policy, events, k, PiiDetected);
      assert !Offends(policy, events, k, ContentBlocked) && !Offends(policy, events, k, TokenBudgetExceeded);
    }
  }

  // ---- whole runs ----

  /** A run that is still allowed has seen no offence and kept the byte limit, and has counted the clean text. */
  lemma AllowedIff(policy: Policy, chunks: seq<seq<Byte>>)
    ensures var s := Run(policy, chunks).0;
            var events := SplitChunks(chunks).events;
            && (s.terminal.None? <==>
                  AtMostU64(|Joined(chunks)|) <= policy.maxResponseBytes && Spotless(policy, events))
            && (s.terminal.None? ==> Keeps(policy, events, s.progress) && s.inspectedBytes == AtMostU64(|Joined(chunks)|))
  {
    hide Run;
    hide SplitChunks;
    hide JudgeAll;
    hide Spotless;
    hide Keeps;
    RunIsCutAndJudge(policy, chunks);
    VerdictIff(policy, SplitChunks(chunks).events);
  }

  /**
   How a run ends: at the first chunk that takes it over the byte limit, with
   that code, or that completes an event which offends, with the code of the offence.
   */
  lemma {:induction false} RefusedAt(policy: Policy, chunks: seq<seq<Byte>>) returns (k: nat)
    requires Run(policy, chunks).0.terminal.Some?
    ensures k < |chunks| && Run(policy, chunks[..k]).0.terminal.None?
    ensures var code := Run(policy, chunks).0.terminal.value;
            var seen := chunks[..k + 1];
            if AtMostU64(|Joined(seen)|) > policy.maxResponseBytes then code == RequestTooLarge
            else FirstOffence(policy, SplitChunks(seen).events, code)
  {
    hide JudgeAll;
    hide SplitChunks;
    hide FirstOffence;
    var n := |chunks| - 1;
    var init := chunks[..n];
    if Run(policy, init).0.terminal.Some? {
      k := RefusedAt(policy, init);
      assert init[..k] == chunks[..k] && init[..k + 1] == chunks[..k + 1];
    } else {
      k := n;
      assert chunks[..n + 1] == chunks;
      RefusedNow(policy, init, chunks[n]);
      assert chunks == init + [chunks[n]];
    }
  }

  lemma RefusedNow(policy: Policy, init: seq<seq<Byte>>, chunk: seq<Byte>)
    requires Run(policy, init).0.terminal.None?
    requires InspectChunk(policy, Run(policy, init).0, chunk).0.terminal.Some?
    ensures var code := InspectChunk(policy, Run(policy, init).0, chunk).0.terminal.value;
            var seen := init + [chunk];
            if AtMostU64(|Joined(seen)|) > policy.maxResponseBytes then code == RequestTooLarge
            else FirstOffence(policy, SplitChunks(seen).events, code)
  {
    hide Run;
    hide JudgeAll;
    hide FirstOffence;
    hide Split;
    var seen := init + [chunk];
    SnocInit(init, chunk);
    RunIsCutAndJudge(policy, init);
    var before, now := SplitChunks(init), Split(SplitChunks(init).tail + chunk);
    JudgeAllAppend(policy, START.progress, before.events, now.events);
    VerdictIff(policy, before.events + now.events);
  }

  // ---- what a chunk and the end release ----

  /** A fault releases nothing and stays; otherwise the bytes released and those kept make up what was there, and no event is kept. */
  lemma ReleaseIs(policy: Policy, s: State, chunk: seq<Byte>)
    ensures var (t, n) := InspectChunk(policy, s, chunk);
            && (s.terminal.Some? ==> t == s && n == 0) && (t.terminal.Some? ==> n == 0)
            && (t.terminal.None? ==>
                  n <= |s.pending + chunk| && (s.pending + chunk)[n..] == t.pending && FindEventEnd(t.pending).None?)
  {
    hide JudgeAll;
    var pending := s.pending + chunk;
    SplitIsCut(pending);
    var cut := Split(pending);
    DropPrefix(Joined(cut.events), cut.tail);
  }

  /** The end is accepted exactly after a done mark with only blanks left over, which are then released; nothing is otherwise. */
  lemma FinishIs(s: State)
    ensures var (t, n) := FinishStream(s);
            && (t.terminal.None? <==>
                  s.terminal.None? && s.progress.sawDone && forall c :: c in s.pending ==> c in {9, 10, 12, 13, 32})
            && (t.terminal.None? ==> n == |s.pending| && t == s.(pending := []))
            && (t.terminal.Some? ==> n == 0 && t == s.(terminal := t.terminal))
            && (s.terminal.None? && t.terminal.Some? ==> t.terminal == Some(ProtocolViolation))
            && (s.terminal.Some? ==> t == s)
  {
  }
}
