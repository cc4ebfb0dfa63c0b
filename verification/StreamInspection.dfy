/**
 The stream inspector: bytes arrive in chunks, complete events are judged in
 order, and only the bytes of accepted events are released.
 */
module StreamInspection {
  import opened Common
  import opened SseEvents

  datatype ErrorCode = RequestTooLarge | ProtocolViolation | PiiDetected | ContentBlocked | TokenBudgetExceeded

  /** What parsing and scanning the data of an event says, in the order the checks are made. */
  datatype Scan = NotJson | TooDeep | ContainsEmail | ContainsBlockedTerm | Clean(semanticBytes: nat)

  datatype Policy = Policy(
    isUtf8: seq<Byte> -> bool, scan: seq<Byte> -> Scan, tokenBudget: nat, maxResponseBytes: nat)

  datatype Progress = Progress(semanticBytes: nat, sawDone: bool)

  datatype Judged = Judged(progress: Progress, error: Option<ErrorCode>)

  const DONE: seq<Byte> := [91, 68, 79, 78, 69, 93]

  function TokensOf(semanticBytes: nat): nat {
    (semanticBytes + 3) / 4
  }

  function Judge(policy: Policy, p: Progress, event: seq<Byte>): Judged {
    var data := EventData(event);
    if !policy.isUtf8(event) then Judged(p, Some(ProtocolViolation))
    else if data == [] then Judged(p, None)
    else if data == DONE then Judged(p.(sawDone := true), None)
    else if p.sawDone then Judged(p, Some(ProtocolViolation))
    else
      match policy.scan(data)
      case NotJson => Judged(p, Some(ProtocolViolation))
      case TooDeep => Judged(p, Some(ProtocolViolation))
      case ContainsEmail => Judged(p, Some(PiiDetected))
      case ContainsBlockedTerm => Judged(p, Some(ContentBlocked))
      case Clean(size) =>
        var q := p.(semanticBytes := SaturatingAdd(p.semanticBytes, size));
        Judged(q, if 0 < policy.tokenBudget < TokensOf(q.semanticBytes) then Some(TokenBudgetExceeded) else None)
  }

  /** Judging events in order, up to the first that is refused. */
  function JudgeAll(policy: Policy, p: Progress, events: seq<seq<Byte>>): Judged
    decreases |events|
  {
    if events == [] then Judged(p, None)
    else
      var first := Judge(policy, p, events[0]);
      if first.error.Some? then first else JudgeAll(policy, first.progress, events[1..])
  }

  lemma {:induction false} JudgeAllAppend(policy: Policy, p: Progress, left: seq<seq<Byte>>, right: seq<seq<Byte>>)
    ensures JudgeAll(policy, p, left + right) ==
            if JudgeAll(policy, p, left).error.Some? then JudgeAll(policy, p, left)
            else JudgeAll(policy, JudgeAll(policy, p, left).progress, right)
    decreases |left|
  {
    if left == [] {
      NilUnit(right);
    } else {
      var tail := left[1..];
      TakeDrop(left, 1);
      assert left[..1] == [left[0]];
      Assoc([left[0]], tail, right);
      DropPrefix([left[0]], tail + right);
      JudgeAllAppend(policy, Judge(policy, p, left[0]).progress, tail, right);
    }
  }

  datatype State = State(
    pending: seq<Byte>, inspectedBytes: nat, progress: Progress, terminal: Option<ErrorCode>)

  const START := State([], 0, Progress(0, false), None)

  /** `error` None is an Allow decision. */
  datatype Inspection = Inspection(
    error: Option<ErrorCode>, releaseBytes: nat, inspectedBytes: nat, consumedTokens: nat)

  function Report(s: State, releaseBytes: nat): Inspection {
    Inspection(s.terminal, releaseBytes, s.inspectedBytes, TokensOf(s.progress.semanticBytes))
  }

  /** One chunk, in one piece: cut all that is pending, judge every event, keep the tail. */
  function InspectChunk(policy: Policy, s: State, chunk: seq<Byte>): (State, nat) {
    if s.terminal.Some? then (s, 0)
    else
      var total := SaturatingAdd(s.inspectedBytes, |chunk|);
      if total > policy.maxResponseBytes then
        (s.(inspectedBytes := total, terminal := Some(RequestTooLarge)), 0)
      else
        var pending := s.pending + chunk;
        var cut := Split(pending);
        var judged := JudgeAll(policy, s.progress, cut.events);
        if judged.error.Some? then (State(pending, total, judged.progress, judged.error), 0)
        else (State(cut.tail, total, judged.progress, None), |Joined(cut.events)|)
  }

  predicate Whitespace(b: Byte) {
    b == 32 || b == 9 || b == 10 || b == 12 || b == 13
  }

  function FinishStream(s: State): (State, nat) {
    if s.terminal.Some? then (s, 0)
    else if s.progress.sawDone && forall b :: b in s.pending ==> Whitespace(b) then
      (s.(pending := []), |s.pending|)
    else (s.(terminal := Some(ProtocolViolation)), 0)
  }

  /** What judging the bytes `rest` comes to: the verdict, the bytes of its events, and the tail. */
  datatype Outcome = Outcome(judged: Judged, eventBytes: nat, tail: seq<Byte>)

  function OutcomeOf(policy: Policy, p: Progress, rest: seq<Byte>): Outcome {
    var cut := Split(rest);
    Outcome(JudgeAll(policy, p, cut.events), |Joined(cut.events)|, cut.tail)
  }

  lemma OutcomeStep(policy: Policy, p: Progress, rest: seq<Byte>, end: nat)
    requires FindEventEnd(rest) == Some(end)
    ensures var next := Judge(policy, p, rest[..end]);
            var after := OutcomeOf(policy, next.progress, rest[end..]);
            OutcomeOf(policy, p, rest) ==
            Outcome(if next.error.Some? then next else after.judged, end + after.eventBytes, after.tail)
  {
    var event, after := rest[..end], Split(rest[end..]);
    SplitStep(rest, end);
    DropPrefix([event], after.events);
    JoinedPrepend(event, after.events);
  }

  class StreamInspector {
    const policy: Policy
    var pending: seq<Byte>
    var inspectedBytes: nat
    var semanticBytes: nat
    var sawDone: bool
    var terminal: Option<ErrorCode>

    function View(): State
      reads this
    {
      State(pending, inspectedBytes, Progress(semanticBytes, sawDone), terminal)
    }

    constructor (policy: Policy)
      ensures this.policy == policy && View() == START
    {
      this.policy := policy;
      pending, inspectedBytes, semanticBytes, sawDone, terminal := [], 0, 0, false, None;
    }

    method InspectEvent(event: seq<Byte>) returns (error: Option<ErrorCode>)
      modifies `semanticBytes, `sawDone
      ensures Judged(View().progress, error) == Judge(policy, old(View().progress), event)
    {
      if !policy.isUtf8(event) {
        return Some(ProtocolViolation);
      }
      var data := CollectData(event);
      if data == [] {
        return None;
      }
      if data == DONE {
        sawDone := true;
        return None;
      }
      if sawDone {
        return Some(ProtocolViolation);
      }
      match policy.scan(data)
      case NotJson => return Some(ProtocolViolation);
      case TooDeep => return Some(ProtocolViolation);
      case ContainsEmail => return Some(PiiDetected);
      case ContainsBlockedTerm => return Some(ContentBlocked);
      case Clean(size) =>
        semanticBytes := SaturatingAdd(semanticBytes, size);
        if policy.tokenBudget > 0 && TokensOf(semanticBytes) > policy.tokenBudget {
          return Some(TokenBudgetExceeded);
        }
        return None;
    }

    /** The loop of Inspect: judge the complete events of `pending` until one is refused. */
    method JudgePending() returns (release: nat, error: Option<ErrorCode>)
      modifies `semanticBytes, `sawDone
      ensures var outcome := OutcomeOf(policy, old(View().progress), pending);
              && outcome.judged == Judged(View().progress, error)
              && (error.None? ==> release == outcome.eventBytes && release <= |pending| && pending[release..] == outcome.tail)
    {
      ghost var whole := OutcomeOf(policy, View().progress, pending);
      release := 0;
      var rest := pending;
      var end := FindEventEnd(rest);
      while end.Some?
        invariant release <= |pending| && rest == pending[release..] && end == FindEventEnd(rest)
        invariant var now := OutcomeOf(policy, View().progress, rest); now.(eventBytes := release + now.eventBytes) == whole
        decreases |rest|
      {
        OutcomeStep(policy, View().progress, rest, end.value);
        DropDrop(pending, release, end.value);
        error := InspectEvent(rest[..end.value]);
        if error.Some? {
          return;
        }
        release := release + end.value;
        rest := rest[end.value..];
        end := FindEventEnd(rest);
      }
      error := None;
    }

    method Inspect(chunk: seq<Byte>) returns (r: Inspection)
      modifies this
      ensures InspectChunk(policy, old(View()), chunk) == (View(), r.releaseBytes)
      ensures r == Report(View(), r.releaseBytes)
    {
      if terminal.Some? {
        return Report(View(), 0);
      }
      inspectedBytes := SaturatingAdd(inspectedBytes, |chunk|);
      if inspectedBytes > policy.maxResponseBytes {
        terminal := Some(RequestTooLarge);
        return Report(View(), 0);
      }
      pending := pending + chunk;
      var release, error := JudgePending();
      if error.Some? {
        terminal := error;
        return Report(View(), 0);
      }
      pending := pending[release..];
      r := Report(View(), release);
    }

    method Finish() returns (r: Inspection)
      modifies this
      ensures FinishStream(old(View())) == (View(), r.releaseBytes)
      ensures r == Report(View(), r.releaseBytes)
    {
      if terminal.Some? {
        return Report(View(), 0);
      }
      if sawDone && forall b :: b in pending ==> Whitespace(b) {
        var release := |pending|;
        pending := [];
        return Report(View(), release);
      }
      terminal := Some(ProtocolViolation);
      return Report(View(), 0);
    }
  }

  // ---- whole runs ----

  /** The state after `chunks`, and the bytes released on the way. */
  function Run(policy: Policy, chunks: seq<seq<Byte>>): (State, nat) {
    if chunks == [] then (START, 0)
    else
      var (s, released) := Run(policy, chunks[..|chunks| - 1]);
      var (t, more) := InspectChunk(policy, s, chunks[|chunks| - 1]);
      (t, released + more)
  }

  /** The state of a run that has met no refusal, told from the bytes and the cut alone. */
  ghost function Accepted(policy: Policy, b: seq<Byte>, cut: Cut): State {
    State(cut.tail, SaturatingAdd(0, |b|), JudgeAll(policy, START.progress, cut.events).progress, None)
  }

  ghost predicate Refused(policy: Policy, b: seq<Byte>, cut: Cut) {
    || SaturatingAdd(0, |b|) > policy.maxResponseBytes
    || JudgeAll(policy, START.progress, cut.events).error.Some?
  }

  lemma {:induction false} RunIsCutAndJudge(policy: Policy, chunks: seq<seq<Byte>>)
    ensures RunMatches(policy, Run(policy, chunks), Joined(chunks), SplitChunks(chunks))
  {
    if chunks != [] {
      var init, last := chunks[..|chunks| - 1], chunks[|chunks| - 1];
      RunIsCutAndJudge(policy, init);
      RunMatchesStep(policy, Run(policy, init), Joined(init), SplitChunks(init), last);
    }
  }

  ghost predicate RunMatches(policy: Policy, run: (State, nat), b: seq<Byte>, cut: Cut) {
    && (run.0.terminal.Some? <==> Refused(policy, b, cut))
    && (run.0.terminal.None? ==> run.0 == Accepted(policy, b, cut) && run.1 == |Joined(cut.events)|)
  }

  lemma RunMatchesStep(policy: Policy, run: (State, nat), b: seq<Byte>, cut: Cut, chunk: seq<Byte>)
    requires RunMatches(policy, run, b, cut)
    ensures var (t, more) := InspectChunk(policy, run.0, chunk);
            var now := Split(cut.tail + chunk);
            RunMatches(policy, (t, run.1 + more), b + chunk, Cut(cut.events + now.events, now.tail))
  {
    var now := Split(cut.tail + chunk);
    JudgeAllAppend(policy, START.progress, cut.events, now.events);
    JoinedAppend(cut.events, now.events);
  }

  /** Delivery in any chunks agrees with delivery of all the bytes at once. */
  lemma RunIsOneShot(policy: Policy, chunks: seq<seq<Byte>>)
    requires Unmixed(Joined(chunks))
    ensures var (s, released) := Run(policy, chunks);
            var b := Joined(chunks);
            && (s.terminal.Some? <==> Refused(policy, b, Split(b)))
            && (s.terminal.None? ==> s == Accepted(policy, b, Split(b)) && released <= |b| && b[..released] == Joined(Split(b).events))
  {
    RunIsCutAndJudge(policy, chunks);
    SplitChunksUnmixed(chunks);
    var b := Joined(chunks);
    SplitIsCut(b);
    DropPrefix(Joined(Split(b).events), Split(b).tail);
  }

  lemma ChunkingIndependence(policy: Policy, left: seq<seq<Byte>>, right: seq<seq<Byte>>)
    requires Joined(left) == Joined(right) && Unmixed(Joined(left))
    ensures Run(policy, left).0.terminal.Some? <==> Run(policy, right).0.terminal.Some?
    ensures Run(policy, left).0.terminal.None? ==> Run(policy, left) == Run(policy, right)
  {
    RunIsCutAndJudge(policy, left);
    RunIsCutAndJudge(policy, right);
    SplitChunksUnmixed(left);
    SplitChunksUnmixed(right);
  }

  /** While the inspector allows: limits hold, nothing complete is held back, nothing is lost. */
  lemma AllowedRun(policy: Policy, chunks: seq<seq<Byte>>)
    requires Run(policy, chunks).0.terminal.None?
    ensures var (s, released) := Run(policy, chunks);
            && s.inspectedBytes <= policy.maxResponseBytes
            && (policy.tokenBudget > 0 ==> TokensOf(s.progress.semanticBytes) <= policy.tokenBudget)
            && released + |s.pending| == |Joined(chunks)|
            && Joined(chunks)[released..] == s.pending
            && FindEventEnd(s.pending).None?
  {
    RunIsCutAndJudge(policy, chunks);
    SplitChunksParts(chunks);
    DropPrefix(Joined(SplitChunks(chunks).events), SplitChunks(chunks).tail);
    BudgetKept(policy, START.progress, SplitChunks(chunks).events);
  }

  lemma {:induction false} SplitChunksParts(chunks: seq<seq<Byte>>)
    ensures Joined(SplitChunks(chunks).events) + SplitChunks(chunks).tail == Joined(chunks)
    ensures FindEventEnd(SplitChunks(chunks).tail).None?
  {
    if chunks != [] {
      var init, last := chunks[..|chunks| - 1], chunks[|chunks| - 1];
      SplitChunksParts(init);
      var before := SplitChunks(init);
      SplitIsCut(before.tail + last);
      JoinedAppend(before.events, Split(before.tail + last).events);
      Reassociate(Joined(before.events), before.tail, last,
                  Joined(Split(before.tail + last).events), Split(before.tail + last).tail);
    }
  }

  lemma {:induction false} SplitChunksComplete(chunks: seq<seq<Byte>>)
    ensures forall event :: event in SplitChunks(chunks).events ==> IsEvent(event)
  {
    if chunks != [] {
      var init := chunks[..|chunks| - 1];
      SplitChunksComplete(init);
      SplitIsCut(SplitChunks(init).tail + chunks[|chunks| - 1]);
    }
  }

  lemma Reassociate(a: seq<Byte>, b: seq<Byte>, c: seq<Byte>, x: seq<Byte>, y: seq<Byte>)
    requires x + y == b + c
    ensures (a + x) + y == (a + b) + c
  {
    Assoc(a, x, y);
    Assoc(a, b, c);
  }

  lemma {:induction false} BudgetKept(policy: Policy, p: Progress, events: seq<seq<Byte>>)
    requires policy.tokenBudget > 0 ==> TokensOf(p.semanticBytes) <= policy.tokenBudget
    requires JudgeAll(policy, p, events).error.None?
    ensures policy.tokenBudget > 0 ==> TokensOf(JudgeAll(policy, p, events).progress.semanticBytes) <= policy.tokenBudget
    decreases |events|
  {
    if events != [] {
      BudgetKept(policy, Judge(policy, p, events[0]).progress, events[1..]);
    }
  }
}
