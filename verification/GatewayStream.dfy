/**
 The gateway's streaming forwarder: bytes read from the backend wait in a
 buffer that mirrors the inspector's, and go to the client by release counts.
 */
module GatewayStream {
  import opened Common
  import opened SseEvents
  import opened StreamInspection
  import opened EventVerdicts
  import opened PolicyChannel

  /** One read of the backend body; `last` is an end of file or any other read error. */
  datatype Read = Read(bytes: seq<Byte>, last: bool)

  function BytesOf(script: seq<Read>): seq<Byte> {
    if script == [] then []
    else if script[0].last then script[0].bytes
    else script[0].bytes + BytesOf(script[1..])
  }

  /** The reads that brought bytes. */
  function Reads(script: seq<Read>): seq<seq<Byte>> {
    if script == [] then []
    else
      var rest := if script[0].last then [] else Reads(script[1..]);
      if script[0].bytes == [] then rest else [script[0].bytes] + rest
  }

  lemma {:induction false} ReadsJoin(script: seq<Read>)
    ensures Joined(Reads(script)) == BytesOf(script)
  {
    if script != [] {
      if script[0].last {
        JoinedOne(script[0].bytes);
      } else {
        ReadsJoin(script[1..]);
        NilUnit(BytesOf(script[1..]));
        JoinedPrepend(script[0].bytes, Reads(script[1..]));
      }
    }
  }

  class BackendBody {
    var remaining: seq<Read>

    ghost predicate Within(chunkBytes: nat)
      reads this
    {
      forall r :: r in remaining ==> |r.bytes| <= chunkBytes
    }

    method Next() returns (bytes: seq<Byte>, last: bool)
      modifies this
      ensures old(BytesOf(remaining)) == bytes + BytesOf(remaining)
      ensures old(Reads(remaining)) == (if bytes == [] then [] else [bytes]) + Reads(remaining)
      ensures last ==> remaining == []
      ensures !last ==> |remaining| < old(|remaining|)
      ensures forall n: nat :: old(Within(n)) ==> Within(n) && |bytes| <= n
    {
      if remaining == [] {
        return [], true;
      }
      bytes, last := remaining[0].bytes, remaining[0].last;
      assert remaining[0] in remaining;
      remaining := if last then [] else remaining[1..];
      NilUnit(bytes);
    }
  }

  datatype GatewayError =
    | PolicyUnavailable | PolicyRefused(error: Option<ErrorCode>) | PolicyProtocolError | BufferFull | Incomplete

  /** The client side. After a failing write nothing more gets through. */
  class ResponseWriter {
    var status: Option<nat>
    var error: Option<GatewayError>
    var body: seq<Byte>
    var broken: bool

    constructor ()
      ensures status.None? && error.None? && body == [] && !broken
    {
      status, error, body, broken := None, None, [], false;
    }

    method WriteHeader(code: nat)
      modifies `status
      ensures status == if old(status).Some? then old(status) else Some(code)
    {
      if status.None? {
        status := Some(code);
      }
    }

    /** `cut` is the number of bytes that still get through a write that fails. */
    method Write(data: seq<Byte>, cut: Option<nat>) returns (ok: bool)
      modifies `body, `broken
      ensures ok == !broken && broken == (old(broken) || cut.Some?) && (old(broken) ==> body == old(body))
      ensures !broken ==> body == old(body) + data
      ensures old(body) <= body <= old(body) + data
    {
      if broken {
        return false;
      }
      match cut
      case None =>
        body := body + data;
        ok := true;
      case Some(n) =>
        var sent := if n <= |data| then n else |data|;
        body := body + data[..sent];
        broken, ok := true, false;
    }

    method WriteError(code: nat, kind: GatewayError)
      modifies `status, `error
      ensures error == Some(kind) && status == if old(status).Some? then old(status) else Some(code)
    {
      WriteHeader(code);
      error := Some(kind);
    }
  }

  datatype FailMode = FailOpen | FailClosed

  datatype StreamEnd =
    | Unchecked | FailedOpen | FailedClosed | Unclosed | Refused | ProtocolError | WriteFailed | BufferExceeded | Complete

  /** The environment: what happens to each round trip and to each write. */
  datatype World = World(fates: nat -> Fate, cuts: nat -> Option<nat>)

  /** No peer but the task itself answers. */
  ghost predicate Honest(world: World) {
    forall k: nat :: !world.fates(k).Replaced?
  }

  /** The first `n` writes go through. */
  ghost predicate Unbroken(world: World, n: nat) {
    forall k: nat :: k < n ==> world.cuts(k).None?
  }

  /** Some write fails, after the first `n`. */
  ghost predicate CutFrom(world: World, n: nat) {
    exists k: nat :: k >= n && world.cuts(k).Some?
  }

  /** The first `n` checks are answered. */
  ghost predicate Answered(world: World, n: nat) {
    forall k: nat :: k < n ==> GoesThrough(world.fates(k))
  }

  lemma AnsweredMore(world: World, n: nat)
    ensures Answered(world, n + 1) <==> Answered(world, n) && GoesThrough(world.fates(n))
  {
  }

  lemma UnbrokenMore(world: World, n: nat)
    ensures Unbroken(world, n + 1) <==> Unbroken(world, n) && world.cuts(n).None?
    ensures world.cuts(n).Some? ==> CutFrom(world, 0) && CutFrom(world, n)
    ensures CutFrom(world, n) ==> CutFrom(world, 0)
  {
  }

  method Copy(writer: ResponseWriter, body: BackendBody, world: World, writesBefore: nat)
    modifies writer`body, writer`broken, body
    ensures old(writer.broken) ==> writer.broken && writer.body == old(writer.body)
    ensures !writer.broken ==> writer.body == old(writer.body) + old(BytesOf(body.remaining))
    ensures old(writer.body) <= writer.body <= old(writer.body) + old(BytesOf(body.remaining))
    ensures writer.broken ==> old(writer.broken) || CutFrom(world, writesBefore)
  {
    var attempt := writesBefore;
    ghost var whole := writer.body + BytesOf(body.remaining);
    var last := false;
    while !last
      invariant writer.broken == old(writer.broken) && attempt >= writesBefore
      invariant old(writer.broken) ==> writer.body == old(writer.body)
      invariant old(writer.body) <= writer.body <= whole
      invariant !writer.broken ==> writer.body + BytesOf(body.remaining) == whole
      invariant last ==> body.remaining == []
      decreases !last, |body.remaining|
    {
      var bytes;
      ghost var sent := writer.body;
      bytes, last := body.Next();
      Assoc(sent, bytes, BytesOf(body.remaining));
      var ok := writer.Write(bytes, world.cuts(attempt));
      if !ok {
        PrefixWithin(sent, bytes, BytesOf(body.remaining), writer.body, whole);
        return;
      }
      attempt := attempt + 1;
    }
    NilUnit(writer.body);
  }

  lemma PrefixWithin(sent: seq<Byte>, bytes: seq<Byte>, rest: seq<Byte>, now: seq<Byte>, whole: seq<Byte>)
    requires sent <= now <= sent + bytes && sent <= whole
    requires sent + (bytes + rest) == whole || now == sent
    ensures now <= whole
  {
    Assoc(sent, bytes, rest);
  }

  /** The bytes of the events that `checked` completes. */
  function EventBytes(checked: seq<seq<Byte>>): seq<Byte> {
    Joined(SplitChunks(checked).events)
  }

  /** The inspector has seen the chunks `checked`; the gateway's buffer mirrors its own, and the events are sent. */
  ghost predicate Mirrors(session: StreamSession, pending: seq<Byte>, sent: seq<Byte>, checked: seq<seq<Byte>>)
    reads session, session.task, session.task.inspector
  {
    && session.InSync()
    && session.task.inspector.View() == Run(session.task.inspector.policy, checked).0
    && session.task.inspector.pending == pending
    && sent == EventBytes(checked)
  }

  lemma RunMore(policy: Policy, checked: seq<seq<Byte>>, chunk: seq<Byte>)
    ensures Run(policy, checked + [chunk]).0 == InspectChunk(policy, Run(policy, checked).0, chunk).0
  {
    SnocInit(checked, chunk);
  }

  /** An allowed chunk: the release count fits the gateway's buffer and is that of the events the chunk completes. */
  lemma AllowedChunk(policy: Policy, checked: seq<seq<Byte>>, chunk: seq<Byte>)
    requires Run(policy, checked).0.terminal.None? && Run(policy, checked + [chunk]).0.terminal.None?
    ensures var s := Run(policy, checked).0;
            var (t, release) := InspectChunk(policy, s, chunk);
            var buffer := s.pending + chunk;
            && release <= |buffer| && t.pending == buffer[release..]
            && EventBytes(checked + [chunk]) == EventBytes(checked) + buffer[..release]
  {
    var s := Run(policy, checked).0;
    var cut := Split(s.pending + chunk);
    RunMore(policy, checked, chunk);
    RunIsCutAndJudge(policy, checked);
    SplitIsCut(s.pending + chunk);
    DropPrefix(Joined(cut.events), cut.tail);
    JoinedAppend(SplitChunks(checked).events, cut.events);
    SnocInit(checked, chunk);
  }

  /** Genuine: a fresh session with the real task, too few reads to wrap its sequence numbers. */
  ghost predicate Genuine(session: StreamSession, body: BackendBody, world: World)
    reads session, body, session.task, session.task.inspector
  {
    && session.InSync() && session.task.inspector.View() == START
    && session.sequence + |body.remaining| < U64_MAX
    && Honest(world)
  }

  /** Nothing is lost: what is sent, what waits and what is still to come make up the whole. */
  ghost predicate Flowing(writer: ResponseWriter, pending: seq<Byte>, rest: seq<Byte>, whole: seq<Byte>, started: bool,
                          okStatus: nat)
    reads writer
  {
    && !writer.broken && writer.body + (pending + rest) == whole
    && writer.error.None? && started == (writer.body != [])
    && writer.status == if started then Some(okStatus) else None
  }

  predicate Failing(end: StreamEnd) {
    end.FailedClosed? || end.Unclosed? || end.Refused? || end.ProtocolError? || end.BufferExceeded?
  }

  /** The answer a client gets in place of the response. */
  ghost predicate Told(writer: ResponseWriter, end: StreamEnd)
    reads writer
  {
    match end
    case FailedClosed => writer.status == Some(503) && writer.error == Some(PolicyUnavailable)
    case Unclosed => writer.status == Some(502) && writer.error == Some(GatewayError.Incomplete)
    case Refused => writer.status == Some(403) && writer.error.Some? && writer.error.value.PolicyRefused?
    case ProtocolError => writer.status == Some(502) && writer.error == Some(PolicyProtocolError)
    case BufferExceeded => writer.status == Some(502) && writer.error == Some(BufferFull)
    case _ => false
  }

  /**
   What the client has when forwarding is over, whoever answered the checks: the
   backend's status and a prefix of its bytes, or the error alone.
   */
  ghost predicate Settled(writer: ResponseWriter, end: StreamEnd, failMode: FailMode, okStatus: nat, whole: seq<Byte>)
    reads writer
  {
    && writer.body <= whole
    && (if Failing(end) && writer.body == [] && !writer.broken then Told(writer, end)
        else writer.status == Some(okStatus) && writer.error.None?)
    && (end.Complete? || end.Unchecked? || end.FailedOpen? ==> writer.broken || writer.body == whole)
    && InMode(end, failMode) && (end.WriteFailed? ==> writer.broken)
  }

  predicate InMode(end: StreamEnd, failMode: FailMode) {
    (end.FailedOpen? ==> failMode.FailOpen?) && (end.FailedClosed? || end.Unclosed? ==> failMode.FailClosed?)
  }

  /** Before each of the chunks the inspector was allowing and what it held fitted the buffer. */
  ghost predicate Fitting(policy: Policy, checked: seq<seq<Byte>>, bufferBytes: nat) {
    forall k :: 0 <= k < |checked| ==> Held(policy, checked[..k], bufferBytes)
  }

  ghost predicate Held(policy: Policy, checked: seq<seq<Byte>>, bufferBytes: nat) {
    var s := Run(policy, checked).0;
    s.terminal.None? && |s.pending| <= bufferBytes
  }

  lemma FittingMore(policy: Policy, checked: seq<seq<Byte>>, chunk: seq<Byte>, bufferBytes: nat)
    requires Fitting(policy, checked, bufferBytes) && Held(policy, checked, bufferBytes)
    ensures Fitting(policy, checked + [chunk], bufferBytes)
  {
    hide Held;
    var more := checked + [chunk];
    forall k | 0 <= k < |more| ensures Held(policy, more[..k], bufferBytes) {
      assert more[..k] == if k < |checked| then checked[..k] else checked;
    }
  }

  lemma NothingChecked(policy: Policy, bufferBytes: nat)
    ensures Run(policy, []).0 == START && EventBytes([]) == [] && Fitting(policy, [], bufferBytes)
    ensures BytesOf([]) == [] && Reads([]) == []
  {
  }

  /** All chunks but a refused last one. */
  function Passed(policy: Policy, checked: seq<seq<Byte>>): seq<seq<Byte>> {
    if checked == [] || Run(policy, checked).0.terminal.None? then checked else checked[..|checked| - 1]
  }

  /** How many of the chunks released something, each by one write. */
  function Writes(checked: seq<seq<Byte>>): nat {
    if checked == [] then 0
    else
      var init := checked[..|checked| - 1];
      Writes(init) + if |EventBytes(checked)| > |EventBytes(init)| then 1 else 0
  }

  lemma {:induction false} WritesGrow(checked: seq<seq<Byte>>, k: nat)
    requires k <= |checked|
    ensures Writes(checked[..k]) <= Writes(checked)
  {
    hide EventBytes;
    if k == |checked| {
      assert checked[..k] == checked;
    } else {
      var init := checked[..|checked| - 1];
      WritesGrow(init, k);
      assert init[..k] == checked[..k];
    }
  }

  /** The round trip after the answered checks fails: a check, or the close after the last of them. */
  ghost predicate TripFails(world: World, checked: seq<seq<Byte>>, arrived: seq<seq<Byte>>) {
    if checked == arrived then !world.fates(|checked|).Delivered? else !GoesThrough(world.fates(|checked|))
  }

  predicate RefusedWith(error: Option<GatewayError>, code: Option<ErrorCode>) {
    error.Some? ==> error == Some(PolicyRefused(code))
  }

  /**
   Why forwarding ended as it did when the real task answered. `checked` are the
   first of the reads, all checked by answered round trips; at no read did the
   buffer hold more than its limit. The end is the inspector's verdict on them, a
   full buffer, the next round trip that fails, or the first write that fails.
   */
  ghost predicate Reason(policy: Policy, end: StreamEnd, error: Option<GatewayError>, broken: bool,
                         checked: seq<seq<Byte>>, arrived: seq<seq<Byte>>, bufferBytes: nat, world: World) {
    var s := Run(policy, checked).0;
    var writes := Writes(Passed(policy, checked));
    var finished := FinishStream(s).0;
    match end
    case Unchecked => false
    case ProtocolError => false
    case FailedOpen =>
      && Held(policy, checked, bufferBytes) && TripFails(world, checked, arrived)
      && Unbroken(world, writes) && (broken ==> CutFrom(world, writes))
    case FailedClosed =>
      && Held(policy, checked, bufferBytes) && checked != arrived && TripFails(world, checked, arrived)
      && Unbroken(world, writes) && !broken
    case Unclosed =>
      && Held(policy, checked, bufferBytes) && checked == arrived && TripFails(world, checked, arrived)
      && Unbroken(world, writes) && !broken
    case Refused =>
      && Unbroken(world, writes) && !broken
      && (if s.terminal.Some? then checked != [] && RefusedWith(error, s.terminal)
          else && Held(policy, checked, bufferBytes) && checked == arrived && world.fates(|checked|).Delivered?
               && finished.terminal.Some? && RefusedWith(error, finished.terminal))
    case BufferExceeded =>
      && s.terminal.None? && |s.pending| > bufferBytes && Unbroken(world, writes) && !broken
    case WriteFailed =>
      && s.terminal.None? && checked != [] && Writes(checked[..|checked| - 1]) < writes
      && Unbroken(world, writes - 1) && world.cuts(writes - 1).Some? && broken
    case Complete =>
      && Held(policy, checked, bufferBytes) && checked == arrived && world.fates(|checked|).Delivered?
      && finished.terminal.None? && Unbroken(world, writes)
      && broken == (s.pending != [] && world.cuts(writes).Some?)
  }

  /**
   What was sent follows from the reason: the events before a refusal, all of
   them if the writes went through; after a clean end only blanks besides.
   */
  ghost predicate Justified(policy: Policy, end: StreamEnd, error: Option<GatewayError>, sent: seq<Byte>, broken: bool,
                            checked: seq<seq<Byte>>, arrived: seq<seq<Byte>>, bufferBytes: nat, world: World) {
    var events := EventBytes(Passed(policy, checked));
    && checked <= arrived && Fitting(policy, checked, bufferBytes) && Answered(world, |checked|)
    && Reason(policy, end, error, broken, checked, arrived, bufferBytes, world)
    && (if end.FailedOpen? then events <= sent
        else if end.Complete? then events <= sent && OnlyBlankAfter(events, Joined(arrived))
        else sent <= events && (broken || sent == events))
  }

  /**
   What was sent under a justified end, short of failing open, is complete
   events in which nothing offends: each is UTF-8 and has no data, or is the done
   mark, or is clean and before it, within the budget; a clean end has the mark.
   */
  lemma SentIsAccepted(policy: Policy, end: StreamEnd, error: Option<GatewayError>, sent: seq<Byte>, broken: bool, checked: seq<seq<Byte>>,
                       arrived: seq<seq<Byte>>, bufferBytes: nat, world: World)
    requires Justified(policy, end, error, sent, broken, checked, arrived, bufferBytes, world)
    ensures var events := SplitChunks(Passed(policy, checked)).events;
            && (forall event :: event in events ==> IsEvent(event))
            && JudgeAll(policy, START.progress, events).error.None? && Joined(events) <= Joined(arrived)
            && (!end.FailedOpen? && !end.Complete? ==> sent <= Joined(events))
            && (end.Complete? ==> JudgeAll(policy, START.progress, events).progress.sawDone)
            && Spotless(policy, events) && (end.Complete? ==> MarkedBefore(events, |events|))
  {
    hide Run;
    hide SplitChunks;
    hide JudgeAll;
    hide Spotless;
    hide MarkedBefore;
    VerdictIff(policy, SplitChunks(Passed(policy, checked)).events);
    NothingChecked(policy, bufferBytes);
    var passed := Passed(policy, checked);
    if |passed| < |checked| {
      assert Held(policy, checked[..|passed|], bufferBytes);
    }
    assert Run(policy, passed).0.terminal.None?;
    RunIsCutAndJudge(policy, passed);
    SplitChunksComplete(passed);
    SplitChunksParts(passed);
    TakeDrop(arrived, |passed|);
    assert passed == arrived[..|passed|];
    JoinedAppend(passed, arrived[|passed|..]);
    Assoc(Joined(SplitChunks(passed).events), SplitChunks(passed).tail, Joined(arrived[|passed|..]));
  }

  predicate Decided(end: StreamEnd) {
    end.Refused? || end.BufferExceeded? || end.Complete?
  }

  /** Forwarding goes on after these chunks: they were allowed, they fit, and nothing has failed yet. */
  ghost predicate GoesOn(policy: Policy, checked: seq<seq<Byte>>, bufferBytes: nat, world: World) {
    Held(policy, checked, bufferBytes) && GoesThrough(world.fates(|checked|)) && Unbroken(world, Writes(checked))
  }

  lemma WentOn(policy: Policy, end: StreamEnd, error: Option<GatewayError>, sent: seq<Byte>, broken: bool,
               checked: seq<seq<Byte>>, arrived: seq<seq<Byte>>, bufferBytes: nat, world: World, k: nat)
    requires Justified(policy, end, error, sent, broken, checked, arrived, bufferBytes, world) && k < |checked|
    ensures k <= |arrived| && GoesOn(policy, arrived[..k], bufferBytes, world)
  {
    hide Held;
    hide Run;
    hide FinishStream;
    hide EventBytes;
    var init := checked[..|checked| - 1];
    assert arrived[..k] == checked[..k] == init[..k];
    WritesGrow(init, k);
    WritesGrow(checked, |checked| - 1);
  }

  lemma StopsHere(policy: Policy, end: StreamEnd, error: Option<GatewayError>, sent: seq<Byte>, broken: bool,
                  checked: seq<seq<Byte>>, arrived: seq<seq<Byte>>, bufferBytes: nat, world: World)
    requires Justified(policy, end, error, sent, broken, checked, arrived, bufferBytes, world)
    ensures |checked| <= |arrived| && checked == arrived[..|checked|]
    ensures checked != arrived ==> !GoesOn(policy, checked, bufferBytes, world)
    ensures Decided(end) ==> checked == arrived || !Held(policy, checked, bufferBytes)
  {
    hide Run;
    hide FinishStream;
    hide EventBytes;
    hide Fitting;
  }

  lemma SameReason(policy: Policy, end: StreamEnd, error: Option<GatewayError>, sent: seq<Byte>, broken: bool,
                   end': StreamEnd, error': Option<GatewayError>, sent': seq<Byte>, broken': bool,
                   checked: seq<seq<Byte>>, arrived: seq<seq<Byte>>, bufferBytes: nat, world: World, failMode: FailMode)
    requires Justified(policy, end, error, sent, broken, checked, arrived, bufferBytes, world) && InMode(end, failMode)
    requires Justified(policy, end', error', sent', broken', checked, arrived, bufferBytes, world) && InMode(end', failMode)
    ensures end == end' && (end.FailedOpen? || broken == broken')
  {
    hide Run;
    hide FinishStream;
    hide EventBytes;
    hide Fitting;
    hide Writes;
  }

  /**
   The end is determined: two forwardings of the same reads in the same world
   end alike, after the same number of checks, whatever else they do.
   */
  lemma EndIsDetermined(policy: Policy, arrived: seq<seq<Byte>>, bufferBytes: nat, world: World, failMode: FailMode,
                        end: StreamEnd, error: Option<GatewayError>, sent: seq<Byte>, broken: bool, checked: seq<seq<Byte>>,
                        end': StreamEnd, error': Option<GatewayError>, sent': seq<Byte>, broken': bool, checked': seq<seq<Byte>>)
    requires Justified(policy, end, error, sent, broken, checked, arrived, bufferBytes, world) && InMode(end, failMode)
    requires Justified(policy, end', error', sent', broken', checked', arrived, bufferBytes, world) && InMode(end', failMode)
    ensures end == end' && checked == checked' && (end.FailedOpen? || broken == broken')
  {
    hide GoesOn;
    hide Held;
    hide Justified;
    StopsHere(policy, end, error, sent, broken, checked, arrived, bufferBytes, world);
    StopsHere(policy, end', error', sent', broken', checked', arrived, bufferBytes, world);
    if |checked| < |checked'| {
      WentOn(policy, end', error', sent', broken', checked', arrived, bufferBytes, world, |checked|);
    } else if |checked'| < |checked| {
      WentOn(policy, end, error, sent, broken, checked, arrived, bufferBytes, world, |checked'|);
    } else {
      SameReason(policy, end, error, sent, broken, end', error', sent', broken', checked, arrived, bufferBytes, world, failMode);
    }
  }

  /** A verdict or a full buffer is a matter of the reads alone: it is the same in every world that gets to one. */
  lemma VerdictIsDetermined(policy: Policy, arrived: seq<seq<Byte>>, bufferBytes: nat,
                            world: World, end: StreamEnd, error: Option<GatewayError>, sent: seq<Byte>, broken: bool,
                            checked: seq<seq<Byte>>,
                            world': World, end': StreamEnd, error': Option<GatewayError>, sent': seq<Byte>, broken': bool,
                            checked': seq<seq<Byte>>)
    requires Decided(end) && Justified(policy, end, error, sent, broken, checked, arrived, bufferBytes, world)
    requires Decided(end') && Justified(policy, end', error', sent', broken', checked', arrived, bufferBytes, world')
    ensures end == end' && checked == checked'
  {
    hide Held;
    hide Justified;
    StopsHere(policy, end, error, sent, broken, checked, arrived, bufferBytes, world);
    StopsHere(policy, end', error', sent', broken', checked', arrived, bufferBytes, world');
    if |checked| < |checked'| {
      WentOn(policy, end', error', sent', broken', checked', arrived, bufferBytes, world', |checked|);
    } else if |checked'| < |checked| {
      WentOn(policy, end, error, sent, broken, checked, arrived, bufferBytes, world, |checked'|);
    } else {
      SameVerdict(policy, end, error, sent, broken, checked, arrived, bufferBytes, world, world', end', error', sent', broken');
    }
  }

  lemma SameVerdict(policy: Policy, end: StreamEnd, error: Option<GatewayError>, sent: seq<Byte>, broken: bool,
                    checked: seq<seq<Byte>>, arrived: seq<seq<Byte>>, bufferBytes: nat, world: World, world': World,
                    end': StreamEnd, error': Option<GatewayError>, sent': seq<Byte>, broken': bool)
    requires Decided(end) && Justified(policy, end, error, sent, broken, checked, arrived, bufferBytes, world)
    requires Decided(end') && Justified(policy, end', error', sent', broken', checked, arrived, bufferBytes, world')
    ensures end == end'
  {
    hide Run;
    hide FinishStream;
    hide Fitting;
    hide Writes;
    hide EventBytes;
  }

  /** The policy allows the whole response, and the buffer never overflows on the way. */
  ghost predicate Passes(policy: Policy, arrived: seq<seq<Byte>>, bufferBytes: nat) {
    Fitting(policy, arrived, bufferBytes) && Held(policy, arrived, bufferBytes) &&
    FinishStream(Run(policy, arrived).0).0.terminal.None?
  }

  /**
   Where nothing fails the client has the whole response, if and only if the
   policy allows it and the buffer holds it; else a verdict or the full buffer ended it.
   */
  lemma UndisturbedIff(policy: Policy, end: StreamEnd, error: Option<GatewayError>, sent: seq<Byte>, broken: bool,
                       checked: seq<seq<Byte>>, arrived: seq<seq<Byte>>, bufferBytes: nat, world: World)
    requires Justified(policy, end, error, sent, broken, checked, arrived, bufferBytes, world)
    requires forall k :: world.fates(k).Delivered? && world.cuts(k).None?
    ensures Decided(end) && !broken && (end.Complete? <==> Passes(policy, arrived, bufferBytes))
    ensures end.Complete? <==> Presentable(policy, arrived, bufferBytes)
  {
    hide Presentable;
    PassesIff(policy, arrived, bufferBytes);
    hide Held;
    hide FinishStream;
    hide EventBytes;
    hide Run;
    StopsHere(policy, end, error, sent, broken, checked, arrived, bufferBytes, world);
    if Passes(policy, arrived, bufferBytes) {
      PassesHeld(policy, arrived, bufferBytes, |checked|);
    }
    if checked == arrived {
      AtTheEnd(policy, end, error, sent, broken, arrived, bufferBytes, world);
    }
  }

  lemma PassesHeld(policy: Policy, arrived: seq<seq<Byte>>, bufferBytes: nat, k: nat)
    requires Passes(policy, arrived, bufferBytes) && k <= |arrived|
    ensures Held(policy, arrived[..k], bufferBytes)
  {
    hide Held;
    assert arrived[..|arrived|] == arrived;
  }

  lemma AtTheEnd(policy: Policy, end: StreamEnd, error: Option<GatewayError>, sent: seq<Byte>, broken: bool,
                 arrived: seq<seq<Byte>>, bufferBytes: nat, world: World)
    requires Justified(policy, end, error, sent, broken, arrived, arrived, bufferBytes, world)
    requires world.fates(|arrived|).Delivered? && forall k :: world.cuts(k).None?
    ensures end.Complete? <==> Passes(policy, arrived, bufferBytes)
  {
    hide FinishStream;
    hide EventBytes;
    hide Run;
    hide Writes;
  }

  /** Tab, line feed, form feed, carriage return and space. */
  const BLANKS: set<Byte> := {9, 10, 12, 13, 32}

  /** A response that passes, told from its bytes: nothing offends, the done mark is there, and what is left is blank. */
  ghost predicate Presentable(policy: Policy, arrived: seq<seq<Byte>>, bufferBytes: nat) {
    var cut := SplitChunks(arrived);
    && AtMostU64(|Joined(arrived)|) <= policy.maxResponseBytes
    && Spotless(policy, cut.events) && MarkedBefore(cut.events, |cut.events|)
    && (forall c :: c in cut.tail ==> c in BLANKS)
    && (forall k :: 0 <= k <= |arrived| ==> |SplitChunks(arrived[..k]).tail| <= bufferBytes)
  }

  lemma {:induction false} AllowedBefore(policy: Policy, chunks: seq<seq<Byte>>, k: nat)
    requires Run(policy, chunks).0.terminal.None? && k <= |chunks|
    ensures Run(policy, chunks[..k]).0.terminal.None?
  {
    if k == |chunks| {
      assert chunks[..k] == chunks;
    } else {
      var init := chunks[..|chunks| - 1];
      AllowedBefore(policy, init, k);
      assert init[..k] == chunks[..k];
    }
  }

  lemma HeldIff(policy: Policy, chunks: seq<seq<Byte>>, bufferBytes: nat)
    requires Run(policy, chunks).0.terminal.None?
    ensures Held(policy, chunks, bufferBytes) <==> |SplitChunks(chunks).tail| <= bufferBytes
    ensures Run(policy, chunks).0.pending == SplitChunks(chunks).tail
  {
    hide Run;
    hide SplitChunks;
    hide JudgeAll;
    RunIsCutAndJudge(policy, chunks);
  }

  lemma PassesIff(policy: Policy, arrived: seq<seq<Byte>>, bufferBytes: nat)
    ensures Passes(policy, arrived, bufferBytes) <==> Presentable(policy, arrived, bufferBytes)
  {
    hide Run;
    hide SplitChunks;
    hide Spotless;
    hide MarkedBefore;
    hide Held;
    hide AtMostU64;
    AllowedIff(policy, arrived);
    var s := Run(policy, arrived).0;
    assert Passes(policy, arrived, bufferBytes) ==> s.terminal.None? by {
      HeldAllows(policy, arrived, bufferBytes);
    }
    if s.terminal.None? {
      HeldIff(policy, arrived, bufferBytes);
      BlankTail(s.pending);
      assert arrived[..|arrived|] == arrived;
      forall k | 0 <= k <= |arrived|
        ensures Held(policy, arrived[..k], bufferBytes) <==> |SplitChunks(arrived[..k]).tail| <= bufferBytes
      {
        AllowedBefore(policy, arrived, k);
        HeldIff(policy, arrived[..k], bufferBytes);
      }
    }
  }

  lemma HeldAllows(policy: Policy, chunks: seq<seq<Byte>>, bufferBytes: nat)
    ensures Held(policy, chunks, bufferBytes) ==> Run(policy, chunks).0.terminal.None?
  {
  }

  lemma BlankTail(tail: seq<Byte>)
    ensures (forall c :: c in tail ==> Whitespace(c)) <==> (forall c :: c in tail ==> c in BLANKS)
  {
    forall c: Byte ensures Whitespace(c) <==> c in BLANKS {
    }
  }

  method ForwardStream(writer: ResponseWriter, body: BackendBody, session: StreamSession?, failMode: FailMode,
                       okStatus: nat, bufferBytes: nat, chunkBytes: nat, world: World)
    returns (end: StreamEnd, ghost checked: seq<seq<Byte>>)
    requires writer.body == [] && !writer.broken && writer.status.None? && writer.error.None?
    requires body.Within(chunkBytes)
    modifies writer, body, if session == null then {} else {session, session.task, session.task.inspector}
    ensures Settled(writer, end, failMode, okStatus, old(BytesOf(body.remaining)))
    ensures session != null && old(Genuine(session, body, world)) ==>
              Justified(session.task.inspector.policy, end, writer.error, writer.body, writer.broken, checked,
                        old(Reads(body.remaining)), bufferBytes, world)
    ensures writer.broken ==> CutFrom(world, 0)
  {
    if session == null {
      checked := [];
      writer.WriteHeader(okStatus);
      ghost var whole := BytesOf(body.remaining);
      Copy(writer, body, world, 0);
      NilUnit(whole);
      end := Unchecked;
    } else {
      end, checked := ForwardChecked(writer, body, session, failMode, okStatus, bufferBytes, chunkBytes, world);
    }
  }

  method ForwardChecked(writer: ResponseWriter, body: BackendBody, session: StreamSession, failMode: FailMode,
                        okStatus: nat, bufferBytes: nat, chunkBytes: nat, world: World)
    returns (end: StreamEnd, ghost checked: seq<seq<Byte>>)
    requires writer.body == [] && !writer.broken && writer.status.None? && writer.error.None?
    requires body.Within(chunkBytes)
    modifies writer, body, session, session.task, session.task.inspector
    ensures Settled(writer, end, failMode, okStatus, old(BytesOf(body.remaining)))
    ensures old(Genuine(session, body, world)) ==>
              Justified(session.task.inspector.policy, end, writer.error, writer.body, writer.broken, checked,
                        old(Reads(body.remaining)), bufferBytes, world)
    ensures writer.broken ==> CutFrom(world, 0)
  {
    hide Run;
    hide SplitChunks;
    hide Justified;
    hide Fitting;
    hide BytesOf;
    hide Reads;
    hide Settled;
    ghost var whole, arrived := BytesOf(body.remaining), Reads(body.remaining);
    ghost var genuine := Genuine(session, body, world);
    ReadsJoin(body.remaining);
    NothingChecked(session.task.inspector.policy, bufferBytes);
    checked := [];
    var pending: seq<Byte> := [];
    var started, trips, writes := false, 0, 0;
    var last := false;
    NilUnit(whole);
    NilUnit(arrived);
    while !last
      invariant Flowing(writer, pending, BytesOf(body.remaining), whole, started, okStatus)
      invariant |pending| <= bufferBytes && body.Within(chunkBytes)
      invariant last ==> body.remaining == []
      invariant genuine ==>
                  && Mirrors(session, pending, writer.body, checked) && Honest(world)
                  && Fitting(session.task.inspector.policy, checked, bufferBytes)
                  && checked + Reads(body.remaining) == arrived && trips == |checked| && Answered(world, trips)
                  && writes == Writes(checked) && Unbroken(world, writes)
      invariant genuine && !last ==> session.sequence + |body.remaining| < U64_MAX
      decreases !last, |body.remaining|
    {
      var bytes;
      ghost var before := pending;
      bytes, last := body.Next();
      AppendWithin(writer.body, before, bytes, BytesOf(body.remaining), whole);
      if bytes != [] {
        var stop: Option<StreamEnd>;
        ghost var sofar := checked;
        Assoc(checked, [bytes], Reads(body.remaining));
        stop, pending, started, writes, checked := ForwardChunk(writer, body, session, failMode, okStatus, bufferBytes,
          chunkBytes, world, trips, writes, bytes, pending, started, checked, arrived, whole, genuine);
        trips := trips + 1;
        if stop.Some? {
          return stop.value, checked;
        }
      } else {
        NilUnit(before);
        NilUnit(Reads(body.remaining));
      }
    }
    NilUnit(pending);
    NilUnit(checked);
    end := CloseStream(writer, session, failMode, started, pending, okStatus, bufferBytes, world, trips, writes, checked, whole);
  }

  lemma FailedIsJustified(policy: Policy, end: StreamEnd, error: Option<GatewayError>, sent: seq<Byte>, broken: bool,
                          checked: seq<seq<Byte>>, arrived: seq<seq<Byte>>, bufferBytes: nat, world: World)
    requires checked <= arrived && Fitting(policy, checked, bufferBytes) && Held(policy, checked, bufferBytes)
    requires Answered(world, |checked|) && TripFails(world, checked, arrived) && Unbroken(world, Writes(checked))
    requires end.FailedOpen? || (if checked == arrived then end.Unclosed? else end.FailedClosed?)
    requires if end.FailedOpen? then EventBytes(checked) <= sent && (broken ==> CutFrom(world, Writes(checked)))
             else sent == EventBytes(checked) && !broken
    ensures Justified(policy, end, error, sent, broken, checked, arrived, bufferBytes, world)
  {
    hide Run;
    hide EventBytes;
    hide FinishStream;
    hide Fitting;
    hide Writes;
  }

  lemma RefusedIsJustified(policy: Policy, error: Option<GatewayError>, sent: seq<Byte>, checked: seq<seq<Byte>>,
                           bytes: seq<Byte>, arrived: seq<seq<Byte>>, bufferBytes: nat, world: World)
    requires checked + [bytes] <= arrived && Fitting(policy, checked + [bytes], bufferBytes)
    requires Run(policy, checked + [bytes]).0.terminal.Some? && sent == EventBytes(checked)
    requires RefusedWith(error, Run(policy, checked + [bytes]).0.terminal)
    requires Answered(world, |checked| + 1) && Unbroken(world, Writes(checked))
    ensures Justified(policy, Refused, error, sent, false, checked + [bytes], arrived, bufferBytes, world)
  {
    hide Run;
    hide EventBytes;
    hide FinishStream;
    hide Fitting;
    hide Writes;
    SnocInit(checked, bytes);
  }

  lemma StoppedIsJustified(policy: Policy, end: StreamEnd, error: Option<GatewayError>, sent: seq<Byte>, broken: bool,
                           checked: seq<seq<Byte>>, bytes: seq<Byte>, arrived: seq<seq<Byte>>, bufferBytes: nat, world: World)
    requires var more := checked + [bytes];
             && more <= arrived && Fitting(policy, more, bufferBytes) && Run(policy, more).0.terminal.None?
             && Answered(world, |more|) && sent <= EventBytes(more) && (broken || sent == EventBytes(more))
             && (if end.WriteFailed? then
                   broken && Writes(more) == Writes(checked) + 1 && world.cuts(Writes(checked)).Some? && Unbroken(world, Writes(checked))
                 else
                   end.BufferExceeded? && |Run(policy, more).0.pending| > bufferBytes && !broken && Unbroken(world, Writes(more)))
    ensures Justified(policy, end, error, sent, broken, checked + [bytes], arrived, bufferBytes, world)
  {
    hide Run;
    hide EventBytes;
    hide FinishStream;
    hide Fitting;
    hide Writes;
    SnocInit(checked, bytes);
  }

  lemma WritesMore(checked: seq<seq<Byte>>, bytes: seq<Byte>, release: seq<Byte>)
    requires EventBytes(checked + [bytes]) == EventBytes(checked) + release
    ensures Writes(checked + [bytes]) == Writes(checked) + if release == [] then 0 else 1
  {
    hide EventBytes;
    SnocInit(checked, bytes);
  }

  /** One read with bytes in it: check, release, keep the rest. `stop` ends the forwarding. */
  method ForwardChunk(writer: ResponseWriter, body: BackendBody, session: StreamSession, failMode: FailMode,
                      okStatus: nat, bufferBytes: nat, ghost chunkBytes: nat, world: World, trips: nat, writes: nat,
                      bytes: seq<Byte>, pending: seq<Byte>, started: bool, ghost checked: seq<seq<Byte>>,
                      ghost arrived: seq<seq<Byte>>, ghost whole: seq<Byte>, ghost genuine: bool)
    returns (stop: Option<StreamEnd>, pending': seq<Byte>, started': bool, writes': nat, ghost checked': seq<seq<Byte>>)
    requires |pending + bytes| <= bufferBytes + chunkBytes && |pending| <= bufferBytes
    requires Flowing(writer, pending + bytes, BytesOf(body.remaining), whole, started, okStatus)
    requires genuine ==> Mirrors(session, pending, writer.body, checked) && Honest(world) && session.sequence < U64_MAX
    requires genuine ==> Fitting(session.task.inspector.policy, checked, bufferBytes) && checked + [bytes] <= arrived && trips == |checked|
    requires genuine ==> Answered(world, trips) && writes == Writes(checked) && Unbroken(world, writes)
    modifies writer, body, session, session.task, session.task.inspector
    ensures stop.Some? ==> Settled(writer, stop.value, failMode, okStatus, whole) && !stop.value.Complete?
    ensures stop.Some? && genuine ==>
              Justified(session.task.inspector.policy, stop.value, writer.error, writer.body, writer.broken, checked',
                        arrived, bufferBytes, world)
    ensures writer.broken ==> CutFrom(world, 0)
    ensures stop.None? && genuine ==> Answered(world, trips + 1) && writes' == Writes(checked') && Unbroken(world, writes')
    ensures stop.None? ==> Flowing(writer, pending', BytesOf(body.remaining), whole, started', okStatus)
    ensures stop.None? ==> body.remaining == old(body.remaining) && |pending'| <= bufferBytes
    ensures stop.None? && genuine ==>
              && checked' == checked + [bytes] && Fitting(session.task.inspector.policy, checked', bufferBytes)
              && Mirrors(session, pending', writer.body, checked') && session.sequence == old(session.sequence) + 1
  {
    hide InspectChunk;
    hide Run;
    hide SplitChunks;
    hide FinishStream;
    hide EventBytes;
    hide BytesOf;
    hide Fitting;
    hide Justified;
    hide Writes;
    hide Settled;
    hide Answered;
    hide Unbroken;
    hide CutFrom;
    var buffer := pending + bytes;
    AnsweredMore(world, trips);
    UnbrokenMore(world, writes);
    ghost var rest, policy := BytesOf(body.remaining), session.task.inspector.policy;
    ghost var sent := writer.body;
    pending', started', writes', checked' := buffer, started, writes, checked;
    DropPrefix(sent, buffer + rest);
    NilUnit(buffer + rest);
    if genuine {
      RunMore(policy, checked, bytes);
      FittingMore(policy, checked, bytes, bufferBytes);
      PrefixOfMore(checked, bytes, arrived);
    }
    var reply := session.Check(bytes, world.fates(trips));
    if reply.Err? || reply.value.result.value.decision.RetryableFailure? {
      var end := CheckFailed(writer, body, failMode, started, buffer, okStatus, world, writes, whole);
      if genuine {
        assert checked != arrived;
        FailedIsJustified(policy, end, writer.error, writer.body, writer.broken, checked, arrived, bufferBytes, world);
      }
      return Some(end), buffer, started, writes, checked;
    }
    var response := reply.value;
    checked' := checked + [bytes];
    if !response.result.value.decision.Allow? {
      Tell(writer, Refused, 403, PolicyRefused(response.result.value.error), started, failMode, okStatus, buffer + rest, whole);
      if genuine {
        RefusedIsJustified(policy, writer.error, sent, checked, bytes, arrived, bufferBytes, world);
      }
      return Some(Refused), buffer, started, writes, checked';
    }
    if genuine {
      AllowedChunk(policy, checked, bytes);
      WritesMore(checked, bytes, buffer[..response.releaseBytes]);
    }
    if response.releaseBytes > |buffer| {
      Tell(writer, ProtocolError, 502, PolicyProtocolError, started, failMode, okStatus, buffer + rest, whole);
      return Some(ProtocolError), buffer, started, writes, checked';
    }
    var release := response.releaseBytes;
    pending' := buffer[release..];
    stop, started' := SendReleased(writer, buffer, release, bufferBytes, failMode, okStatus, world.cuts(writes), started, rest, whole);
    writes' := if release > 0 then writes + 1 else writes;
    if stop.Some? && genuine {
      StoppedIsJustified(policy, stop.value, writer.error, writer.body, writer.broken, checked, bytes, arrived, bufferBytes, world);
    }
  }

  lemma PrefixOfMore(checked: seq<seq<Byte>>, bytes: seq<Byte>, arrived: seq<seq<Byte>>)
    requires checked + [bytes] <= arrived
    ensures checked <= arrived
  {
  }

  /** Before anything was sent the client is told; then there is nothing more to say. */
  method Tell(writer: ResponseWriter, ghost end: StreamEnd, code: nat, kind: GatewayError, started: bool,
              ghost failMode: FailMode, ghost okStatus: nat, ghost waiting: seq<Byte>, ghost whole: seq<Byte>)
    requires Flowing(writer, waiting, [], whole, started, okStatus) && InMode(end, failMode)
    requires (end.Refused? && code == 403 && kind.PolicyRefused?) ||
             (end.ProtocolError? && code == 502 && kind.PolicyProtocolError?)
    modifies writer`status, writer`error
    ensures Settled(writer, end, failMode, okStatus, whole) && (writer.error.Some? ==> writer.error == Some(kind))
  {
    NilUnit(waiting);
    DropPrefix(writer.body, waiting);
    if !started {
      writer.WriteError(code, kind);
    }
  }

  /** Send the released front of the buffer and see whether the rest still fits. */
  method SendReleased(writer: ResponseWriter, buffer: seq<Byte>, release: nat, bufferBytes: nat, ghost failMode: FailMode,
                      okStatus: nat, cut: Option<nat>, started: bool, ghost rest: seq<Byte>, ghost whole: seq<Byte>)
    returns (stop: Option<StreamEnd>, started': bool)
    requires release <= |buffer| && Flowing(writer, buffer, rest, whole, started, okStatus)
    modifies writer
    ensures writer.broken == (release > 0 && cut.Some?)
    ensures stop == if writer.broken then Some(WriteFailed)
                    else if |buffer[release..]| > bufferBytes then Some(BufferExceeded) else None
    ensures stop.Some? ==> Settled(writer, stop.value, failMode, okStatus, whole)
    ensures writer.body <= old(writer.body) + buffer[..release]
    ensures !writer.broken ==> writer.body == old(writer.body) + buffer[..release]
    ensures stop.None? ==> Flowing(writer, buffer[release..], rest, whole, started', okStatus)
  {
    var ok;
    ok, started' := Release(writer, buffer, release, okStatus, cut, started, rest, whole);
    if !ok {
      return Some(WriteFailed), started';
    }
    stop := None;
    if |buffer[release..]| > bufferBytes {
      if !started' {
        writer.WriteError(502, BufferFull);
      }
      stop := Some(BufferExceeded);
    }
  }

  /** Send the released front of the buffer. */
  method Release(writer: ResponseWriter, buffer: seq<Byte>, release: nat, okStatus: nat, cut: Option<nat>,
                 started: bool, ghost rest: seq<Byte>, ghost whole: seq<Byte>)
    returns (ok: bool, started': bool)
    requires release <= |buffer| && Flowing(writer, buffer, rest, whole, started, okStatus)
    modifies writer
    ensures writer.error.None? && writer.body <= whole && writer.body <= old(writer.body) + buffer[..release]
    ensures writer.status == (if writer.broken || writer.body != [] then Some(okStatus) else None)
    ensures writer.broken == (release > 0 && cut.Some?)
    ensures ok == !writer.broken && (ok ==> writer.body == old(writer.body) + buffer[..release])
    ensures ok ==> Flowing(writer, buffer[release..], rest, whole, started', okStatus)
  {
    started', ok := started, true;
    SentMore(writer.body, buffer, release, rest);
    DropPrefix(writer.body + buffer[..release], buffer[release..] + rest);
    NilUnit(writer.body);
    if release > 0 {
      if !started {
        writer.WriteHeader(okStatus);
        started' := true;
      }
      ok := writer.Write(buffer[..release], cut);
    }
  }

  ghost predicate OnlyBlankAfter(prefix: seq<Byte>, all: seq<Byte>) {
    prefix <= all && forall c :: c in all[|prefix|..] ==> Whitespace(c)
  }

  lemma AppendWithin(sent: seq<Byte>, before: seq<Byte>, bytes: seq<Byte>, rest: seq<Byte>, whole: seq<Byte>)
    requires sent + (before + (bytes + rest)) == whole
    ensures sent + ((before + bytes) + rest) == whole
  {
    Assoc(before, bytes, rest);
  }

  lemma SentMore(sent: seq<Byte>, pending: seq<Byte>, release: nat, rest: seq<Byte>)
    requires release <= |pending|
    ensures (sent + pending[..release]) + (pending[release..] + rest) == sent + (pending + rest)
  {
    TakeDrop(pending, release);
    Assoc(pending[..release], pending[release..], rest);
    Assoc(sent, pending[..release], pending[release..] + rest);
  }

  /** The check itself failed: fail open by sending everything, or stop. */
  method CheckFailed(writer: ResponseWriter, body: BackendBody, failMode: FailMode, started: bool, pending: seq<Byte>,
                     okStatus: nat, world: World, writes: nat, ghost whole: seq<Byte>)
    returns (end: StreamEnd)
    requires Flowing(writer, pending, BytesOf(body.remaining), whole, started, okStatus)
    modifies writer, body
    ensures Settled(writer, end, failMode, okStatus, whole)
    ensures end == if failMode.FailOpen? then FailedOpen else FailedClosed
    ensures failMode.FailClosed? ==> writer.body == old(writer.body) && !writer.broken
    ensures old(writer.body) <= writer.body && (writer.broken ==> CutFrom(world, writes))
  {
    if failMode.FailOpen? {
      if !started {
        writer.WriteHeader(okStatus);
      }
      ghost var sent := writer.body;
      Assoc(sent, pending, BytesOf(body.remaining));
      var _ := writer.Write(pending, world.cuts(writes));
      ghost var now := writer.body;
      Copy(writer, body, world, writes + 1);
      return FailedOpen;
    }
    if !started {
      writer.WriteError(503, PolicyUnavailable);
    }
    return FailedClosed;
  }

  /** The end of the backend body: close the session, send what it still releases. */
  method CloseStream(writer: ResponseWriter, session: StreamSession, failMode: FailMode, started: bool,
                     pending: seq<Byte>, okStatus: nat, ghost bufferBytes: nat, world: World, trips: nat, writes: nat,
                     ghost arrived: seq<seq<Byte>>, ghost whole: seq<Byte>)
    returns (end: StreamEnd)
    requires Flowing(writer, pending, [], whole, started, okStatus) && |pending| <= bufferBytes
    modifies writer, session, session.task, session.task.inspector
    ensures Settled(writer, end, failMode, okStatus, whole) && (writer.broken ==> CutFrom(world, 0))
    ensures old(Closing(session, pending, writer.body, arrived, whole, bufferBytes, world, trips, writes)) ==>
              Justified(session.task.inspector.policy, end, writer.error, writer.body, writer.broken, arrived, arrived,
                        bufferBytes, world)
  {
    hide Run;
    hide EventBytes;
    hide Fitting;
    hide Justified;
    hide FinishStream;
    hide Writes;
    hide Settled;
    ghost var sent, policy := writer.body, session.task.inspector.policy;
    ghost var genuine := Closing(session, pending, sent, arrived, whole, bufferBytes, world, trips, writes);
    NilUnit(pending);
    DropPrefix(sent, pending);
    var reply := session.Close(world.fates(trips));
    if reply.Err? || reply.value.result.value.decision.RetryableFailure? {
      end := CloseFailed(writer, failMode, started, pending, okStatus, world, writes, whole);
      if genuine {
        FailedIsJustified(policy, end, writer.error, writer.body, writer.broken, arrived, arrived, bufferBytes, world);
      }
      return;
    }
    var response := reply.value;
    if !response.result.value.decision.Allow? {
      Tell(writer, Refused, 403, PolicyRefused(response.result.value.error), started, failMode, okStatus, pending, whole);
      if genuine {
        RefusedAtClose(policy, writer.error, sent, arrived, bufferBytes, world);
      }
      return Refused;
    }
    if genuine {
      AllowedClose(policy, arrived, sent, pending);
    }
    if response.releaseBytes > |pending| {
      Tell(writer, ProtocolError, 502, PolicyProtocolError, started, failMode, okStatus, pending, whole);
      return ProtocolError;
    }
    end := ReleaseLast(writer, failMode, started, pending, response.releaseBytes, okStatus, world.cuts(writes), whole);
    if genuine {
      CompleteIsJustified(policy, writer.error, writer.body, writer.broken, arrived, bufferBytes, world);
    }
  }

  ghost predicate Closing(session: StreamSession, pending: seq<Byte>, sent: seq<Byte>, arrived: seq<seq<Byte>>,
                          whole: seq<Byte>, bufferBytes: nat, world: World, trips: nat, writes: nat)
    reads session, session.task, session.task.inspector
  {
    && Mirrors(session, pending, sent, arrived) && Honest(world) && Joined(arrived) == whole && trips == |arrived|
    && Fitting(session.task.inspector.policy, arrived, bufferBytes)
    && Answered(world, trips) && writes == Writes(arrived) && Unbroken(world, writes)
  }

  lemma RefusedAtClose(policy: Policy, error: Option<GatewayError>, sent: seq<Byte>, arrived: seq<seq<Byte>>,
                       bufferBytes: nat, world: World)
    requires Fitting(policy, arrived, bufferBytes) && Held(policy, arrived, bufferBytes) && sent == EventBytes(arrived)
    requires FinishStream(Run(policy, arrived).0).0.terminal.Some?
    requires RefusedWith(error, FinishStream(Run(policy, arrived).0).0.terminal)
    requires Answered(world, |arrived|) && world.fates(|arrived|).Delivered? && Unbroken(world, Writes(arrived))
    ensures Justified(policy, Refused, error, sent, false, arrived, arrived, bufferBytes, world)
  {
    hide Run;
    hide EventBytes;
    hide FinishStream;
    hide Fitting;
    hide Writes;
  }

  /** An allowed close releases all that waits, and that is blank. */
  lemma AllowedClose(policy: Policy, arrived: seq<seq<Byte>>, sent: seq<Byte>, pending: seq<Byte>)
    requires var s := Run(policy, arrived).0; s.terminal.None? && s.pending == pending
    requires sent == EventBytes(arrived) && sent + pending == Joined(arrived)
    requires FinishStream(Run(policy, arrived).0).0.terminal.None?
    ensures FinishStream(Run(policy, arrived).0).1 == |pending| && OnlyBlankAfter(EventBytes(arrived), Joined(arrived))
  {
    hide Run;
    hide EventBytes;
    DropPrefix(sent, pending);
  }

  lemma CompleteIsJustified(policy: Policy, error: Option<GatewayError>, sent: seq<Byte>, broken: bool,
                            arrived: seq<seq<Byte>>, bufferBytes: nat, world: World)
    requires Fitting(policy, arrived, bufferBytes) && Held(policy, arrived, bufferBytes)
    requires EventBytes(arrived) <= sent && OnlyBlankAfter(EventBytes(arrived), Joined(arrived))
    requires FinishStream(Run(policy, arrived).0).0.terminal.None?
    requires Answered(world, |arrived|) && world.fates(|arrived|).Delivered? && Unbroken(world, Writes(arrived))
    requires broken == (Run(policy, arrived).0.pending != [] && world.cuts(Writes(arrived)).Some?)
    ensures Justified(policy, Complete, error, sent, broken, arrived, arrived, bufferBytes, world)
  {
    hide Run;
    hide EventBytes;
    hide FinishStream;
    hide Fitting;
    hide Writes;
  }

  /** The close itself failed: fail open by sending the rest, or stop. */
  method CloseFailed(writer: ResponseWriter, failMode: FailMode, started: bool, pending: seq<Byte>, okStatus: nat,
                     world: World, writes: nat, ghost whole: seq<Byte>)
    returns (end: StreamEnd)
    requires Flowing(writer, pending, [], whole, started, okStatus)
    modifies writer
    ensures Settled(writer, end, failMode, okStatus, whole)
    ensures end == if failMode.FailOpen? then FailedOpen else Unclosed
    ensures failMode.FailClosed? ==> writer.body == old(writer.body) && !writer.broken
    ensures old(writer.body) <= writer.body && (writer.broken ==> CutFrom(world, writes))
  {
    NilUnit(pending);
    DropPrefix(writer.body, pending);
    if failMode.FailOpen? {
      if !started {
        writer.WriteHeader(okStatus);
      }
      var _ := writer.Write(pending, world.cuts(writes));
      return FailedOpen;
    }
    if !started {
      writer.WriteError(502, GatewayError.Incomplete);
    }
    return Unclosed;
  }

  /** The last release completes the response; what is not released is an error. */
  method ReleaseLast(writer: ResponseWriter, ghost failMode: FailMode, started: bool, pending: seq<Byte>, release: nat,
                     okStatus: nat, cut: Option<nat>, ghost whole: seq<Byte>)
    returns (end: StreamEnd)
    requires Flowing(writer, pending, [], whole, started, okStatus) && release <= |pending|
    modifies writer
    ensures Settled(writer, end, failMode, okStatus, whole)
    ensures end == if release == |pending| then Complete else ProtocolError
    ensures old(writer.body) <= writer.body && writer.broken == (release > 0 && cut.Some?)
  {
    ghost var sent := writer.body;
    NilUnit(pending);
    NilUnit(sent);
    DropPrefix(sent, pending);
    assert pending[..|pending|] == pending;
    var begun := started;
    if release > 0 {
      if !begun {
        writer.WriteHeader(okStatus);
        begun := true;
      }
      var _ := writer.Write(pending[..release], cut);
    }
    if pending[release..] != [] {
      if !begun {
        writer.WriteError(502, PolicyProtocolError);
      }
      return ProtocolError;
    }
    if !begun {
      writer.WriteHeader(okStatus);
    }
    return Complete;
  }
}
