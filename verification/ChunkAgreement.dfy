/**
 When the inspector's verdict depends on how the bytes arrive: exactly for the
 byte strings that mix terminators and that some policy accepts in some chunks.
 */
module ChunkAgreement {
  import opened Common
  import opened SseEvents
  import opened StreamInspection
  import opened MixedTerminators

  /** Refuses nothing but what follows a done mark. */
  const LENIENT := Policy(_ => true, _ => Clean(0), 0, U64_MAX)

  ghost predicate Legal(events: seq<seq<Byte>>) {
    JudgeAll(LENIENT, START.progress, events).error.None?
  }

  /** Some way to deliver the bytes is accepted by some policy. */
  ghost predicate SomeLegal(b: seq<Byte>) {
    exists chunks :: Joined(chunks) == b && Legal(SplitChunks(chunks).events)
  }

  ghost predicate Agree(policy: Policy, left: seq<seq<Byte>>, right: seq<seq<Byte>>) {
    (Run(policy, left).0.terminal.Some? <==> Run(policy, right).0.terminal.Some?) &&
    (Run(policy, left).0.terminal.None? ==> Run(policy, left) == Run(policy, right))
  }

  ghost predicate AlwaysAgree(b: seq<Byte>) {
    forall policy, left, right :: Joined(left) == b && Joined(right) == b ==> Agree(policy, left, right)
  }

  // ---- what policies accept ----

  lemma {:induction false} LenientAccepts(policy: Policy, p: Progress, q: Progress, events: seq<seq<Byte>>)
    requires p.sawDone == q.sawDone && JudgeAll(policy, p, events).error.None?
    ensures JudgeAll(LENIENT, q, events).error.None?
    decreases |events|
  {
    if events != [] {
      LenientAccepts(policy, Judge(policy, p, events[0]).progress, Judge(LENIENT, q, events[0]).progress, events[1..]);
    }
  }

  /** Accepts the events of one cut, and no other. */
  function Only(accepted: seq<seq<Byte>>): Policy {
    LENIENT.(isUtf8 := (event: seq<Byte>) => event in accepted)
  }

  lemma {:induction false} OnlyAccepts(accepted: seq<seq<Byte>>, p: Progress, events: seq<seq<Byte>>)
    requires forall event :: event in events ==> event in accepted
    ensures JudgeAll(Only(accepted), p, events) == JudgeAll(LENIENT, p, events)
    decreases |events|
  {
    hide EventData;
    if events != [] {
      HeadAndTail(events);
      assert Judge(Only(accepted), p, events[0]) == Judge(LENIENT, p, events[0]);
      OnlyAccepts(accepted, Judge(LENIENT, p, events[0]).progress, events[1..]);
    }
  }

  lemma {:induction false} StrangerRefused(policy: Policy, p: Progress, events: seq<seq<Byte>>, event: seq<Byte>)
    requires event in events && !policy.isUtf8(event)
    ensures JudgeAll(policy, p, events).error.Some?
    decreases |events|
  {
    hide EventData;
    if events[0] != event {
      assert event in events[1..];
      StrangerRefused(policy, Judge(policy, p, events[0]).progress, events[1..], event);
    }
  }

  lemma RunRefusedIff(policy: Policy, chunks: seq<seq<Byte>>)
    requires policy.maxResponseBytes == U64_MAX
    ensures Run(policy, chunks).0.terminal.Some? <==> JudgeAll(policy, START.progress, SplitChunks(chunks).events).error.Some?
  {
    hide Run;
    hide SplitChunks;
    hide JudgeAll;
    RunIsCutAndJudge(policy, chunks);
  }

  // ---- byte by byte no event holds a CRLF terminator but at its end ----

  ghost predicate Inner(event: seq<Byte>) {
    exists i: nat :: At(event, CRLF_CRLF, i) && i + 4 < |event|
  }

  function Bytes(b: seq<Byte>): seq<seq<Byte>> {
    seq(|b|, i requires 0 <= i < |b| => [b[i]])
  }

  lemma {:induction false} BytesJoin(b: seq<Byte>)
    ensures Joined(Bytes(b)) == b
  {
    if b != [] {
      var n := |b| - 1;
      BytesJoin(b[..n]);
      assert Bytes(b)[..n] == Bytes(b[..n]);
      assert b == b[..n] + [b[n]];
    }
  }

  /** One more byte completes all that waits or nothing. */
  lemma OneByteMore(tail: seq<Byte>, x: Byte)
    requires FindEventEnd(tail).None?
    ensures var now := Split(tail + [x]);
            now == Cut([], tail + [x]) || (now == Cut([tail + [x]], []) && !Inner(tail + [x]))
  {
    hide Split;
    var b := tail + [x];
    match FindEventEnd(b)
    case None => SplitUncut(b);
    case Some(end) =>
      if end < |b| {
        EndTooEarly(tail, [x], end);
      } else {
        SplitOne(b);
        if Inner(b) {
          var i: nat :| At(b, CRLF_CRLF, i) && i + 4 < |b|;
          AtAppend(tail, [x], CRLF_CRLF, i);
          PositionIsFirst(tail, CRLF_CRLF, 0, i);
        }
      }
  }

  lemma SplitUncut(b: seq<Byte>)
    requires FindEventEnd(b).None?
    ensures Split(b) == Cut([], b)
  {
  }

  lemma EndTooEarly(tail: seq<Byte>, more: seq<Byte>, end: nat)
    requires FindEventEnd(tail + more) == Some(end) && end <= |tail|
    ensures FindEventEnd(tail).Some?
  {
    var b := tail + more;
    match Position(b, LF_LF, 0)
    case Some(p) =>
      AtAppend(tail, more, LF_LF, p);
      PositionIsFirst(tail, LF_LF, 0, p);
    case None =>
      AtAppend(tail, more, CRLF_CRLF, end - 4);
      PositionIsFirst(tail, CRLF_CRLF, 0, end - 4);
  }

  lemma {:induction false} BytewiseCut(b: seq<Byte>)
    ensures forall event :: event in SplitChunks(Bytes(b)).events ==> !Inner(event)
  {
    hide Split;
    hide Inner;
    hide FindEventEnd;
    if b != [] {
      var n := |b| - 1;
      BytewiseCut(b[..n]);
      assert Bytes(b)[..n] == Bytes(b[..n]);
      var before := SplitChunks(Bytes(b[..n]));
      SplitChunksParts(Bytes(b[..n]));
      OneByteMore(before.tail, b[n]);
    }
  }

  /** At once, mixed bytes have an event that holds one. */
  lemma {:induction false} MixedHasInner(b: seq<Byte>) returns (event: seq<Byte>)
    requires !Unmixed(b)
    ensures event in Split(b).events && Inner(event)
    decreases |b|
  {
    var c, p := FirstTerminators(b);
    SplitStep(b, p + 2);
    if c < p {
      event := b[..p + 2];
      TakeDrop(b, p + 2);
      AtAppend(event, b[p + 2..], CRLF_CRLF, c);
    } else {
      MixedAfter(b, c, p);
      event := MixedHasInner(b[p + 2..]);
    }
  }

  // ---- the exact condition ----

  lemma MixedDisagrees(b: seq<Byte>) returns (policy: Policy, left: seq<seq<Byte>>, right: seq<seq<Byte>>)
    requires !Unmixed(b) && SomeLegal(b)
    ensures Joined(left) == b && Joined(right) == b && !Agree(policy, left, right)
  {
    hide Run;
    hide Split;
    hide SplitChunks;
    hide JudgeAll;
    hide Inner;
    left := Bytes(b);
    BytesJoin(b);
    var fine := SplitChunks(left).events;
    if Legal(fine) {
      policy, right := Only(fine), [b];
      JoinedOne(b);
      SplitChunksOne(b);
      var event := MixedHasInner(b);
      BytewiseCut(b);
      OnlyAccepts(fine, START.progress, fine);
      StrangerRefused(policy, START.progress, Split(b).events, event);
    } else {
      policy := LENIENT;
      right :| Joined(right) == b && Legal(SplitChunks(right).events);
    }
    RunRefusedIff(policy, left);
    RunRefusedIff(policy, right);
  }

  lemma NoneLegalAgrees(policy: Policy, left: seq<seq<Byte>>, right: seq<seq<Byte>>)
    requires Joined(left) == Joined(right) && !SomeLegal(Joined(left))
    ensures Agree(policy, left, right)
  {
    hide Run;
    hide SplitChunks;
    hide JudgeAll;
    RunIsCutAndJudge(policy, left);
    RunIsCutAndJudge(policy, right);
    if JudgeAll(policy, START.progress, SplitChunks(left).events).error.None? {
      LenientAccepts(policy, START.progress, START.progress, SplitChunks(left).events);
    }
    if JudgeAll(policy, START.progress, SplitChunks(right).events).error.None? {
      LenientAccepts(policy, START.progress, START.progress, SplitChunks(right).events);
    }
  }

  /**
   All policies agree over all ways to deliver the bytes, if and only if no CRLF
   terminator comes before an LF terminator, or no delivery is accepted by any.
   */
  lemma AgreementIff(b: seq<Byte>)
    ensures AlwaysAgree(b) <==> Unmixed(b) || !SomeLegal(b)
  {
    hide SomeLegal;
    hide Agree;
    if Unmixed(b) || !SomeLegal(b) {
      forall policy, left, right | Joined(left) == b && Joined(right) == b ensures Agree(policy, left, right) {
        if Unmixed(b) {
          UnmixedAgrees(policy, left, right);
        } else {
          NoneLegalAgrees(policy, left, right);
        }
      }
    } else {
      var policy, left, right := MixedDisagrees(b);
    }
  }

  lemma UnmixedAgrees(policy: Policy, left: seq<seq<Byte>>, right: seq<seq<Byte>>)
    requires Joined(left) == Joined(right) && Unmixed(Joined(left))
    ensures Agree(policy, left, right)
  {
    ChunkingIndependence(policy, left, right);
  }

  // ---- mixed bytes on which nothing depends ----

  lemma FirstOfCut(b: seq<Byte>, cut: Cut)
    requires IsCut(b, cut) && FindEventEnd(b).Some?
    ensures cut.events != [] && IsEvent(cut.events[0]) && cut.events[0] <= b
    ensures IsCut(b[|cut.events[0]|..], Cut(cut.events[1..], cut.tail))
  {
    hide FindEventEnd;
    if cut.events == [] {
      NilUnit(cut.tail);
    }
    var first, rest := cut.events[0], cut.events[1..];
    HeadAndTail(cut.events);
    JoinedPrepend(first, rest);
    Assoc(first, Joined(rest), cut.tail);
    DropPrefix(first, Joined(rest) + cut.tail);
  }

  lemma CrInside(b: seq<Byte>, i: nat)
    requires At(b, CRLF_CRLF, i)
    ensures b[i] == CR
  {
    assert b[i..i + 4][0] == CR;
  }

  lemma EndsBy(d: seq<Byte>, event: seq<Byte>)
    requires d <= event && |d| >= 2 && d[|d| - 2] == LF && d[|d| - 1] == LF
    ensures FindEventEnd(event).Some? && FindEventEnd(event).value <= |d|
  {
    LfPairAt(event, |d| - 2);
    PositionIsFirst(event, LF_LF, 0, |d| - 2);
  }

  lemma NoCrlf(event: seq<Byte>)
    requires CR !in event
    ensures Position(event, CRLF_CRLF, 0).None?
  {
    var c := Position(event, CRLF_CRLF, 0);
    if c.Some? {
      CrInside(event, c.value);
    }
  }

  lemma LfBytes(f: seq<Byte>)
    requires Plain(f)
    ensures CR !in f + LF_LF && forall k :: 0 <= k < |f| ==> (f + LF_LF)[k] != LF
  {
    forall k | 0 <= k < |f| ensures (f + LF_LF)[k] != LF {
      assert (f + LF_LF)[k] == f[k] && f[k] in f;
    }
  }

  /** An event at the beginning of an LF-terminated line is the whole of it. */
  lemma LfEventWhole(f: seq<Byte>, event: seq<Byte>)
    requires Plain(f) && IsEvent(event) && event <= f + LF_LF
    ensures event == f + LF_LF
  {
    var d := f + LF_LF;
    LfBytes(f);
    assert event == d[..|event|];
    assert forall k :: 0 <= k < |event| ==> event[k] in d;
    NoCrlf(event);
    var p := Position(event, LF_LF, 0).value;
    LfPairAt(event, p);
    assert d[p] == LF;
  }

  /** Nothing but the whole of an LF-terminated line begins its bytes as an event. */
  lemma LfEventOnly(f: seq<Byte>, rest: seq<Byte>, event: seq<Byte>)
    requires Plain(f) && IsEvent(event) && event <= f + LF_LF + rest
    ensures event == f + LF_LF
  {
    var d := f + LF_LF;
    assert event == (d + rest)[..|event|];
    if |event| >= |d| {
      assert event[..|d|] == d;
      EndsBy(d, event);
    }
    assert event == d[..|event|];
    LfEventWhole(f, event);
  }

  lemma TwoWaysBytes(f: seq<Byte>, g: seq<Byte>)
    requires Plain(f) && Plain(g)
    ensures var whole := f + CRLF_CRLF + (g + LF_LF);
            && |whole| == |f| + |g| + 6
            && (forall k :: 0 <= k < |f| ==> whole[k] != LF && whole[k] != CR)
            && whole[|f|] == CR && whole[|f| + 1] == LF && whole[|f| + 2] == CR && whole[|f| + 3] == LF
            && (forall k :: |f| + 4 <= k < |f| + |g| + 4 ==> whole[k] != LF && whole[k] != CR)
            && whole[|f| + |g| + 4] == LF && whole[|f| + |g| + 5] == LF
  {
    var whole := f + CRLF_CRLF + (g + LF_LF);
    forall k | 0 <= k < |f| ensures whole[k] != LF && whole[k] != CR {
      assert whole[k] == f[k] && f[k] in f;
    }
    forall k | |f| + 4 <= k < |f| + |g| + 4 ensures whole[k] != LF && whole[k] != CR {
      assert whole[k] == g[k - |f| - 4] && g[k - |f| - 4] in g;
    }
  }

  /** A CRLF-terminated line and an LF-terminated one begin as an event in two ways. */
  lemma TwoWays(f: seq<Byte>, g: seq<Byte>, event: seq<Byte>)
    requires Plain(f) && Plain(g) && g != [] && IsEvent(event) && event <= f + CRLF_CRLF + (g + LF_LF)
    ensures event == f + CRLF_CRLF || event == f + CRLF_CRLF + (g + LF_LF)
  {
    var whole := f + CRLF_CRLF + (g + LF_LF);
    assert whole[..|event|] == event;
    TwoWaysBytes(f, g);
    assert whole[..|f| + 4] == f + CRLF_CRLF;
    match Position(event, LF_LF, 0)
    case Some(p) =>
      LfPairAt(event, p);
    case None =>
      var c := Position(event, CRLF_CRLF, 0).value;
      CrInside(event, c);
      assert event[c..c + 4] == CRLF_CRLF;
      assert event[c + 2] == event[c..c + 4][2] == CR;
  }

  lemma DoneThenData(first: seq<Byte>, second: seq<Byte>, rest: seq<seq<Byte>>)
    requires EventData(first) == DONE && EventData(second) != [] && EventData(second) != DONE
    ensures !Legal([first] + ([second] + rest))
  {
    hide EventData;
    var events := [first] + ([second] + rest);
    assert events[1..] == [second] + rest;
    var p := Judge(LENIENT, START.progress, first).progress;
    assert p.sawDone;
    assert JudgeAll(LENIENT, p, [second] + rest).error.Some?;
  }

  /** The other side of the condition: after a done mark, mixed bytes that every policy refuses however they arrive. */
  lemma RefusedHoweverTheyArrive(x: seq<Byte>, y: seq<Byte>, b: seq<Byte>)
    requires Plain(x) && Plain(y) && x != [] && x != DONE
    requires b == Field(DONE) + LF_LF + (Field(x) + CRLF_CRLF + (Field(y) + LF_LF))
    ensures !Unmixed(b) && !SomeLegal(b) && AlwaysAgree(b)
  {
    hide FindEventEnd;
    hide EventData;
    hide Legal;
    FieldPlain(DONE);
    FieldPlain(x);
    FieldPlain(y);
    DoneThenMixed(Field(x), Field(y), b);
    forall chunks | Joined(chunks) == b ensures !Legal(SplitChunks(chunks).events) {
      SplitChunksParts(chunks);
      SplitChunksComplete(chunks);
      NoCutLegal(x, y, b, SplitChunks(chunks));
    }
    AgreementIff(b);
  }

  lemma DoneThenMixed(f: seq<Byte>, g: seq<Byte>, b: seq<Byte>)
    requires b == Field(DONE) + LF_LF + (f + CRLF_CRLF + (g + LF_LF))
    ensures !Unmixed(b)
  {
    var d := Field(DONE) + LF_LF;
    var i := |d| + |f|;
    assert b[i..i + 4] == CRLF_CRLF;
    assert At(b, CRLF_CRLF, i);
    LfPairAt(b, |b| - 2);
    assert At(b, LF_LF, |b| - 2);
  }

  lemma NoCutLegal(x: seq<Byte>, y: seq<Byte>, b: seq<Byte>, cut: Cut)
    requires Plain(x) && Plain(y) && x != [] && x != DONE
    requires b == Field(DONE) + LF_LF + (Field(x) + CRLF_CRLF + (Field(y) + LF_LF)) && IsCut(b, cut)
    ensures !Legal(cut.events)
  {
    hide FindEventEnd;
    hide EventData;
    hide Legal;
    hide IsCut;
    var d, r := Field(DONE) + LF_LF, Field(x) + CRLF_CRLF + (Field(y) + LF_LF);
    FieldPlain(DONE);
    FieldPlain(x);
    FieldPlain(y);
    HasEnd(Field(DONE), r);
    FirstOfCut(b, cut);
    LfEventOnly(Field(DONE), r, cut.events[0]);
    DropPrefix(d, r);
    HasEnd(Field(x) + CRLF_CRLF + Field(y), []);
    assert Field(x) + CRLF_CRLF + Field(y) + LF_LF + [] == r;
    var rest := Cut(cut.events[1..], cut.tail);
    FirstOfCut(r, rest);
    var second := rest.events[0];
    TwoWays(Field(x), Field(y), second);
    LfEvent(DONE);
    CrlfEvent(x);
    JoinedEventData(x, y);
    NotDone(x, y);
    assert cut.events == [d] + ([second] + rest.events[1..]);
    DoneThenData(d, second, rest.events[1..]);
  }

  lemma HasEnd(f: seq<Byte>, rest: seq<Byte>)
    ensures FindEventEnd(f + LF_LF + rest).Some?
  {
    var b := f + LF_LF + rest;
    assert b[|f|] == LF && b[|f| + 1] == LF;
    LfPairAt(b, |f|);
    PositionIsFirst(b, LF_LF, 0, |f|);
  }
}
