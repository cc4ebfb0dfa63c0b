/**
 Where the chunks do matter: a CRLF-terminated event followed by an
 LF-terminated one is read as two events or as one, depending on arrival.
 */
module MixedTerminators {
  import opened Common
  import opened SseEvents
  import opened StreamInspection

  lemma LfPairAt(b: seq<Byte>, i: nat)
    ensures At(b, LF_LF, i) <==> i + 2 <= |b| && b[i] == LF && b[i + 1] == LF
  {
    if i + 2 <= |b| {
      assert b[i..i + 2] == [b[i], b[i + 1]];
    }
  }

  lemma EndsAtLfPair(b: seq<Byte>)
    requires |b| >= 2 && b[|b| - 2] == LF && b[|b| - 1] == LF
    requires forall i :: 0 <= i < |b| - 2 ==> b[i] != LF || b[i + 1] != LF
    ensures FindEventEnd(b) == Some(|b|)
  {
    LfPairAt(b, |b| - 2);
    PositionIsFirst(b, LF_LF, 0, |b| - 2);
    var p := Position(b, LF_LF, 0).value;
    LfPairAt(b, p);
  }

  lemma EndsAtCrlfPair(b: seq<Byte>, n: nat)
    requires |b| == n + 4 && b[n..] == CRLF_CRLF
    requires forall i :: 0 <= i < n ==> b[i] != LF && b[i] != CR
    ensures FindEventEnd(b) == Some(|b|)
  {
    assert b[n] == b[n..][0] && b[n + 1] == b[n..][1] && b[n + 2] == b[n..][2] && b[n + 3] == b[n..][3];
    var lf := Position(b, LF_LF, 0);
    if lf.Some? {
      LfPairAt(b, lf.value);
    }
    assert At(b, CRLF_CRLF, n);
    PositionIsFirst(b, CRLF_CRLF, 0, n);
    var p := Position(b, CRLF_CRLF, 0).value;
    assert b[p] == b[p..p + 4][0];
  }

  lemma FirstCrLine(line: seq<Byte>, rest: seq<Byte>)
    requires Plain(line)
    ensures Lines(line + [CR, LF] + rest) == [line] + Lines(rest)
  {
    var text := line + [CR, LF] + rest;
    assert At(text, [LF], |line| + 1) by { assert text[|line| + 1..|line| + 2] == [LF]; }
    PositionIsFirst(text, [LF], 0, |line| + 1);
    var end := Position(text, [LF], 0).value;
    assert text[end] == text[end..end + 1][0] == LF;
    assert forall k :: 0 <= k < |line| ==> text[k] == line[k];
    assert end == |line| + 1 && text[..end] == line + [CR] && text[end + 1..] == rest;
  }

  lemma FieldAndBlank(value: seq<Byte>, rest: seq<seq<Byte>>)
    requires Plain(value)
    ensures DataLines([Field(value)] + ([[]] + rest)) == [value] + DataLines(rest)
  {
    FieldPlain(value);
    DataLinesCons(Field(value), [[]] + rest);
    DataLinesCons([], rest);
  }

  lemma CrlfEvent(x: seq<Byte>)
    requires Plain(x)
    ensures FindEventEnd(Field(x) + CRLF_CRLF) == Some(|Field(x)| + 4)
    ensures EventData(Field(x) + CRLF_CRLF) == x
  {
    FieldPlain(x);
    var event := Field(x) + CRLF_CRLF;
    EndsAtCrlfPair(event, |Field(x)|);
    CrlfLines(x, []);
    assert Field(x) + CRLF_CRLF + [] == event;
    FieldAndBlank(x, []);
    assert Lines([]) == [];
  }

  lemma CrlfLines(x: seq<Byte>, rest: seq<Byte>)
    requires Plain(x)
    ensures Lines(Field(x) + CRLF_CRLF + rest) == [Field(x)] + ([[]] + Lines(rest))
  {
    FieldPlain(x);
    FirstCrLine(Field(x), [CR, LF] + rest);
    assert Field(x) + CRLF_CRLF + rest == Field(x) + [CR, LF] + ([CR, LF] + rest);
    FirstCrLine([], rest);
    assert [] + [CR, LF] + rest == [CR, LF] + rest;
  }

  lemma LfLines(y: seq<Byte>)
    requires Plain(y)
    ensures Lines(Field(y) + LF_LF) == [Field(y)] + ([[]] + Lines([]))
  {
    FieldPlain(y);
    FirstLine(Field(y), [LF]);
    FirstLine([], []);
    assert [] + [LF] + [] == [LF] && Field(y) + [LF] + [LF] == Field(y) + LF_LF;
  }

  lemma LfEvent(y: seq<Byte>)
    requires Plain(y)
    ensures FindEventEnd(Field(y) + LF_LF) == Some(|Field(y)| + 2)
    ensures EventData(Field(y) + LF_LF) == y
  {
    FieldPlain(y);
    EndsAtLfPair(Field(y) + LF_LF);
    LfLines(y);
    FieldAndBlank(y, []);
  }

  lemma JoinedEventEnd(f: seq<Byte>, g: seq<Byte>)
    requires Plain(f) && Plain(g) && g != []
    ensures FindEventEnd(f + CRLF_CRLF + (g + LF_LF)) == Some(|f| + |g| + 6)
  {
    var whole := f + CRLF_CRLF + (g + LF_LF);
    forall i | 0 <= i < |whole| - 2 ensures whole[i] != LF || whole[i + 1] != LF {
      if i < |f| {
        assert whole[i] == f[i] && f[i] in f;
      } else if i < |f| + 4 {
        assert whole[i] == CRLF_CRLF[i - |f|];
        assert whole[|f| + 4] == g[0] && g[0] in g;
      } else {
        assert whole[i] == g[i - |f| - 4] && g[i - |f| - 4] in g;
      }
    }
    EndsAtLfPair(whole);
  }

  lemma TwoDataLines(x: seq<Byte>, y: seq<Byte>)
    requires Plain(x) && Plain(y)
    ensures JoinLines(DataLines([Field(x)] + ([[]] + ([Field(y)] + ([[]] + Lines([])))))) == x + [LF] + y
  {
    var empty: seq<seq<Byte>> := Lines([]);
    FieldAndBlank(y, empty);
    FieldAndBlank(x, [Field(y)] + ([[]] + empty));
    var both := [x] + ([y] + DataLines(empty));
    assert both == [x, y];
    assert both[1..] == [y];
    assert JoinLines([y]) == y;
  }

  lemma JoinedEventData(x: seq<Byte>, y: seq<Byte>)
    requires Plain(x) && Plain(y)
    ensures EventData(Field(x) + CRLF_CRLF + (Field(y) + LF_LF)) == x + [LF] + y
  {
    CrlfLines(x, Field(y) + LF_LF);
    LfLines(y);
    TwoDataLines(x, y);
  }

  lemma AcceptedInTwoChunks(policy: Policy, first: seq<Byte>, second: seq<Byte>)
    requires FindEventEnd(first) == Some(|first|) && FindEventEnd(second) == Some(|second|)
    requires Judge(policy, Progress(0, false), first) == Judged(Progress(0, false), None)
    requires Judge(policy, Progress(0, false), second).error.None?
    requires policy.maxResponseBytes == U64_MAX
    ensures Run(policy, [first] + [second]).0.terminal == None
  {
    SplitOne(first);
    SplitOne(second);
    RunIsCutAndJudge(policy, [first] + [second]);
    SplitChunksPrepend(first, [second]);
    SplitChunksOne(second);
    JudgeAllAppend(policy, Progress(0, false), [first], [second]);
  }

  lemma RefusedInOneChunk(policy: Policy, whole: seq<Byte>)
    requires FindEventEnd(whole) == Some(|whole|)
    requires Judge(policy, Progress(0, false), whole).error == Some(ProtocolViolation)
    requires policy.maxResponseBytes == U64_MAX
    ensures Run(policy, [whole]).0.terminal == Some(ProtocolViolation)
  {
    SplitOne(whole);
    assert [whole][..0] == [];
    NilUnit(whole);
    assert InspectChunk(policy, START, whole).0.terminal == Some(ProtocolViolation);
  }

  /** What the scanner must say for the divergence: both lines pass, their joined text is not JSON. */
  ghost predicate OnlyJoinedTextFails(policy: Policy, x: seq<Byte>, y: seq<Byte>) {
    && policy.scan(x) == Clean(0)
    && policy.scan(y) == Clean(0)
    && policy.scan(x + [LF] + y).NotJson?
  }

  /**
   Mixed terminators change the outcome: in one chunk the two events are read
   as a single event and refused, in two chunks each is accepted.
   */
  lemma MixedTerminatorsDiverge(policy: Policy, x: seq<Byte>, y: seq<Byte>, first: seq<Byte>, second: seq<Byte>)
    requires Plain(x) && Plain(y) && x != [] && y != [] && x != DONE && y != DONE
    requires first == Field(x) + CRLF_CRLF && second == Field(y) + LF_LF
    requires policy.isUtf8(first) && policy.isUtf8(second) && policy.isUtf8(first + second)
    requires OnlyJoinedTextFails(policy, x, y) && policy.maxResponseBytes == U64_MAX
    ensures Run(policy, [first + second]).0.terminal == Some(ProtocolViolation)
    ensures Run(policy, [first] + [second]).0.terminal == None
  {
    EachAccepted(policy, x, y, first, second);
    JoinedEvent(x, y, first, second);
    NotDone(x, y);
    RefusedInOneChunk(policy, first + second);
  }

  lemma JoinedEvent(x: seq<Byte>, y: seq<Byte>, first: seq<Byte>, second: seq<Byte>)
    requires Plain(x) && Plain(y)
    requires first == Field(x) + CRLF_CRLF && second == Field(y) + LF_LF
    ensures IsEvent(first + second) && EventData(first + second) == x + [LF] + y
  {
    FieldPlain(x);
    FieldPlain(y);
    JoinedEventEnd(Field(x), Field(y));
    JoinedEventData(x, y);
  }

  lemma NotDone(x: seq<Byte>, y: seq<Byte>)
    ensures x + [LF] + y != DONE && x + [LF] + y != []
  {
    assert (x + [LF] + y)[|x|] == LF && LF in x + [LF] + y && LF !in DONE;
  }

  lemma EachAccepted(policy: Policy, x: seq<Byte>, y: seq<Byte>, first: seq<Byte>, second: seq<Byte>)
    requires Plain(x) && Plain(y) && x != [] && y != [] && x != DONE && y != DONE
    requires first == Field(x) + CRLF_CRLF && second == Field(y) + LF_LF
    requires policy.isUtf8(first) && policy.isUtf8(second)
    requires policy.scan(x) == Clean(0) && policy.scan(y) == Clean(0) && policy.maxResponseBytes == U64_MAX
    ensures Run(policy, [first] + [second]).0.terminal == None
  {
    CrlfEvent(x);
    LfEvent(y);
    AcceptedInTwoChunks(policy, first, second);
  }
}
