/**
 Cutting a byte stream into server-sent events (WHATWG HTML Living Standard,
 sections 9.2.5 and 9.2.6), as `find_event_end` and `event_data` do it.
 */
module SseEvents {
  import opened Common

  newtype Byte = b: int | 0 <= b < 256

  const LF: Byte := 10
  const CR: Byte := 13
  const SPACE: Byte := 32
  const LF_LF: seq<Byte> := [10, 10]
  const CRLF_CRLF: seq<Byte> := [13, 10, 13, 10]

  predicate At(input: seq<Byte>, pattern: seq<Byte>, i: nat) {
    i + |pattern| <= |input| && input[i..i + |pattern|] == pattern
  }

  /** The first window equal to `pattern`, searched from index `i`. */
  function Position(input: seq<Byte>, pattern: seq<Byte>, i: nat): (r: Option<nat>)
    ensures r.Some? ==> i <= r.value && At(input, pattern, r.value)
    decreases |input| - i
  {
    if i + |pattern| > |input| then None
    else if At(input, pattern, i) then Some(i)
    else Position(input, pattern, i + 1)
  }

  lemma {:induction false} PositionIsFirst(input: seq<Byte>, pattern: seq<Byte>, i: nat, k: nat)
    requires i <= k && At(input, pattern, k)
    ensures Position(input, pattern, i).Some? && Position(input, pattern, i).value <= k
    decreases |input| - i
  {
    if !At(input, pattern, i) {
      PositionIsFirst(input, pattern, i + 1, k);
    }
  }

  function FindEventEnd(input: seq<Byte>): (r: Option<nat>)
    ensures r.Some? ==> 0 < r.value <= |input|
  {
    match Position(input, LF_LF, 0)
    case Some(index) => Some(index + 2)
    case None =>
      match Position(input, CRLF_CRLF, 0)
      case Some(index) => Some(index + 4)
      case None => None
  }

  /** Complete events, in order, and the bytes after the last of them. */
  datatype Cut = Cut(events: seq<seq<Byte>>, tail: seq<Byte>)

  function Split(input: seq<Byte>): Cut
    decreases |input|
  {
    match FindEventEnd(input)
    case None => Cut([], input)
    case Some(end) =>
      var rest := Split(input[end..]);
      Cut([input[..end]] + rest.events, rest.tail)
  }

  /** The cut made when the same bytes arrive as `chunks`. */
  function SplitChunks(chunks: seq<seq<Byte>>): Cut {
    if chunks == [] then Cut([], [])
    else
      var before := SplitChunks(chunks[..|chunks| - 1]);
      var now := Split(before.tail + chunks[|chunks| - 1]);
      Cut(before.events + now.events, now.tail)
  }

  /** No CRLF terminator comes before an LF terminator. */
  ghost predicate Unmixed(input: seq<Byte>) {
    forall i: nat, j: nat :: At(input, CRLF_CRLF, i) && At(input, LF_LF, j) ==> j < i
  }

  lemma AtAppend(b: seq<Byte>, c: seq<Byte>, pattern: seq<Byte>, i: nat)
    requires i + |pattern| <= |b|
    ensures At(b, pattern, i) <==> At(b + c, pattern, i)
  {
    assert (b + c)[i..i + |pattern|] == b[i..i + |pattern|];
  }

  lemma AtDrop(b: seq<Byte>, n: nat, pattern: seq<Byte>, i: nat)
    requires n <= |b|
    ensures At(b[n..], pattern, i) <==> At(b, pattern, n + i)
  {
    if n + i + |pattern| <= |b| {
      assert b[n..][i..i + |pattern|] == b[n + i..n + i + |pattern|];
    }
  }

  lemma UnmixedDrop(b: seq<Byte>, n: nat)
    requires n <= |b| && Unmixed(b)
    ensures Unmixed(b[n..])
  {
    forall i: nat, j: nat | At(b[n..], CRLF_CRLF, i) && At(b[n..], LF_LF, j) ensures j < i {
      AtDrop(b, n, CRLF_CRLF, i);
      AtDrop(b, n, LF_LF, j);
    }
  }

  lemma UnmixedTake(b: seq<Byte>, c: seq<Byte>)
    requires Unmixed(b + c)
    ensures Unmixed(b)
  {
    forall i: nat, j: nat | At(b, CRLF_CRLF, i) && At(b, LF_LF, j) ensures j < i {
      AtAppend(b, c, CRLF_CRLF, i);
      AtAppend(b, c, LF_LF, j);
    }
  }

  /** The two terminators cannot overlap so that an LF pair ends inside a CRLF pair. */
  lemma NoOverlap(b: seq<Byte>, i: nat, j: nat)
    requires At(b, CRLF_CRLF, i) && At(b, LF_LF, j)
    ensures j + 2 <= i || i + 3 <= j
  {
    assert forall k: nat :: k < 4 ==> b[i + k] == CRLF_CRLF[k] by {
      forall k: nat | k < 4 ensures b[i + k] == CRLF_CRLF[k] { assert b[i + k] == b[i..i + 4][k]; }
    }
    assert b[j] == b[j..j + 2][0] && b[j + 1] == b[j..j + 2][1];
    assert b[i] == b[i + 0] == CR && b[i + 1] == LF && b[i + 2] == CR && b[i + 3] == LF;
  }

  lemma PositionInPrefix(b: seq<Byte>, c: seq<Byte>, pattern: seq<Byte>)
    requires Position(b, pattern, 0).Some?
    ensures Position(b + c, pattern, 0) == Position(b, pattern, 0)
  {
    var p := Position(b, pattern, 0).value;
    AtAppend(b, c, pattern, p);
    PositionIsFirst(b + c, pattern, 0, p);
    var q := Position(b + c, pattern, 0).value;
    AtAppend(b, c, pattern, q);
    PositionIsFirst(b, pattern, 0, q);
  }

  lemma PositionToPrefix(b: seq<Byte>, c: seq<Byte>, pattern: seq<Byte>, p: nat)
    requires Position(b + c, pattern, 0) == Some(p) && p + |pattern| <= |b|
    ensures Position(b, pattern, 0) == Some(p)
  {
    AtAppend(b, c, pattern, p);
    PositionIsFirst(b, pattern, 0, p);
    PositionInPrefix(b, c, pattern);
  }

  /** A complete event found in a prefix is the event found in the whole. */
  lemma EventEndStable(b: seq<Byte>, c: seq<Byte>)
    requires Unmixed(b + c) && FindEventEnd(b).Some?
    ensures FindEventEnd(b + c) == FindEventEnd(b)
  {
    match Position(b, LF_LF, 0)
    case Some(_) =>
      PositionInPrefix(b, c, LF_LF);
    case None =>
      PositionInPrefix(b, c, CRLF_CRLF);
      var lf := Position(b + c, LF_LF, 0);
      if lf.Some? {
        PositionToPrefix(b, c, LF_LF, lf.value);
        assert false;
      }
  }

  lemma SplitStep(b: seq<Byte>, end: nat)
    requires FindEventEnd(b) == Some(end)
    ensures Split(b) == Cut([b[..end]] + Split(b[end..]).events, Split(b[end..]).tail)
  {
  }

  lemma {:induction false} SplitAppend(b: seq<Byte>, c: seq<Byte>)
    requires Unmixed(b + c)
    ensures Split(b + c) ==
            Cut(Split(b).events + Split(Split(b).tail + c).events, Split(Split(b).tail + c).tail)
    decreases |b|
  {
    match FindEventEnd(b)
    case None =>
      NilUnit(Split(b + c).events);
    case Some(end) =>
      EventEndStable(b, c);
      SplitStep(b + c, end);
      assert (b + c)[..end] == b[..end];
      assert (b + c)[end..] == b[end..] + c;
      UnmixedDrop(b + c, end);
      SplitAppend(b[end..], c);
      var rest := Split(b[end..]);
      Assoc([b[..end]], rest.events, Split(rest.tail + c).events);
  }

  lemma {:induction false} SplitChunksUnmixed(chunks: seq<seq<Byte>>)
    requires Unmixed(Joined(chunks))
    ensures SplitChunks(chunks) == Split(Joined(chunks))
  {
    if chunks != [] {
      var init, last := chunks[..|chunks| - 1], chunks[|chunks| - 1];
      UnmixedTake(Joined(init), last);
      SplitChunksUnmixed(init);
      SplitAppend(Joined(init), last);
    }
  }

  lemma SplitOne(event: seq<Byte>)
    requires FindEventEnd(event) == Some(|event|)
    ensures Split(event) == Cut([event], [])
  {
    hide Split;
    hide FindEventEnd;
    SplitStep(event, |event|);
    SplitNothing();
    assert event[..|event|] == event && event[|event|..] == [];
    NilUnit([event]);
  }

  lemma SplitNothing()
    ensures Split([]) == Cut([], [])
  {
  }

  lemma SplitChunksOne(chunk: seq<Byte>)
    ensures SplitChunks([chunk]) == Split(chunk)
  {
    assert [chunk][..0] == [];
    NilUnit(chunk);
    NilUnit(Split(chunk).events);
  }

  lemma {:induction false} SplitChunksPrepend(event: seq<Byte>, chunks: seq<seq<Byte>>)
    requires Split(event) == Cut([event], [])
    ensures SplitChunks([event] + chunks) ==
            Cut([event] + SplitChunks(chunks).events, SplitChunks(chunks).tail)
  {
    if chunks == [] {
      NilUnit([event]);
      SplitChunksOne(event);
    } else {
      var init, last := chunks[..|chunks| - 1], chunks[|chunks| - 1];
      ConsInit(event, chunks);
      SplitChunksPrepend(event, init);
      Assoc([event], SplitChunks(init).events, Split(SplitChunks(init).tail + last).events);
    }
  }

  /** The first event of `b`, taken alone, ends where it ends in `b`. */
  lemma FirstEventAlone(b: seq<Byte>, end: nat)
    requires FindEventEnd(b) == Some(end)
    ensures FindEventEnd(b[..end]) == Some(end)
  {
    var event, rest := b[..end], b[end..];
    TakeDrop(b, end);
    if Position(event, LF_LF, 0).Some? {
      PositionInPrefix(event, rest, LF_LF);
    }
    match Position(b, LF_LF, 0)
    case Some(p) => PositionToPrefix(event, rest, LF_LF, p);
    case None => PositionToPrefix(event, rest, CRLF_CRLF, end - 4);
  }

  /** Mixed terminators: some chunking makes another cut. */
  lemma {:induction false} MixedCutDiffers(b: seq<Byte>) returns (chunks: seq<seq<Byte>>)
    requires !Unmixed(b)
    ensures Joined(chunks) == b && SplitChunks(chunks) != Split(b)
    decreases |b|
  {
    var c, p := FirstTerminators(b);
    if c < p {
      chunks := CrlfCutEarly(b, c, p);
    } else {
      MixedAfter(b, c, p);
      var rest := MixedCutDiffers(b[p + 2..]);
      chunks := [b[..p + 2]] + rest;
      DifferentTailCut(b, p + 2, rest);
    }
  }

  lemma FirstTerminators(b: seq<Byte>) returns (c: nat, p: nat)
    requires !Unmixed(b)
    ensures Position(b, CRLF_CRLF, 0) == Some(c) && Position(b, LF_LF, 0) == Some(p)
    ensures p + 2 <= c || c + 3 <= p
  {
    var i: nat, j: nat :| At(b, CRLF_CRLF, i) && At(b, LF_LF, j) && i <= j;
    PositionIsFirst(b, CRLF_CRLF, 0, i);
    PositionIsFirst(b, LF_LF, 0, j);
    c := Position(b, CRLF_CRLF, 0).value;
    p := Position(b, LF_LF, 0).value;
    NoOverlap(b, c, p);
  }

  lemma MixedAfter(b: seq<Byte>, c: nat, p: nat)
    requires !Unmixed(b)
    requires Position(b, CRLF_CRLF, 0) == Some(c) && Position(b, LF_LF, 0) == Some(p) && p + 2 <= c
    ensures !Unmixed(b[p + 2..])
  {
    var i: nat, j: nat :| At(b, CRLF_CRLF, i) && At(b, LF_LF, j) && i <= j;
    PositionIsFirst(b, CRLF_CRLF, 0, i);
    AtDrop(b, p + 2, CRLF_CRLF, i - (p + 2));
    AtDrop(b, p + 2, LF_LF, j - (p + 2));
  }

  lemma DifferentTailCut(b: seq<Byte>, end: nat, rest: seq<seq<Byte>>)
    requires FindEventEnd(b) == Some(end)
    requires Joined(rest) == b[end..] && SplitChunks(rest) != Split(b[end..])
    ensures Joined([b[..end]] + rest) == b && SplitChunks([b[..end]] + rest) != Split(b)
  {
    var event := b[..end];
    FirstEventAlone(b, end);
    SplitOne(event);
    JoinedPrepend(event, rest);
    TakeDrop(b, end);
    SplitChunksPrepend(event, rest);
    SplitStep(b, end);
    DropPrefix([event], SplitChunks(rest).events);
    DropPrefix([event], Split(b[end..]).events);
  }

  /** Cutting just after an early CRLF terminator makes it end an event of its own. */
  lemma CrlfCutEarly(b: seq<Byte>, c: nat, p: nat) returns (chunks: seq<seq<Byte>>)
    requires Position(b, LF_LF, 0) == Some(p) && Position(b, CRLF_CRLF, 0) == Some(c) && c + 3 <= p
    ensures Joined(chunks) == b && SplitChunks(chunks) != Split(b)
  {
    var first, second := b[..c + 4], b[c + 4..];
    TakeDrop(b, c + 4);
    PositionToPrefix(first, second, CRLF_CRLF, c);
    if Position(first, LF_LF, 0).Some? {
      PositionInPrefix(first, second, LF_LF);
    }
    DifferentFirstCut(b, c + 4, p + 2);
    chunks := [first] + [second];
  }

  lemma DifferentFirstCut(b: seq<Byte>, n: nat, end: nat)
    requires n < end && FindEventEnd(b) == Some(end) && FindEventEnd(b[..n]) == Some(n)
    ensures Joined([b[..n]] + [b[n..]]) == b && SplitChunks([b[..n]] + [b[n..]]) != Split(b)
  {
    var first, second := b[..n], b[n..];
    TakeDrop(b, n);
    JoinedPrepend(first, [second]);
    JoinedOne(second);
    SplitOne(first);
    SplitChunksPrepend(first, [second]);
    SplitStep(b, end);
    assert |first| < |b[..end]|;
    HeadsDiffer(first, SplitChunks([second]).events, b[..end], Split(b[end..]).events);
  }

  /** Every chunking of `b` makes the cut that the whole of `b` makes, exactly when `b` is unmixed. */
  lemma CutIndependentIffUnmixed(b: seq<Byte>)
    ensures (forall chunks: seq<seq<Byte>> :: Joined(chunks) == b ==> SplitChunks(chunks) == Split(b)) <==> Unmixed(b)
  {
    if Unmixed(b) {
      forall chunks: seq<seq<Byte>> | Joined(chunks) == b ensures SplitChunks(chunks) == Split(b) {
        SplitChunksUnmixed(chunks);
      }
    } else {
      var chunks := MixedCutDiffers(b);
    }
  }

  predicate IsEvent(event: seq<Byte>) {
    FindEventEnd(event) == Some(|event|)
  }

  /** A declarative cut: each event ends at its only terminator and the tail has none. */
  ghost predicate IsCut(b: seq<Byte>, cut: Cut) {
    && Joined(cut.events) + cut.tail == b
    && (forall event :: event in cut.events ==> IsEvent(event))
    && FindEventEnd(cut.tail).None?
  }

  lemma IsCutPrepend(event: seq<Byte>, b: seq<Byte>, cut: Cut)
    requires IsEvent(event) && IsCut(b, cut)
    ensures IsCut(event + b, Cut([event] + cut.events, cut.tail))
  {
    JoinedPrepend(event, cut.events);
    Assoc(event, Joined(cut.events), cut.tail);
  }

  lemma {:induction false} SplitIsCut(b: seq<Byte>)
    ensures IsCut(b, Split(b))
    decreases |b|
  {
    match FindEventEnd(b)
    case None =>
      NilUnit(b);
    case Some(end) =>
      SplitIsCut(b[end..]);
      FirstEventAlone(b, end);
      IsCutPrepend(b[..end], b[end..], Split(b[end..]));
      TakeDrop(b, end);
      SplitStep(b, end);
  }

  /** Unmixed bytes have only one declarative cut, the one Split makes. */
  lemma {:induction false} CutUnique(b: seq<Byte>, cut: Cut)
    requires Unmixed(b) && IsCut(b, cut)
    ensures cut == Split(b)
    decreases |cut.events|
  {
    if cut.events == [] {
      NilUnit(cut.tail);
    } else {
      var first, rest := cut.events[0], Cut(cut.events[1..], cut.tail);
      var after := Joined(rest.events) + cut.tail;
      TakeDrop(cut.events, 1);
      assert cut.events == [first] + rest.events;
      JoinedPrepend(first, rest.events);
      Assoc(first, Joined(rest.events), cut.tail);
      assert first in cut.events && forall event :: event in rest.events ==> event in cut.events;
      EventEndStable(first, after);
      DropPrefix(first, after);
      UnmixedDrop(b, |first|);
      CutUnique(after, rest);
      SplitStep(b, |first|);
    }
  }

  // ---- the data field of one event ----

  const DATA_FIELD: seq<Byte> := [100, 97, 116, 97, 58]

  function StripSuffix(line: seq<Byte>, last: Byte): seq<Byte> {
    if line != [] && line[|line| - 1] == last then line[..|line| - 1] else line
  }

  function StripSpace(value: seq<Byte>): seq<Byte> {
    if value != [] && value[0] == SPACE then value[1..] else value
  }

  /** Lines end at LF, with one CR before it dropped; a last line may lack its LF. */
  function Lines(text: seq<Byte>): seq<seq<Byte>>
    decreases |text|
  {
    if text == [] then []
    else
      match Position(text, [LF], 0)
      case None => [text]
      case Some(end) => [StripSuffix(text[..end], CR)] + Lines(text[end + 1..])
  }

  function FieldValue(line: seq<Byte>): Option<seq<Byte>> {
    var stripped := StripSuffix(line, CR);
    if DATA_FIELD <= stripped then Some(StripSpace(stripped[|DATA_FIELD|..])) else None
  }

  function DataLines(lines: seq<seq<Byte>>): seq<seq<Byte>> {
    if lines == [] then []
    else
      var before := DataLines(lines[..|lines| - 1]);
      match FieldValue(lines[|lines| - 1])
      case Some(value) => before + [value]
      case None => before
  }

  function JoinLines(lines: seq<seq<Byte>>): seq<Byte> {
    if lines == [] then []
    else if |lines| == 1 then lines[0]
    else lines[0] + [LF] + JoinLines(lines[1..])
  }

  function EventData(event: seq<Byte>): seq<Byte> {
    JoinLines(DataLines(Lines(event)))
  }

  method CollectData(event: seq<Byte>) returns (data: seq<Byte>)
    ensures data == EventData(event)
  {
    var lines := Lines(event);
    var values: seq<seq<Byte>> := [];
    for i := 0 to |lines|
      invariant values == DataLines(lines[..i])
    {
      assert lines[..i + 1][..i] == lines[..i];
      match FieldValue(lines[i])
      case Some(value) => values := values + [value];
      case None =>
    }
    assert lines[..|lines|] == lines;
    data := JoinLines(values);
  }

  ghost predicate Plain(line: seq<Byte>) {
    LF !in line && CR !in line
  }

  lemma FirstLine(line: seq<Byte>, rest: seq<Byte>)
    requires Plain(line)
    ensures Lines(line + [LF] + rest) == [line] + Lines(rest)
  {
    var text := line + [LF] + rest;
    assert At(text, [LF], |line|) by { assert text[|line|..|line| + 1] == [LF]; }
    PositionIsFirst(text, [LF], 0, |line|);
    var end := Position(text, [LF], 0).value;
    assert text[end] == text[end..end + 1][0] == LF;
    assert end == |line| && text[..end] == line && text[end + 1..] == rest;
  }

  function Field(value: seq<Byte>): seq<Byte> {
    DATA_FIELD + [SPACE] + value
  }

  lemma FieldPlain(value: seq<Byte>)
    requires Plain(value)
    ensures Plain(Field(value)) && FieldValue(Field(value)) == Some(value)
  {
    var field := Field(value);
    forall c | c in field ensures c != LF && c != CR {
      assert c in DATA_FIELD || c == SPACE || c in value;
    }
    assert field[|field| - 1] in field;
    assert field[..|DATA_FIELD|] == DATA_FIELD && field[|DATA_FIELD|..] == [SPACE] + value;
  }

  /** The event a server writes for a payload given line by line. */
  function EncodeLines(lines: seq<seq<Byte>>): seq<Byte> {
    if lines == [] then [LF] else Field(lines[0]) + [LF] + EncodeLines(lines[1..])
  }

  lemma {:induction false} DataLinesCons(line: seq<Byte>, rest: seq<seq<Byte>>)
    ensures DataLines([line] + rest) ==
            (match FieldValue(line) case Some(value) => [value] case None => []) + DataLines(rest)
  {
    var own: seq<seq<Byte>> := match FieldValue(line) case Some(value) => [value] case None => [];
    if rest == [] {
      NilUnit([line]);
      assert [line][..0] == [];
      NilUnit(own);
    } else {
      var init, last := rest[..|rest| - 1], rest[|rest| - 1];
      ConsInit(line, rest);
      DataLinesCons(line, init);
      match FieldValue(last)
      case Some(value) => Assoc(own, DataLines(init), [value]);
      case None =>
    }
  }

  lemma {:induction false} EncodedDataLines(lines: seq<seq<Byte>>)
    requires forall line :: line in lines ==> Plain(line)
    ensures DataLines(Lines(EncodeLines(lines))) == lines
  {
    if lines == [] {
      FirstLine([], []);
      assert [] + [LF] + [] == [LF];
      DataLinesCons([], []);
      var blank: seq<seq<Byte>> := [[]];
      NilUnit(blank);
    } else {
      FieldPlain(lines[0]);
      EncodedDataLines(lines[1..]);
      FirstLine(Field(lines[0]), EncodeLines(lines[1..]));
      DataLinesCons(Field(lines[0]), Lines(EncodeLines(lines[1..])));
      TakeDrop(lines, 1);
      assert lines[..1] == [lines[0]];
    }
  }

  /** Reading back an event written for payload lines gives the payload. */
  lemma EventDataRoundTrip(lines: seq<seq<Byte>>)
    requires forall line :: line in lines ==> Plain(line)
    ensures EventData(EncodeLines(lines)) == JoinLines(lines)
  {
    EncodedDataLines(lines);
  }

  // ---- the data of any event, line by line ----

  /** The lines, each ended by LF. */
  ghost function Ended(lines: seq<seq<Byte>>): seq<Byte> {
    Joined(seq(|lines|, i requires 0 <= i < |lines| => lines[i] + [LF]))
  }

  ghost predicate OneLine(line: seq<Byte>) {
    LF !in line
  }

  /** The line without one CR at its end, if there is one. */
  ghost predicate WithoutCr(line: seq<Byte>, rest: seq<Byte>) {
    line == rest + [CR] || (line == rest && (rest == [] || rest[|rest| - 1] != CR))
  }

  /** A data field of that value, after the colon and at most one space. */
  ghost predicate IsField(line: seq<Byte>, value: seq<Byte>) {
    line == [100, 97, 116, 97, 58] + [32] + value || (line == [100, 97, 116, 97, 58] + value && (value == [] || value[0] != 32))
  }

  /** What is read of a line of the event: one CR goes with the LF that ends it, and one more with the field. */
  ghost predicate Carries(line: seq<Byte>, ended: bool, value: seq<Byte>) {
    exists rest, field :: (if ended then WithoutCr(line, rest) else rest == line) && WithoutCr(rest, field) && IsField(field, value)
  }

  lemma StripIs(line: seq<Byte>, rest: seq<Byte>)
    ensures WithoutCr(line, rest) <==> rest == StripSuffix(line, CR)
  {
    if WithoutCr(line, rest) && line == rest + [CR] {
      assert line[..|line| - 1] == rest;
    }
    if line != [] && line[|line| - 1] == CR {
      assert line == line[..|line| - 1] + [CR];
    }
  }

  lemma FieldValueIff(line: seq<Byte>, value: seq<Byte>)
    ensures FieldValue(line) == Some(value) <==> exists field :: WithoutCr(line, field) && IsField(field, value)
  {
    var stripped := StripSuffix(line, CR);
    forall field ensures WithoutCr(line, field) <==> field == stripped {
      StripIs(line, field);
    }
    IsFieldIff(stripped, value);
  }

  lemma IsFieldIff(line: seq<Byte>, value: seq<Byte>)
    ensures IsField(line, value) <==> DATA_FIELD <= line && StripSpace(line[|DATA_FIELD|..]) == value
  {
    var n := |DATA_FIELD|;
    if DATA_FIELD <= line {
      assert line == DATA_FIELD + line[n..];
      var after := line[n..];
      assert (DATA_FIELD + [SPACE] + value)[n..] == [SPACE] + value;
      assert (DATA_FIELD + value)[n..] == value;
      if after != [] && after[0] == SPACE {
        assert after == [SPACE] + after[1..];
        assert line == DATA_FIELD + [SPACE] + after[1..];
      }
    } else {
      assert DATA_FIELD <= DATA_FIELD + [SPACE] + value && DATA_FIELD <= DATA_FIELD + value;
    }
  }

  lemma CarriesIff(line: seq<Byte>, ended: bool, value: seq<Byte>)
    ensures Carries(line, ended, value) <==> FieldValue(if ended then StripSuffix(line, CR) else line) == Some(value)
  {
    hide IsField;
    hide WithoutCr;
    var rest := if ended then StripSuffix(line, CR) else line;
    FieldValueIff(rest, value);
    forall other ensures WithoutCr(line, other) <==> other == StripSuffix(line, CR) {
      StripIs(line, other);
    }
  }

  /** The values of the data fields among the lines, in their order; the last line may lack its LF. */
  ghost predicate Values(lines: seq<seq<Byte>>, tail: seq<Byte>, values: seq<seq<Byte>>)
    decreases |lines|
  {
    if lines == [] then
      if exists value :: Carries(tail, false, value) then |values| == 1 && Carries(tail, false, values[0]) else values == []
    else if exists value :: Carries(lines[0], true, value) then
      values != [] && Carries(lines[0], true, values[0]) && Values(lines[1..], tail, values[1..])
    else Values(lines[1..], tail, values)
  }

  lemma LineThenRest(line: seq<Byte>, rest: seq<Byte>)
    requires OneLine(line)
    ensures Lines(line + [LF] + rest) == [StripSuffix(line, CR)] + Lines(rest)
  {
    var text := line + [LF] + rest;
    assert At(text, [LF], |line|) by { assert text[|line|..|line| + 1] == [LF]; }
    PositionIsFirst(text, [LF], 0, |line|);
    var end := Position(text, [LF], 0).value;
    assert text[end] == text[end..end + 1][0] == LF;
    assert end == |line| && text[..end] == line && text[end + 1..] == rest;
  }

  lemma LastLine(tail: seq<Byte>)
    requires OneLine(tail)
    ensures Lines(tail) == if tail == [] then [] else [tail]
  {
    FoundIsThere(tail);
  }

  lemma FoundIsThere(text: seq<Byte>)
    ensures Position(text, [LF], 0).Some? ==> LF in text
  {
    if Position(text, [LF], 0).Some? {
      var end := Position(text, [LF], 0).value;
      assert text[end] == text[end..end + 1][0] == LF;
    }
  }

  lemma EndedCons(lines: seq<seq<Byte>>)
    requires lines != []
    ensures Ended(lines) == lines[0] + [LF] + Ended(lines[1..])
  {
    var parts := seq(|lines|, i requires 0 <= i < |lines| => lines[i] + [LF]);
    var rest := seq(|lines| - 1, i requires 0 <= i < |lines| - 1 => lines[1..][i] + [LF]);
    assert parts == [lines[0] + [LF]] + rest;
    JoinedPrepend(lines[0] + [LF], rest);
  }

  /** An event of any lines whatever has the values of its data fields for its data lines. */
  lemma {:induction false} DataLinesAre(lines: seq<seq<Byte>>, tail: seq<Byte>)
    requires OneLine(tail) && forall line :: line in lines ==> OneLine(line)
    ensures Values(lines, tail, DataLines(Lines(Ended(lines) + tail)))
    decreases |lines|
  {
    hide Carries;
    hide FieldValue;
    hide Lines;
    if lines == [] {
      assert Ended(lines) + tail == tail;
      LastLine(tail);
      forall value ensures Carries(tail, false, value) <==> FieldValue(tail) == Some(value) {
        CarriesIff(tail, false, value);
      }
      NoField();
      if tail != [] {
        DataLinesCons(tail, []);
        assert [tail] + [] == [tail];
      }
    } else {
      var first, rest := lines[0], Ended(lines[1..]) + tail;
      EndedCons(lines);
      Assoc(first + [LF], Ended(lines[1..]), tail);
      assert OneLine(first);
      LineThenRest(first, rest);
      DataLinesAre(lines[1..], tail);
      DataLinesCons(StripSuffix(first, CR), Lines(rest));
      forall value ensures Carries(first, true, value) <==> FieldValue(StripSuffix(first, CR)) == Some(value) {
        CarriesIff(first, true, value);
      }
      var later := DataLines(Lines(rest));
      match FieldValue(StripSuffix(first, CR))
      case Some(value) => assert ([value] + later)[1..] == later;
      case None => assert [] + later == later;
    }
  }

  lemma NoField()
    ensures FieldValue([]) == None
  {
  }

  /** Joined lines are the lines with an LF between any two: with one more at the end, each is ended. */
  lemma {:induction false} JoinLinesIs(lines: seq<seq<Byte>>)
    ensures if lines == [] then JoinLines(lines) == [] else JoinLines(lines) + [LF] == Ended(lines)
  {
    if lines != [] {
      EndedCons(lines);
      if |lines| == 1 {
        assert Ended(lines[1..]) == [];
      } else {
        JoinLinesIs(lines[1..]);
        Assoc(lines[0] + [LF], JoinLines(lines[1..]), [LF]);
      }
    }
  }

  /**
   The data of an event, told from its bytes: whatever lines it consists of, the
   values of its data fields, LF between any two, and nothing else.
   */
  lemma EventDataIs(lines: seq<seq<Byte>>, tail: seq<Byte>) returns (values: seq<seq<Byte>>)
    requires OneLine(tail) && forall line :: line in lines ==> OneLine(line)
    ensures Values(lines, tail, values)
    ensures var data := EventData(Ended(lines) + tail);
            if values == [] then data == [] else data + [LF] == Ended(values)
  {
    DataLinesAre(lines, tail);
    values := DataLines(Lines(Ended(lines) + tail));
    JoinLinesIs(values);
  }

  /** Every event consists of lines like that. */
  lemma {:induction false} AnyLines(event: seq<Byte>) returns (lines: seq<seq<Byte>>, tail: seq<Byte>)
    ensures OneLine(tail) && (forall line :: line in lines ==> OneLine(line)) && event == Ended(lines) + tail
    decreases |event|
  {
    if LF !in event {
      lines, tail := [], event;
      assert Ended(lines) + tail == tail;
    } else {
      var k := FirstAt(event);
      var more, last := AnyLines(event[k + 1..]);
      lines, tail := [event[..k]] + more, last;
      EndedCons(lines);
      assert lines[1..] == more;
      assert event == event[..k] + [LF] + event[k + 1..];
      Assoc(event[..k] + [LF], Ended(more), tail);
    }
  }

  lemma {:induction false} FirstAt(event: seq<Byte>) returns (k: nat)
    requires LF in event
    ensures k < |event| && event[k] == LF && OneLine(event[..k])
  {
    k := 0;
    while event[k] != LF
      invariant k < |event| && LF in event[k..] && forall i :: 0 <= i < k ==> event[i] != LF
      decreases |event| - k
    {
      assert event[k..] == [event[k]] + event[k + 1..];
      k := k + 1;
    }
  }
}
