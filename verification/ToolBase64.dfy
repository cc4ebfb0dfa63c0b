/**
 The tool worker's base64 decoder, against the encoding of section 4 of RFC 4648:
 bytes and digits are read as big-endian numbers.
 */
module ToolBase64 {
  import opened Common

  type Digits = seq<nat>

  const PAD := '='

  /** Six bits of a character; nothing for a character outside the alphabet. */
  function Digit(c: char): (r: Option<nat>)
    ensures r.Some? ==> r.value < 64
  {
    if 'A' <= c <= 'Z' then Some(c as nat - 'A' as nat)
    else if 'a' <= c <= 'z' then Some(c as nat - 'a' as nat + 26)
    else if '0' <= c <= '9' then Some(c as nat - '0' as nat + 52)
    else if c == '+' then Some(62)
    else if c == '/' then Some(63)
    else None
  }

  /** The base 64 alphabet. */
  function Character(d: nat): char
    requires d < 64
  {
    if d < 26 then ('A' as nat + d) as char
    else if d < 52 then ('a' as nat + d - 26) as char
    else if d < 62 then ('0' as nat + d - 52) as char
    else if d == 62 then '+'
    else '/'
  }

  lemma CharacterDigit(d: nat)
    requires d < 64
    ensures Digit(Character(d)) == Some(d) && Character(d) != PAD
  {
  }

  /** Table 1 of RFC 4648: capitals, small letters, numerals, plus and slash, in this order. */
  lemma DigitIs(c: char, d: nat)
    ensures Digit(c) == Some(d) <==>
            || (d <= 25 && c as int == 'A' as int + d) || (26 <= d <= 51 && c as int == 'a' as int + (d - 26))
            || (52 <= d <= 61 && c as int == '0' as int + (d - 52)) || (c == '+' && d == 62) || (c == '/' && d == 63)
  {
  }

  // ---- numbers ----

  ghost predicate Below(base: nat, s: Digits) {
    forall d :: d in s ==> d < base
  }

  /** The number with these digits, the most significant first. */
  function Number(base: nat, s: Digits): nat {
    if s == [] then 0 else Number(base, s[..|s| - 1]) * base + s[|s| - 1]
  }

  lemma NumberSnoc(base: nat, s: Digits, d: nat)
    ensures Number(base, s + [d]) == Number(base, s) * base + d
  {
    SnocInit(s, d);
  }

  lemma SplitUnique(base: nat, x: nat, a: nat, y: nat, b: nat)
    requires a < base && b < base && x * base + a == y * base + b
    ensures x == y && a == b
  {
    TimesGrows(y, x + 1, base);
    TimesGrows(x, y + 1, base);
  }

  lemma BelowInit(base: nat, s: Digits)
    requires s != [] && Below(base, s)
    ensures Below(base, s[..|s| - 1])
  {
    var init := s[..|s| - 1];
    forall d | d in init ensures d < base {
      assert d in s;
    }
  }

  lemma {:induction false} NumberInjective(base: nat, s: Digits, t: Digits)
    requires Below(base, s) && Below(base, t) && |s| == |t| && Number(base, s) == Number(base, t)
    ensures s == t
  {
    if s != [] {
      var n := |s| - 1;
      assert s[n] in s && t[n] in t;
      BelowInit(base, s);
      BelowInit(base, t);
      SplitUnique(base, Number(base, s[..n]), s[n], Number(base, t[..n]), t[n]);
      NumberInjective(base, s[..n], t[..n]);
      TakeDrop(s, n);
      TakeDrop(t, n);
    }
  }

  /** Bits carried over between characters: always an even number below eight. */
  function Weight(bits: nat): nat {
    if bits == 0 then 1 else if bits == 2 then 4 else if bits == 4 then 16 else 64
  }

  // ---- decoding ----

  /** The characters before the padding. */
  function Payload(value: string): string {
    if value == [] || value[0] == PAD then [] else [value[0]] + Payload(value[1..])
  }

  ghost predicate Legal(payload: string) {
    forall c :: c in payload ==> Digit(c).Some?
  }

  function DigitsOf(payload: string): Digits
    requires Legal(payload)
  {
    if payload == [] then []
    else
      assert payload[|payload| - 1] in payload;
      DigitsOf(payload[..|payload| - 1]) + [Digit(payload[|payload| - 1]).value]
  }

  /**
   What the digits amount to: as many whole bytes as they fill, whose number is
   that of the digits without the bits left over.
   */
  ghost predicate Amounts(digits: Digits, output: Digits, rest: nat, bits: nat) {
    && bits < 8 && bits % 2 == 0 && rest < Weight(bits) && Below(256, output)
    && 8 * |output| + bits == 6 * |digits|
    && Number(64, digits) == Number(256, output) * Weight(bits) + rest
  }

  /** The output and what is left over are determined by the digits. */
  lemma AmountsUnique(digits: Digits, a: Digits, r: nat, m: nat, b: Digits, s: nat, n: nat)
    requires Amounts(digits, a, r, m) && Amounts(digits, b, s, n)
    ensures a == b && r == s && m == n
  {
    hide Number;
    hide Below;
    assert m == n && |a| == |b|;
    SplitUnique(Weight(m), Number(256, a), r, Number(256, b), s);
    NumberInjective(256, a, b);
  }

  /** The bytes out so far, and the bits not yet enough for another. */
  datatype Taken = Taken(output: Digits, rest: nat, bits: nat)

  function Take(t: Taken, d: nat): Taken {
    var wide := t.rest * 64 + d;
    if t.bits + 6 < 8 then Taken(t.output, wide, t.bits + 6)
    else
      var left := t.bits + 6 - 8;
      Taken(t.output + [wide / Weight(left)], wide % Weight(left), left)
  }

  function TakeAll(digits: Digits): Taken {
    if digits == [] then Taken([], 0, 0) else Take(TakeAll(digits[..|digits| - 1]), digits[|digits| - 1])
  }

  function Decoded(value: string): Result<Digits, string> {
    if forall c :: c in Payload(value) ==> Digit(c).Some? then Ok(TakeAll(DigitsOf(Payload(value))).output)
    else Err("invalid base64")
  }

  lemma TakeDigit(digits: Digits, t: Taken, d: nat)
    requires Amounts(digits, t.output, t.rest, t.bits) && d < 64
    ensures t.rest * 64 + d < 4096
    ensures t.bits + 6 >= 8 ==> (t.rest * 64 + d) / Weight(t.bits + 6 - 8) < 256
    ensures var u := Take(t, d); Amounts(digits + [d], u.output, u.rest, u.bits)
  {
    hide Number;
    NumberSnoc(64, digits, d);
    if t.bits != 0 {
      var left := t.bits + 6 - 8;
      NumberSnoc(256, t.output, (t.rest * 64 + d) / Weight(left));
      if t.bits == 2 {
        assert left == 0;
      } else if t.bits == 4 {
        assert left == 2;
      } else {
        assert left == 4;
      }
    }
  }

  /** Every digit string amounts to what is decoded from it; the 32-bit buffer never holds more than twelve bits. */
  lemma {:induction false} TakeAllAmounts(digits: Digits)
    requires Below(64, digits)
    ensures var t := TakeAll(digits); Amounts(digits, t.output, t.rest, t.bits)
  {
    hide Amounts;
    hide Take;
    if digits == [] {
      NothingDecoded();
    } else {
      var n := |digits| - 1;
      BelowInit(64, digits);
      assert digits[n] in digits;
      TakeAllAmounts(digits[..n]);
      TakeDigit(digits[..n], TakeAll(digits[..n]), digits[n]);
      assert digits == digits[..n] + [digits[n]];
    }
  }

  method Decode(value: string) returns (r: Result<Digits, string>)
    ensures r == Decoded(value)
    ensures r.Ok? ==> Below(256, r.value) && |r.value| == 6 * |Payload(value)| / 8
  {
    hide Amounts;
    hide TakeAll;
    hide Payload;
    hide DigitsOf;
    var output: Digits := [];
    var buffer: nat, bits: nat := 0, 0;
    NothingTaken(value);
    var k := 0;
    while k < |value|
      invariant k <= |value| && Legal(value[..k]) && PAD !in value[..k]
      invariant TakeAll(DigitsOf(value[..k])) == Taken(output, buffer, bits)
      invariant Amounts(DigitsOf(value[..k]), output, buffer, bits)
    {
      var c := value[k];
      if c == PAD {
        break;
      }
      PayloadHas(value, k);
      var digit := Digit(c);
      if digit.None? {
        return Err("invalid base64");
      }
      TakeChar(value, k);
      TakeDigit(DigitsOf(value[..k]), Taken(output, buffer, bits), digit.value);
      buffer := buffer * 64 + digit.value;
      assert buffer < 0x1_0000_0000;
      bits := bits + 6;
      if bits >= 8 {
        bits := bits - 8;
        output := output + [buffer / Weight(bits)];
        buffer := buffer % Weight(bits);
      }
      k := k + 1;
    }
    PayloadIs(value, k);
    AmountsLength(value[..k], output, buffer, bits);
    r := Ok(output);
  }

  lemma NothingTaken(value: string)
    ensures DigitsOf(value[..0]) == [] && TakeAll([]) == Taken([], 0, 0) && Amounts([], [], 0, 0)
  {
  }

  lemma NothingDecoded()
    ensures Amounts([], [], 0, 0)
  {
  }

  lemma {:induction false} AmountsLength(payload: string, output: Digits, rest: nat, bits: nat)
    requires Legal(payload) && Amounts(DigitsOf(payload), output, rest, bits)
    ensures Below(256, output) && |output| == 6 * |payload| / 8
  {
    hide Number;
    DigitsLength(payload);
  }

  lemma {:induction false} DigitsLength(payload: string)
    requires Legal(payload)
    ensures |DigitsOf(payload)| == |payload|
  {
    if payload != [] {
      DigitsLength(payload[..|payload| - 1]);
    }
  }

  lemma TakeChar(value: string, k: nat)
    requires k < |value| && Legal(value[..k]) && Digit(value[k]).Some?
    ensures Legal(value[..k + 1]) && DigitsOf(value[..k + 1]) == DigitsOf(value[..k]) + [Digit(value[k]).value]
    ensures TakeAll(DigitsOf(value[..k + 1])) == Take(TakeAll(DigitsOf(value[..k])), Digit(value[k]).value)
  {
    assert value[..k + 1] == value[..k] + [value[k]];
    assert value[..k + 1][..k] == value[..k];
    SnocInit(DigitsOf(value[..k]), Digit(value[k]).value);
  }

  lemma {:induction false} PayloadIs(value: string, k: nat)
    requires k <= |value| && PAD !in value[..k] && (k == |value| || value[k] == PAD)
    ensures Payload(value) == value[..k]
  {
    if k > 0 {
      assert value[..k] == [value[0]] + value[1..][..k - 1];
      assert value[0] in value[..k];
      PayloadIs(value[1..], k - 1);
    }
  }

  lemma {:induction false} PayloadHas(value: string, k: nat)
    requires k < |value| && PAD !in value[..k] && value[k] != PAD
    ensures value[k] in Payload(value)
  {
    if k > 0 {
      assert value[..k] == [value[0]] + value[1..][..k - 1];
      assert value[0] in value[..k];
      PayloadHas(value[1..], k - 1);
    }
  }

  // ---- encoding ----

  /** Three bytes as four digits. */
  function Quad(a: nat, b: nat, c: nat): Digits {
    [a / 4, a % 4 * 16 + b / 16, b % 16 * 4 + c / 64, c % 64]
  }

  /** The digits of a byte string; a last group of one or two bytes is filled with zero bits. */
  function Groups(bytes: Digits): Digits {
    var n := |bytes|;
    if n == 0 then []
    else if n % 3 == 1 then Groups(bytes[..n - 1]) + Quad(bytes[n - 1], 0, 0)[..2]
    else if n % 3 == 2 then Groups(bytes[..n - 2]) + Quad(bytes[n - 2], bytes[n - 1], 0)[..3]
    else Groups(bytes[..n - 3]) + Quad(bytes[n - 3], bytes[n - 2], bytes[n - 1])
  }

  function Characters(digits: Digits): (s: string)
    requires Below(64, digits)
    ensures |s| == |digits|
  {
    seq(|digits|, i requires 0 <= i < |digits| => assert digits[i] in digits; Character(digits[i]))
  }

  function Padding(n: nat): string {
    if n % 3 == 1 then "==" else if n % 3 == 2 then "=" else ""
  }

  lemma NumberAppend2(base: nat, s: Digits, a: nat, b: nat)
    ensures Number(base, s + [a, b]) == (Number(base, s) * base + a) * base + b
  {
    NumberSnoc(base, s, a);
    NumberSnoc(base, s + [a], b);
    assert s + [a, b] == s + [a] + [b];
  }

  lemma NumberAppend3(base: nat, s: Digits, a: nat, b: nat, c: nat)
    ensures Number(base, s + [a, b, c]) == ((Number(base, s) * base + a) * base + b) * base + c
  {
    NumberAppend2(base, s, a, b);
    NumberSnoc(base, s + [a, b], c);
    assert s + [a, b, c] == s + [a, b] + [c];
  }

  lemma NumberAppend4(base: nat, s: Digits, a: nat, b: nat, c: nat, d: nat)
    ensures Number(base, s + [a, b, c, d]) == (((Number(base, s) * base + a) * base + b) * base + c) * base + d
  {
    NumberAppend3(base, s, a, b, c);
    NumberSnoc(base, s + [a, b, c], d);
    assert s + [a, b, c, d] == s + [a, b, c] + [d];
  }

  function Spare(n: nat): nat {
    if n % 3 == 1 then 4 else if n % 3 == 2 then 2 else 0
  }

  lemma OneByte(before: Digits, whole: Digits, a: nat)
    requires Amounts(before, whole, 0, 0) && Below(64, before) && a < 256
    ensures Amounts(before + Quad(a, 0, 0)[..2], whole + [a], 0, 4) && Below(64, before + Quad(a, 0, 0)[..2])
  {
    hide Number;
    NumberSnoc(256, whole, a);
    assert Quad(a, 0, 0)[..2] == [a / 4, a % 4 * 16];
    NumberAppend2(64, before, a / 4, a % 4 * 16);
  }

  lemma TwoBytes(before: Digits, whole: Digits, a: nat, b: nat)
    requires Amounts(before, whole, 0, 0) && Below(64, before) && a < 256 && b < 256
    ensures Amounts(before + Quad(a, b, 0)[..3], whole + [a, b], 0, 2) && Below(64, before + Quad(a, b, 0)[..3])
  {
    hide Number;
    NumberAppend2(256, whole, a, b);
    assert Quad(a, b, 0)[..3] == [a / 4, a % 4 * 16 + b / 16, b % 16 * 4];
    NumberAppend3(64, before, a / 4, a % 4 * 16 + b / 16, b % 16 * 4);
  }

  lemma ThreeBytes(before: Digits, whole: Digits, a: nat, b: nat, c: nat)
    requires Amounts(before, whole, 0, 0) && Below(64, before) && a < 256 && b < 256 && c < 256
    ensures Amounts(before + Quad(a, b, c), whole + [a, b, c], 0, 0) && Below(64, before + Quad(a, b, c))
  {
    hide Number;
    NumberAppend3(256, whole, a, b, c);
    NumberAppend4(64, before, a / 4, a % 4 * 16 + b / 16, b % 16 * 4 + c / 64, c % 64);
  }

  /** The digits of an encoding amount to the bytes, with zero bits left over. */
  lemma {:induction false} GroupsAmount(bytes: Digits)
    requires Below(256, bytes)
    ensures Below(64, Groups(bytes)) && Amounts(Groups(bytes), bytes, 0, Spare(|bytes|))
    decreases |bytes|
  {
    hide Number;
    hide Amounts;
    hide Quad;
    hide Below;
    var n := |bytes|;
    if n == 0 {
      NothingDecoded();
      NothingBelow();
    } else {
      var whole := n - if n % 3 == 0 then 3 else n % 3;
      assert whole % 3 == 0;
      LastGroup(bytes, whole);
      GroupsAmount(bytes[..whole]);
      var before := Groups(bytes[..whole]);
      if n % 3 == 1 {
        OneByte(before, bytes[..whole], bytes[n - 1]);
      } else if n % 3 == 2 {
        TwoBytes(before, bytes[..whole], bytes[n - 2], bytes[n - 1]);
      } else {
        ThreeBytes(before, bytes[..whole], bytes[n - 3], bytes[n - 2], bytes[n - 1]);
      }
    }
  }

  lemma NothingBelow()
    ensures Below(64, [])
  {
  }

  lemma LastGroup(bytes: Digits, whole: nat)
    requires Below(256, bytes) && whole < |bytes| <= whole + 3
    ensures Below(256, bytes[..whole]) && forall i :: whole <= i < |bytes| ==> bytes[i] < 256
    ensures |bytes| == whole + 1 ==> bytes == bytes[..whole] + [bytes[whole]]
    ensures |bytes| == whole + 2 ==> bytes == bytes[..whole] + [bytes[whole], bytes[whole + 1]]
    ensures |bytes| == whole + 3 ==> bytes == bytes[..whole] + [bytes[whole], bytes[whole + 1], bytes[whole + 2]]
  {
    forall i | whole <= i < |bytes| ensures bytes[i] < 256 {
      assert bytes[i] in bytes;
    }
    var init := bytes[..whole];
    forall d | d in init ensures d < 256 {
      assert d in bytes;
    }
  }

  function Encoded(bytes: Digits): (s: string)
    requires Below(256, bytes)
  {
    GroupsAmount(bytes);
    Characters(Groups(bytes)) + Padding(|bytes|)
  }

  lemma CharacterAt(digits: Digits, i: nat)
    requires Below(64, digits) && i < |digits|
    ensures |Characters(digits)| == |digits|
    ensures Digit(Characters(digits)[i]) == Some(digits[i]) && Characters(digits)[i] != PAD
  {
    hide Digit;
    assert digits[i] in digits;
    CharacterDigit(digits[i]);
  }

  lemma {:induction false} CharactersDecode(digits: Digits)
    requires Below(64, digits)
    ensures Legal(Characters(digits)) && PAD !in Characters(digits) && DigitsOf(Characters(digits)) == digits
  {
    hide Digit;
    hide Character;
    var s := Characters(digits);
    forall i | 0 <= i < |s| ensures Digit(s[i]) == Some(digits[i]) && s[i] != PAD {
      CharacterAt(digits, i);
    }
    if digits != [] {
      var n := |digits| - 1;
      assert Below(64, digits[..n]);
      CharactersDecode(digits[..n]);
      assert s[..n] == Characters(digits[..n]);
      TakeDrop(digits, n);
    }
  }

  /** Decoding the characters of an encoding gives the bytes back, whatever follows the first padding character. */
  lemma DecodeCharacters(bytes: Digits, tail: string)
    requires Below(256, bytes) && (tail == "" || tail[0] == PAD)
    ensures Below(64, Groups(bytes)) && Decoded(Characters(Groups(bytes)) + tail) == Ok(bytes)
  {
    hide Amounts;
    hide Groups;
    hide Payload;
    hide DigitsOf;
    GroupsAmount(bytes);
    var digits := Groups(bytes);
    var s := Characters(digits);
    CharactersDecode(digits);
    assert (s + tail)[..|s|] == s;
    PayloadIs(s + tail, |s|);
    TakeAllAmounts(digits);
    var t := TakeAll(digits);
    AmountsUnique(digits, t.output, t.rest, t.bits, bytes, 0, Spare(|bytes|));
  }

  /** The round trip over the padded encoding, for every byte string. */
  lemma RoundTrip(bytes: Digits)
    requires Below(256, bytes)
    ensures Decoded(Encoded(bytes)) == Ok(bytes) && |Encoded(bytes)| % 4 == 0
  {
    hide Decoded;
    hide Characters;
    hide Groups;
    DecodeCharacters(bytes, Padding(|bytes|));
    EncodedLength(bytes);
  }

  lemma EncodedLength(bytes: Digits)
    requires Below(256, bytes)
    ensures |Encoded(bytes)| % 4 == 0
    ensures Below(64, Groups(bytes)) && Encoded(bytes) == Characters(Groups(bytes)) + Padding(|bytes|)
  {
    hide Groups;
    hide Below;
    hide Number;
    hide Amounts;
    GroupsAmount(bytes);
    GroupsLength(bytes);
  }

  lemma QuadLength()
    ensures forall a, b, c :: |Quad(a, b, c)| == 4
  {
  }

  lemma {:induction false} GroupsLength(bytes: Digits)
    ensures |Groups(bytes)| == |bytes| / 3 * 4 + if |bytes| % 3 == 0 then 0 else |bytes| % 3 + 1
    decreases |bytes|
  {
    hide Quad;
    var n := |bytes|;
    if n != 0 {
      var whole := n - if n % 3 == 0 then 3 else n % 3;
      assert whole % 3 == 0;
      GroupsLength(bytes[..whole]);
      QuadLength();
    }
  }

  /** The decoder asks for no padding. */
  lemma UnpaddedRoundTrip(bytes: Digits)
    requires Below(256, bytes)
    ensures Below(64, Groups(bytes)) && Decoded(Characters(Groups(bytes))) == Ok(bytes)
  {
    hide Decoded;
    DecodeCharacters(bytes, "");
    NilUnit(Characters(Groups(bytes)));
  }
}
