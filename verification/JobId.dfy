/** Job identifiers (generateJobID in pkg/executor/executor.go): the text form of section 4
    of RFC 9562 with the version and variant bits of section 5.4. */
module JobId {

  type Bytes16 = s: seq<bv8> | |s| == 16 witness seq(16, _ => 0)

  const HEX := "0123456789abcdef"

  function HexDigit(n: bv8): (c: char)
    requires n < 16
    ensures c in HEX
  {
    HEX[n as int]
  }

  /** Digits first, then lower-case letters. */
  lemma HexDigitText(n: bv8)
    requires n < 16
    ensures HexDigit(n) as int == n as int + if n < 10 then '0' as int else 'a' as int - 10
  {
  }

  /** Version 4 in byte 6, variant 10 in byte 8, all other bits as drawn. */
  function Stamp(random: Bytes16): Bytes16 {
    random[6 := (random[6] & 0x0f) | 0x40][8 := (random[8] & 0x3f) | 0x80]
  }

  /** The two digits of a byte. */
  function Digits(b: bv8): (text: string)
    ensures |text| == 2
  {
    [HexDigit(b >> 4), HexDigit(b & 0x0f)]
  }

  /** hex.Encode. */
  function Encode(bytes: seq<bv8>): (text: string)
    ensures |text| == 2 * |bytes|
  {
    if bytes == [] then "" else Digits(bytes[0]) + Encode(bytes[1..])
  }

  /** The 8-4-4-4-12 layout. */
  function Layout(u: Bytes16): (text: string)
    ensures |text| == 36
  {
    Encode(u[..4]) + "-" + Encode(u[4..6]) + "-" + Encode(u[6..8]) + "-" + Encode(u[8..10]) + "-" + Encode(u[10..])
  }

  function JobIdOf(random: Bytes16): string {
    Layout(Stamp(random))
  }

  // ---------------------------------------------------------------- in-place construction

  lemma {:induction false} EncodeAt(bytes: seq<bv8>, k: nat)
    requires k < |bytes|
    ensures Encode(bytes)[2 * k] == Digits(bytes[k])[0]
    ensures Encode(bytes)[2 * k + 1] == Digits(bytes[k])[1]
  {
    var text, rest := Encode(bytes), bytes[1..];
    if k > 0 {
      EncodeAt(rest, k - 1);
      var tail := Encode(rest);
      assert text[2 * k] == tail[2 * (k - 1)] && text[2 * k + 1] == tail[2 * (k - 1) + 1];
    }
  }

  method HexEncodeInto(buf: array<char>, at: nat, bytes: seq<bv8>)
    requires at + 2 * |bytes| <= buf.Length
    modifies buf
    ensures buf[..at + 2 * |bytes|] == old(buf[..at]) + Encode(bytes)
    ensures buf[at + 2 * |bytes|..] == old(buf[at + 2 * |bytes|..])
  {
    for k := 0 to |bytes|
      invariant forall j | 0 <= j < buf.Length ::
                  buf[j] == if at <= j < at + 2 * k then Encode(bytes)[j - at] else old(buf[j])
    {
      EncodeAt(bytes, k);
      buf[at + 2 * k] := HexDigit(bytes[k] >> 4);
      buf[at + 2 * k + 1] := HexDigit(bytes[k] & 0x0f);
    }
  }

  method SetStamp(uuid: array<bv8>)
    requires uuid.Length == 16
    modifies uuid
    ensures uuid[..] == Stamp(old(uuid[..]))
  {
    uuid[6] := (uuid[6] & 0x0f) | 0x40;
    uuid[8] := (uuid[8] & 0x3f) | 0x80;
  }

  method Hyphen(buf: array<char>, at: nat)
    requires at < buf.Length
    modifies buf
    ensures buf[..at + 1] == old(buf[..at]) + "-"
    ensures buf[at + 1..] == old(buf[at + 1..])
  {
    buf[at] := '-';
  }

  method WriteGroups(u: Bytes16) returns (id: string)
    ensures id == Layout(u)
  {
    var buf := new char[36](_ => '\0');
    HexEncodeInto(buf, 0, u[..4]);
    Hyphen(buf, 8);
    HexEncodeInto(buf, 9, u[4..6]);
    Hyphen(buf, 13);
    ghost var half := Encode(u[..4]) + "-" + Encode(u[4..6]) + "-";
    assert buf[..14] == half;
    HexEncodeInto(buf, 14, u[6..8]);
    Hyphen(buf, 18);
    HexEncodeInto(buf, 19, u[8..10]);
    Hyphen(buf, 23);
    HexEncodeInto(buf, 24, u[10..]);
    assert buf[..] == buf[..36];
    id := buf[..];
  }

  /** `random` is what rand.Read put into the array. */
  method GenerateJobID(random: Bytes16) returns (id: string)
    ensures id == JobIdOf(random)
  {
    var uuid := new bv8[16](k requires 0 <= k < 16 => random[k]);
    assert uuid[..] == random;
    SetStamp(uuid);
    id := WriteGroups(uuid[..]);
  }

  // ---------------------------------------------------------------- and back

  function HexValue(c: char): (n: bv8)
    ensures n < 16
  {
    if c == '0' then 0 else if c == '1' then 1 else if c == '2' then 2 else if c == '3' then 3
    else if c == '4' then 4 else if c == '5' then 5 else if c == '6' then 6 else if c == '7' then 7
    else if c == '8' then 8 else if c == '9' then 9 else if c == 'a' then 10 else if c == 'b' then 11
    else if c == 'c' then 12 else if c == 'd' then 13 else if c == 'e' then 14 else if c == 'f' then 15
    else 0
  }

  lemma HexDigitRoundTrip(n: bv8)
    requires n < 16
    ensures HexValue(HexDigit(n)) == n
  {
    var k := n as int;
    assert n == k as bv8;
  }

  lemma HexValueRoundTrip(c: char)
    requires c in HEX
    ensures HexDigit(HexValue(c)) == c
  {
    var k :| 0 <= k < |HEX| && HEX[k] == c;
    var n := k as bv8;
    assert n as int == k && n < 16;
    HexDigitRoundTrip(n);
  }

  /** The byte two digits stand for. */
  function Byte(hi: char, lo: char): bv8 {
    (HexValue(hi) << 4) | HexValue(lo)
  }

  lemma JoinNibbles(h: bv8, l: bv8)
    requires h < 16 && l < 16
    ensures ((h << 4) | l) >> 4 == h && ((h << 4) | l) & 0x0f == l
  {
  }

  lemma DigitsOfByte(hi: char, lo: char)
    requires hi in HEX && lo in HEX
    ensures Digits(Byte(hi, lo)) == [hi, lo]
  {
    JoinNibbles(HexValue(hi), HexValue(lo));
    HexValueRoundTrip(hi);
    HexValueRoundTrip(lo);
  }

  lemma Nibbles(b: bv8)
    ensures b >> 4 < 16 && b & 0x0f < 16 && ((b >> 4) << 4) | (b & 0x0f) == b
  {
  }

  lemma ByteOfDigits(b: bv8)
    ensures Byte(Digits(b)[0], Digits(b)[1]) == b
    ensures Digits(b)[0] in HEX && Digits(b)[1] in HEX
  {
    Nibbles(b);
    HexDigitRoundTrip(b >> 4);
    HexDigitRoundTrip(b & 0x0f);
  }

  /** Reads digits two by two. */
  function DecodeHex(text: string): seq<bv8> {
    if |text| < 2 then [] else [Byte(text[0], text[1])] + DecodeHex(text[2..])
  }

  lemma {:induction false} DecodeUndoesEncode(bytes: seq<bv8>)
    ensures DecodeHex(Encode(bytes)) == bytes
  {
    if bytes != [] {
      var text, rest := Encode(bytes), bytes[1..];
      DecodeUndoesEncode(rest);
      ByteOfDigits(bytes[0]);
      assert text[2..] == Encode(rest) && text[..2] == Digits(bytes[0]);
      assert bytes == [bytes[0]] + rest;
    }
  }

  predicate IsHex(text: string) {
    forall k | 0 <= k < |text| :: text[k] in HEX
  }

  lemma {:induction false} EncodeIsHex(bytes: seq<bv8>)
    ensures IsHex(Encode(bytes))
  {
    if bytes != [] {
      EncodeIsHex(bytes[1..]);
      ByteOfDigits(bytes[0]);
    }
  }

  lemma {:induction false} EncodeUndoesDecode(text: string, n: nat)
    requires IsHex(text) && |text| == 2 * n
    ensures Encode(DecodeHex(text)) == text
    ensures |DecodeHex(text)| == n
  {
    if n > 0 {
      var rest, bytes := text[2..], DecodeHex(text);
      EncodeUndoesDecode(rest, n - 1);
      DigitsOfByte(text[0], text[1]);
      assert bytes[1..] == DecodeHex(rest);
      assert text == [text[0], text[1]] + rest;
    }
  }

  // ---------------------------------------------------------------- identifiers

  /** The five groups of a text in the layout. */
  function Groups(id: string): seq<string>
    requires |id| == 36
  {
    [id[..8], id[9..13], id[14..18], id[19..23], id[24..]]
  }

  function ReadId(id: string): seq<bv8>
    requires |id| == 36
  {
    var g := Groups(id);
    DecodeHex(g[0]) + DecodeHex(g[1]) + DecodeHex(g[2]) + DecodeHex(g[3]) + DecodeHex(g[4])
  }

  lemma JoinedGroups(a: string, b: string, c: string, d: string, e: string)
    requires |a| == 8 && |b| == |c| == |d| == 4 && |e| == 12
    ensures var id := a + "-" + b + "-" + c + "-" + d + "-" + e;
            |id| == 36 && Groups(id) == [a, b, c, d, e] && id[8] == id[13] == id[18] == id[23] == '-'
  {
    var id := a + "-" + b + "-" + c + "-" + d + "-" + e;
    assert id[..8] == a;
    assert id[9..13] == b;
    assert id[14..18] == c;
    assert id[19..23] == d;
    assert id[24..] == e;
  }

  lemma LayoutGroups(u: Bytes16)
    ensures Groups(Layout(u)) == [Encode(u[..4]), Encode(u[4..6]), Encode(u[6..8]), Encode(u[8..10]), Encode(u[10..])]
    ensures Layout(u)[8] == Layout(u)[13] == Layout(u)[18] == Layout(u)[23] == '-'
  {
    JoinedGroups(Encode(u[..4]), Encode(u[4..6]), Encode(u[6..8]), Encode(u[8..10]), Encode(u[10..]));
  }

  lemma SplitGroups(id: string)
    requires |id| == 36 && id[8] == id[13] == id[18] == id[23] == '-'
    ensures var g := Groups(id); id == g[0] + "-" + g[1] + "-" + g[2] + "-" + g[3] + "-" + g[4]
  {
    var g := Groups(id);
    assert id[..9] == g[0] + "-";
    assert id[..14] == id[..9] + g[1] + "-";
    assert id[..19] == id[..14] + g[2] + "-";
    assert id[..24] == id[..19] + g[3] + "-";
    assert id == id[..24] + g[4];
  }

  /** The text form loses nothing. */
  lemma ReadUndoesLayout(u: Bytes16)
    ensures ReadId(Layout(u)) == u
  {
    LayoutGroups(u);
    DecodeUndoesEncode(u[..4]);
    DecodeUndoesEncode(u[4..6]);
    DecodeUndoesEncode(u[6..8]);
    DecodeUndoesEncode(u[8..10]);
    DecodeUndoesEncode(u[10..]);
  }

  /** Agreement on the 122 bits that are not overwritten. */
  predicate SameRandomBits(r: Bytes16, s: Bytes16) {
    && (forall k | 0 <= k < 16 && k != 6 && k != 8 :: r[k] == s[k])
    && r[6] & 0x0f == s[6] & 0x0f
    && r[8] & 0x3f == s[8] & 0x3f
  }

  lemma StampedBits(a: bv8, b: bv8)
    ensures (a & 0x0f) | 0x40 == (b & 0x0f) | 0x40 <==> a & 0x0f == b & 0x0f
    ensures (a & 0x3f) | 0x80 == (b & 0x3f) | 0x80 <==> a & 0x3f == b & 0x3f
  {
  }

  lemma StampAt(r: Bytes16)
    ensures Stamp(r)[6] == (r[6] & 0x0f) | 0x40 && Stamp(r)[8] == (r[8] & 0x3f) | 0x80
    ensures forall k | 0 <= k < 16 && k != 6 && k != 8 :: Stamp(r)[k] == r[k]
  {
  }

  lemma StampsAgree(r: Bytes16, s: Bytes16)
    ensures Stamp(r) == Stamp(s) <==> SameRandomBits(r, s)
  {
    StampAt(r);
    StampAt(s);
    StampedBits(r[6], s[6]);
    StampedBits(r[8], s[8]);
    var a, b := Stamp(r), Stamp(s);
    if a == b {
      assert forall k | 0 <= k < 16 && k != 6 && k != 8 :: a[k] == r[k] && b[k] == s[k];
    } else {
      var k :| 0 <= k < 16 && a[k] != b[k];
    }
  }

  /** MAIN RESULT.  The identifier determines the stamped bytes, and two draws collide exactly
      when they agree on all 122 random bits. */
  lemma IdsCollideIff(r: Bytes16, s: Bytes16)
    ensures ReadId(JobIdOf(r)) == Stamp(r)
    ensures JobIdOf(r) == JobIdOf(s) <==> SameRandomBits(r, s)
  {
    ReadUndoesLayout(Stamp(r));
    ReadUndoesLayout(Stamp(s));
    StampsAgree(r, s);
  }

  /** A version 4 identifier as RFC 9562 writes it. */
  predicate WellFormed(id: string) {
    && |id| == 36
    && id[8] == id[13] == id[18] == id[23] == '-'
    && IsHex(id[..8]) && IsHex(id[9..13]) && IsHex(id[14..18]) && IsHex(id[19..23]) && IsHex(id[24..])
    && id[14] == '4' && id[19] in "89ab"
  }

  lemma VersionDigit(b: bv8)
    ensures HexDigit(b >> 4) == '4' <==> (b & 0x0f) | 0x40 == b
  {
    HexDigitRoundTrip(b >> 4);
    assert HexDigit(4) == '4';
  }

  lemma VariantDigit(b: bv8)
    ensures HexDigit(b >> 4) in "89ab" <==> (b & 0x3f) | 0x80 == b
  {
    HexDigitRoundTrip(b >> 4);
    var n := b >> 4;
    assert HexDigit(8) == '8' && HexDigit(9) == '9' && HexDigit(10) == 'a' && HexDigit(11) == 'b';
    assert HexDigit(n) in "89ab" <==> n == 8 || n == 9 || n == 10 || n == 11;
  }

  lemma StampTwice(a: bv8, b: bv8)
    ensures (((a & 0x0f) | 0x40) & 0x0f) | 0x40 == (a & 0x0f) | 0x40
    ensures (((b & 0x3f) | 0x80) & 0x3f) | 0x80 == (b & 0x3f) | 0x80
  {
  }

  lemma FirstDigits(u: Bytes16)
    ensures Layout(u)[14] == HexDigit(u[6] >> 4) && Layout(u)[19] == HexDigit(u[8] >> 4)
  {
    LayoutGroups(u);
    var g := Groups(Layout(u));
    assert Layout(u)[14] == g[2][0] && Layout(u)[19] == g[3][0];
    assert u[6..8][0] == u[6] && u[8..10][0] == u[8];
  }

  lemma StampedIsWellFormed(u: Bytes16)
    requires (u[6] & 0x0f) | 0x40 == u[6] && (u[8] & 0x3f) | 0x80 == u[8]
    ensures WellFormed(Layout(u))
  {
    LayoutGroups(u);
    EncodeIsHex(u[..4]);
    EncodeIsHex(u[4..6]);
    EncodeIsHex(u[6..8]);
    EncodeIsHex(u[8..10]);
    EncodeIsHex(u[10..]);
    FirstDigits(u);
    VersionDigit(u[6]);
    VariantDigit(u[8]);
  }

  lemma SliceFive(a: seq<bv8>, b: seq<bv8>, c: seq<bv8>, d: seq<bv8>, e: seq<bv8>)
    requires |a| == 4 && |b| == |c| == |d| == 2 && |e| == 6
    ensures var u := a + b + c + d + e;
            |u| == 16 && u[..4] == a && u[4..6] == b && u[6..8] == c && u[8..10] == d && u[10..] == e
  {
  }

  lemma LayoutOfParts(a: seq<bv8>, b: seq<bv8>, c: seq<bv8>, d: seq<bv8>, e: seq<bv8>)
    requires |a| == 4 && |b| == |c| == |d| == 2 && |e| == 6
    ensures Layout(a + b + c + d + e)
         == Encode(a) + "-" + Encode(b) + "-" + Encode(c) + "-" + Encode(d) + "-" + Encode(e)
  {
    SliceFive(a, b, c, d, e);
  }

  /** Decoding the groups one by one and laying them out again. */
  lemma GroupsRoundTrip(g: seq<string>)
    requires |g| == 5 && |g[0]| == 8 && |g[1]| == |g[2]| == |g[3]| == 4 && |g[4]| == 12
    requires forall k | 0 <= k < 5 :: IsHex(g[k])
    ensures var u := DecodeHex(g[0]) + DecodeHex(g[1]) + DecodeHex(g[2]) + DecodeHex(g[3]) + DecodeHex(g[4]);
            |u| == 16 && Layout(u) == g[0] + "-" + g[1] + "-" + g[2] + "-" + g[3] + "-" + g[4]
  {
    EncodeUndoesDecode(g[0], 4);
    EncodeUndoesDecode(g[1], 2);
    EncodeUndoesDecode(g[2], 2);
    EncodeUndoesDecode(g[3], 2);
    EncodeUndoesDecode(g[4], 6);
    LayoutOfParts(DecodeHex(g[0]), DecodeHex(g[1]), DecodeHex(g[2]), DecodeHex(g[3]), DecodeHex(g[4]));
  }

  lemma ReadGroups(id: string)
    requires WellFormed(id)
    ensures |ReadId(id)| == 16 && Layout(ReadId(id)) == id
  {
    GroupsRoundTrip(Groups(id));
    SplitGroups(id);
  }

  lemma WellFormedIsDrawn(id: string)
    requires WellFormed(id)
    ensures |ReadId(id)| == 16 && JobIdOf(ReadId(id)) == id
  {
    ReadGroups(id);
    var u: Bytes16 := ReadId(id);
    FirstDigits(u);
    VersionDigit(u[6]);
    VariantDigit(u[8]);
    assert Stamp(u) == u;
  }

  /** MAIN RESULT.  The identifiers that can be drawn are exactly the well-formed ones. */
  lemma IdsAreWellFormed(id: string)
    ensures (exists r: Bytes16 :: JobIdOf(r) == id) <==> WellFormed(id)
  {
    forall r: Bytes16 ensures WellFormed(JobIdOf(r)) {
      StampTwice(r[6], r[8]);
      StampedIsWellFormed(Stamp(r));
    }
    if WellFormed(id) {
      WellFormedIsDrawn(id);
      assert JobIdOf(ReadId(id)) == id;
    }
  }
}
