/** Percent-encoding of path segments, byte by byte, as the client and the server do it. */
module PercentEncoding {
  import opened Wrappers

  type byte = x: int | 0 <= x < 256

  type Bytes = seq<byte>

  const PERCENT: byte := 0x25
  const SLASH: byte := 0x2F
  const QUESTION: byte := 0x3F
  const HASH: byte := 0x23
  const DOT: byte := 0x2E

  predicate IsDigit(b: byte) { 0x30 <= b <= 0x39 }

  predicate IsAlphanumeric(b: byte) {
    IsDigit(b) || 0x41 <= b <= 0x5A || 0x61 <= b <= 0x7A
  }

  /** Encode sets hold ASCII bytes; bytes beyond ASCII are always encoded. */
  type AsciiSet = set<byte>

  /** The client's set: every ASCII byte that is not a letter or a digit. */
  const NON_ALPHANUMERIC: AsciiSet := set b: byte | b < 0x80 && !IsAlphanumeric(b)

  const CONTROLS: AsciiSet := set b: byte | b < 0x20 || b == 0x7F

  /** The server's set: controls, space, and  " # < > ? ` { } / % [ ] @ :  */
  const PATH_SEGMENT: AsciiSet :=
    CONTROLS + {0x20, 0x22, 0x23, 0x3C, 0x3E, 0x3F, 0x60, 0x7B, 0x7D, 0x2F, 0x25, 0x5B, 0x5D, 0x40, 0x3A}

  predicate ShouldEncode(encodeSet: AsciiSet, b: byte) {
    b >= 0x80 || b in encodeSet
  }

  /** Upper-case hexadecimal digits. */
  function HexDigit(n: int): byte
    requires 0 <= n < 16
  {
    if n < 10 then 0x30 + n else 0x41 + n - 10
  }

  /** Digits of either case are read. */
  function HexValue(b: byte): Option<int> {
    if IsDigit(b) then Some(b - 0x30)
    else if 0x41 <= b <= 0x46 then Some(b - 0x41 + 10)
    else if 0x61 <= b <= 0x66 then Some(b - 0x61 + 10)
    else None
  }

  function EncodeByte(encodeSet: AsciiSet, b: byte): Bytes {
    if ShouldEncode(encodeSet, b) then [PERCENT, HexDigit(b / 16), HexDigit(b % 16)] else [b]
  }

  function Encode(encodeSet: AsciiSet, s: Bytes): Bytes {
    if s == [] then [] else EncodeByte(encodeSet, s[0]) + Encode(encodeSet, s[1..])
  }

  predicate IsTriplet(t: Bytes) {
    |t| >= 3 && t[0] == PERCENT && HexValue(t[1]).Some? && HexValue(t[2]).Some?
  }

  function TripletValue(t: Bytes): byte
    requires IsTriplet(t)
  {
    HexByte(HexValue(t[1]).value, HexValue(t[2]).value)
  }

  function HexByte(high: int, low: int): byte
    requires 0 <= high < 16 && 0 <= low < 16
  {
    16 * high + low
  }

  /** Decodes the triplets; a percent sign that starts none stands for itself. */
  function Decode(t: Bytes): Bytes {
    if t == [] then []
    else if IsTriplet(t) then [TripletValue(t)] + Decode(t[3..])
    else [t[0]] + Decode(t[1..])
  }

  // ---------------------------------------------------------------- round trip

  lemma HexRoundTrip(b: byte)
    ensures HexValue(HexDigit(b / 16)) == Some(b / 16) && HexValue(HexDigit(b % 16)) == Some(b % 16)
    ensures HexByte(b / 16, b % 16) == b
  {
  }

  lemma DecodeTriplet(encodeSet: AsciiSet, b: byte, rest: Bytes)
    requires ShouldEncode(encodeSet, b)
    ensures Decode(EncodeByte(encodeSet, b) + rest) == [b] + Decode(rest)
  {
    HexRoundTrip(b);
    var t := EncodeByte(encodeSet, b) + rest;
    assert t[3..] == rest;
  }

  lemma DecodeLiteral(b: byte, rest: Bytes)
    requires b != PERCENT || rest == [] || HexValue(rest[0]).None?
    ensures Decode([b] + rest) == [b] + Decode(rest)
  {
    assert ([b] + rest)[1..] == rest;
  }

  /** A set under which no percent sign can be misread: it encodes the percent sign itself,
      or else every hexadecimal digit. */
  ghost predicate Reversible(encodeSet: AsciiSet) {
    PERCENT in encodeSet || forall b: byte :: HexValue(b).Some? ==> b in encodeSet
  }

  lemma {:induction false} DecodeEncode(encodeSet: AsciiSet, s: Bytes)
    requires Reversible(encodeSet)
    ensures Decode(Encode(encodeSet, s)) == s
  {
    if s != [] {
      var b, rest := s[0], Encode(encodeSet, s[1..]);
      DecodeEncode(encodeSet, s[1..]);
      if ShouldEncode(encodeSet, b) {
        DecodeTriplet(encodeSet, b, rest);
      } else {
        if b == PERCENT && s[1..] != [] {
          assert rest[0] == EncodeByte(encodeSet, s[1..][0])[0];
        }
        DecodeLiteral(b, rest);
      }
      assert s == [b] + s[1..];
    }
  }

  /** A percent sign left alone before a digit left alone is misread. */
  lemma Misread(encodeSet: AsciiSet, h: byte)
    requires PERCENT !in encodeSet && HexValue(h).Some? && h !in encodeSet
    ensures Decode(Encode(encodeSet, [PERCENT, h, h])) != [PERCENT, h, h]
  {
    var s := [PERCENT, h, h];
    assert s[1..] == [h, h] && s[1..][1..] == [h] && s[1..][1..][1..] == [];
    assert Encode(encodeSet, s[1..][1..]) == [h];
    assert Encode(encodeSet, s[1..]) == [h, h];
    assert Encode(encodeSet, s) == s;
    assert IsTriplet(s) && s[3..] == [];
    assert |Decode(s)| == 1;
  }

  /** Decoding undoes encoding, on every byte string, exactly for the reversible sets. */
  lemma RoundTrip(encodeSet: AsciiSet)
    ensures (forall s :: Decode(Encode(encodeSet, s)) == s) <==> Reversible(encodeSet)
  {
    if Reversible(encodeSet) {
      forall s ensures Decode(Encode(encodeSet, s)) == s {
        DecodeEncode(encodeSet, s);
      }
    } else {
      var h: byte :| HexValue(h).Some? && h !in encodeSet;
      Misread(encodeSet, h);
    }
  }

  /** One decoder undoes both encoders, so an id in a server link and the same id sent by
      the client decode alike. */
  lemma {:induction false} BothDecodeAlike(s: Bytes)
    ensures Decode(Encode(NON_ALPHANUMERIC, s)) == s
    ensures Decode(Encode(PATH_SEGMENT, s)) == s
  {
    DecodeEncode(NON_ALPHANUMERIC, s);
    DecodeEncode(PATH_SEGMENT, s);
  }

  /** Distinct ids have distinct encodings, under each encoder and across the two. */
  lemma EncodingsInjective(s: Bytes, t: Bytes)
    ensures Encode(NON_ALPHANUMERIC, s) == Encode(NON_ALPHANUMERIC, t) ==> s == t
    ensures Encode(PATH_SEGMENT, s) == Encode(PATH_SEGMENT, t) ==> s == t
    ensures Encode(NON_ALPHANUMERIC, s) == Encode(PATH_SEGMENT, t) ==> s == t
  {
    BothDecodeAlike(s);
    BothDecodeAlike(t);
  }

  // ---------------------------------------------------------------- what encodings are made of

  function Char(b: byte): char {
    b as int as char
  }

  /** Hexadecimal digits are written in upper case and read in either: section 2.1 of RFC 3986. */
  lemma HexDigits(b: byte, n: int)
    requires 0 <= n < 16
    ensures Char(HexDigit(n)) == "0123456789ABCDEF"[n]
    ensures HexValue(b) == Some(n) <==> Char(b) == "0123456789ABCDEF"[n] || Char(b) == "0123456789abcdef"[n]
    ensures HexValue(b).Some? ==> 0 <= HexValue(b).value < 16
  {
  }

  /** The client leaves letters and digits alone, and nothing else. */
  lemma ClientLeavesAlone(b: byte)
    ensures !ShouldEncode(NON_ALPHANUMERIC, b) <==>
            '0' <= Char(b) <= '9' || 'A' <= Char(b) <= 'Z' || 'a' <= Char(b) <= 'z'
  {
  }

  predicate IsUpperHex(b: byte) {
    '0' <= Char(b) <= '9' || 'A' <= Char(b) <= 'F'
  }

  /** Every byte of an encoding is a percent sign, an upper-case hexadecimal digit, or a
      byte left alone. */
  lemma {:induction false} EncodingBytes(encodeSet: AsciiSet, s: Bytes)
    ensures forall b | b in Encode(encodeSet, s) ::
              b == PERCENT || (HexValue(b).Some? && IsUpperHex(b)) || !ShouldEncode(encodeSet, b)
  {
    if s != [] {
      EncodingBytes(encodeSet, s[1..]);
      HexRoundTrip(s[0]);
      assert forall b | b in EncodeByte(encodeSet, s[0]) ::
        b == PERCENT || (HexValue(b).Some? && IsUpperHex(b)) || !ShouldEncode(encodeSet, b);
    }
  }

  /** No encoding contains a byte that would end the segment, the path or the query. */
  lemma {:induction false} EncodingStaysInSegment(s: Bytes)
    ensures forall b | b in Encode(NON_ALPHANUMERIC, s) :: b == PERCENT || IsAlphanumeric(b)
    ensures forall sep | sep in {SLASH, QUESTION, HASH} ::
              sep !in Encode(NON_ALPHANUMERIC, s) && sep !in Encode(PATH_SEGMENT, s)
  {
    EncodingBytes(NON_ALPHANUMERIC, s);
    EncodingBytes(PATH_SEGMENT, s);
  }

  // ---------------------------------------------------------------- path segments of RFC 3986

  predicate IsUnreserved(b: byte) {
    IsAlphanumeric(b) || b in {0x2D, 0x2E, 0x5F, 0x7E}
  }

  predicate IsSubDelim(b: byte) {
    b in {0x21, 0x24, 0x26, 0x27, 0x28, 0x29, 0x2A, 0x2B, 0x2C, 0x3B, 0x3D}
  }

  /** The bytes a segment may hold literally: section 3.3 of RFC 3986. */
  predicate IsPathByte(b: byte) {
    IsUnreserved(b) || IsSubDelim(b) || b == 0x3A || b == 0x40
  }

  predicate IsSegment(t: Bytes) {
    t == [] ||
    (if t[0] == PERCENT then IsTriplet(t) && IsSegment(t[3..]) else IsPathByte(t[0]) && IsSegment(t[1..]))
  }

  /** Backslash, caret and bar. */
  const STRAYS: set<byte> := {0x5C, 0x5E, 0x7C}

  /** The server leaves alone the unreserved bytes, and also the sub-delimiters and the
      three bytes that no segment may hold. */
  lemma ServerLeavesAlone(b: byte)
    ensures !ShouldEncode(PATH_SEGMENT, b) <==> IsUnreserved(b) || IsSubDelim(b) || b in STRAYS
  {
  }

  lemma {:induction false} SegmentWhenLiteralsAre(encodeSet: AsciiSet, s: Bytes)
    requires PERCENT in encodeSet
    ensures IsSegment(Encode(encodeSet, s)) <==> forall b | b in s && !ShouldEncode(encodeSet, b) :: IsPathByte(b)
  {
    if s != [] {
      var b, rest := s[0], Encode(encodeSet, s[1..]);
      SegmentWhenLiteralsAre(encodeSet, s[1..]);
      HexRoundTrip(b);
      assert s == [b] + s[1..];
      if ShouldEncode(encodeSet, b) {
        assert (EncodeByte(encodeSet, b) + rest)[3..] == rest;
      } else {
        assert ([b] + rest)[1..] == rest;
      }
    }
  }

  /** What the client sends is always a well-formed segment; what the server links to is
      one exactly when the id holds no backslash, caret or bar. */
  lemma {:induction false} WellFormedSegments(s: Bytes)
    ensures IsSegment(Encode(NON_ALPHANUMERIC, s))
    ensures IsSegment(Encode(PATH_SEGMENT, s)) <==> forall b | b in s :: b !in STRAYS
  {
    SegmentWhenLiteralsAre(NON_ALPHANUMERIC, s);
    SegmentWhenLiteralsAre(PATH_SEGMENT, s);
    forall b: byte
      ensures !ShouldEncode(NON_ALPHANUMERIC, b) ==> IsPathByte(b)
      ensures (!ShouldEncode(PATH_SEGMENT, b) && !IsPathByte(b)) <==> b in STRAYS
    {
      ServerLeavesAlone(b);
    }
  }

  predicate IsDotSegment(t: Bytes) { t == [DOT] || t == [DOT, DOT] }

  /** Dot segments, which section 5.2.4 of RFC 3986 removes from paths: the client never
      emits one; the server does for the ids "." and ".." and for no others. */
  lemma {:induction false} DotSegments(s: Bytes)
    ensures !IsDotSegment(Encode(NON_ALPHANUMERIC, s))
    ensures IsDotSegment(Encode(PATH_SEGMENT, s)) <==> IsDotSegment(s)
  {
    EncodingStaysInSegment(s);
    assert forall t: Bytes | IsDotSegment(t) :: DOT in t;
    DotsEncoded();
    EncodingsInjective(s, [DOT]);
    EncodingsInjective(s, [DOT, DOT]);
  }

  lemma DotsEncoded()
    ensures Encode(PATH_SEGMENT, [DOT]) == [DOT] && Encode(PATH_SEGMENT, [DOT, DOT]) == [DOT, DOT]
  {
    assert [DOT][1..] == [] && [DOT, DOT][1..] == [DOT];
    assert Encode(PATH_SEGMENT, [DOT]) == [DOT];
  }
}
