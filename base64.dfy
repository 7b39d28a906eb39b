/** Base64 text of bytes: `btoa` writes the encoding of section 4 of
    RFC 4648 (the standard alphabet, `=` padding), and `atob` reads text by
    the "forgiving-base64 decode" of the WHATWG Infra standard, which skips
    ASCII white space, accepts missing padding and ignores the unused bits
    of the last character. */
module Base64 {
  import opened Wrappers

  newtype byte = x: int | 0 <= x < 256

  /** The character for sextet `v` in the alphabet of Table 1 of RFC 4648. */
  function SextetChar(v: int): (c: char)
    requires 0 <= v < 64
    ensures IsBase64Char(c)
  {
    if v < 26 then ('A' as int + v) as char
    else if v < 52 then ('a' as int + v - 26) as char
    else if v < 62 then ('0' as int + v - 52) as char
    else if v == 62 then '+'
    else '/'
  }

  predicate IsBase64Char(c: char) {
    'A' <= c <= 'Z' || 'a' <= c <= 'z' || '0' <= c <= '9' || c == '+' || c == '/'
  }

  /** The sextet a character of the alphabet stands for. */
  function SextetValue(c: char): (v: int)
    requires IsBase64Char(c)
    ensures 0 <= v < 64
  {
    if 'A' <= c <= 'Z' then c as int - 'A' as int
    else if 'a' <= c <= 'z' then c as int - 'a' as int + 26
    else if '0' <= c <= '9' then c as int - '0' as int + 52
    else if c == '+' then 62
    else 63
  }

  lemma SextetRoundTrip(v: int)
    requires 0 <= v < 64
    ensures SextetValue(SextetChar(v)) == v
  {
  }

  /** Three bytes as the four characters of their 24 bits, six at a time,
      most significant first. */
  function EncodeTriple(x: int, y: int, z: int): (s: string)
    requires 0 <= x < 256 && 0 <= y < 256 && 0 <= z < 256
    ensures |s| == 4 && forall i :: 0 <= i < 4 ==> IsBase64Char(s[i])
  {
    [SextetChar(x / 4), SextetChar(x % 4 * 16 + y / 16), SextetChar(y % 16 * 4 + z / 64), SextetChar(z % 64)]
  }

  /** The alphabet characters for `b`, without padding: four characters per
      three bytes; one or two left-over bytes are completed with zero bits and
      give the first two or three characters of their group. */
  function EncodeUnpadded(b: seq<byte>): (s: string)
    ensures forall i :: 0 <= i < |s| ==> IsBase64Char(s[i])
  {
    if |b| == 0 then ""
    else if |b| == 1 then EncodeTriple(b[0] as int, 0, 0)[..2]
    else if |b| == 2 then EncodeTriple(b[0] as int, b[1] as int, 0)[..3]
    else EncodeTriple(b[0] as int, b[1] as int, b[2] as int) + EncodeUnpadded(b[3..])
  }

  /** The base 64 encoding of section 4 of RFC 4648: padded with `=` to a
      multiple of four characters. */
  function Encode(b: seq<byte>): (s: string)
  {
    EncodeUnpadded(b) + (if |b| % 3 == 1 then "==" else if |b| % 3 == 2 then "=" else "")
  }

  /** Four characters per started group of three bytes, of which the last
      group's unused ones are left out. */
  lemma {:induction false} UnpaddedLength(b: seq<byte>)
    ensures |EncodeUnpadded(b)| == |b| / 3 * 4 + (if |b| % 3 == 0 then 0 else |b| % 3 + 1)
  {
    if |b| >= 3 {
      UnpaddedLength(b[3..]);
      assert |EncodeUnpadded(b)| == 4 + |EncodeUnpadded(b[3..])|;
    }
  }

  /** The arithmetic of the lengths: `n` bytes, `u` characters before padding. */
  lemma LengthArithmetic(n: int, u: int)
    requires n >= 0 && u == n / 3 * 4 + (if n % 3 == 0 then 0 else n % 3 + 1)
    ensures u % 4 == (if n % 3 == 0 then 0 else n % 3 + 1)
    ensures u + (if n % 3 == 1 then 2 else if n % 3 == 2 then 1 else 0) == (n + 2) / 3 * 4
    ensures (n + 2) / 3 * 4 % 4 == 0
  {
    var q, r := n / 3, n % 3;
    assert n == q * 3 + r;
    var k := if r == 0 then 0 else 1;
    DivByThree(n + 2, q + k, r + 2 - 3 * k);
    DivByFour(u, q, u - 4 * q);
    DivByFour((q + k) * 4, q + k, 0);
  }

  /** `x` divided by 3 when `x` is known as `3 * q` plus a remainder `m`. */
  lemma DivByThree(x: int, q: int, m: int)
    requires 0 <= m < 3 && x == 3 * q + m
    ensures x / 3 == q && x % 3 == m
  {
  }

  /** `x` divided by 4 when `x` is known as `4 * q` plus a remainder `m`. */
  lemma DivByFour(x: int, q: int, m: int)
    requires 0 <= m < 4 && x == 4 * q + m
    ensures x / 4 == q && x % 4 == m
  {
  }

  /** The encoding takes four characters per started group of three bytes. */
  lemma EncodeLength(b: seq<byte>)
    ensures |Encode(b)| % 4 == 0 && |Encode(b)| == (|b| + 2) / 3 * 4
  {
    UnpaddedLength(b);
    LengthArithmetic(|b|, |EncodeUnpadded(b)|);
  }

  /** Four alphabet characters as the three bytes of their 24 bits. */
  function DecodeQuad(s: string): (b: seq<byte>)
    requires |s| == 4 && forall i :: 0 <= i < 4 ==> IsBase64Char(s[i])
    ensures |b| == 3
  {
    var v0, v1, v2, v3 := SextetValue(s[0]), SextetValue(s[1]), SextetValue(s[2]), SextetValue(s[3]);
    [(v0 * 4 + v1 / 16) as byte, (v1 % 16 * 16 + v2 / 4) as byte, (v2 % 4 * 64 + v3) as byte]
  }

  /** Bytes from unpadded alphabet text: three per four characters. Two or
      three left-over characters hold 12 or 18 bits, of which the decoder
      keeps one or two whole bytes and discards the rest; that is the start
      of their group completed with `A`, the zero sextet. A single left-over
      character carries no whole byte; `Decode` rejects that length before. */
  function DecodeUnpadded(s: string): (b: seq<byte>)
    requires forall i :: 0 <= i < |s| ==> IsBase64Char(s[i])
  {
    if |s| <= 1 then []
    else if |s| < 4 then DecodeQuad(s + (if |s| == 2 then "AA" else "A"))[..|s| - 1]
    else DecodeQuad(s[..4]) + DecodeUnpadded(s[4..])
  }

  /** The white space the forgiving decoder skips: TAB, LF, FF, CR, SPACE. */
  predicate IsAsciiWhitespace(c: char) {
    c == '\t' || c == '\n' || c == '\U{C}' || c == '\r' || c == ' '
  }

  function RemoveAsciiWhitespace(s: string): (r: string)
    ensures forall i :: 0 <= i < |r| ==> !IsAsciiWhitespace(r[i])
  {
    if s == [] then []
    else if IsAsciiWhitespace(s[0]) then RemoveAsciiWhitespace(s[1..])
    else [s[0]] + RemoveAsciiWhitespace(s[1..])
  }

  /** Step 2 of the decoder: on a multiple of four characters, one or two
      trailing `=` are dropped. */
  function StripPadding(s: string): (r: string)
    ensures |r| <= |s|
  {
    if |s| % 4 == 0 && |s| >= 2 && s[|s| - 2..] == "==" then s[..|s| - 2]
    else if |s| % 4 == 0 && |s| >= 1 && s[|s| - 1] == '=' then s[..|s| - 1]
    else s
  }

  /** Forgiving-base64 decode; `None` is the failure `atob` reports by
      throwing an `InvalidCharacterError`. */
  function Decode(text: string): (r: Option<seq<byte>>)
  {
    var s := StripPadding(RemoveAsciiWhitespace(text));
    if |s| % 4 == 1 || !(forall i :: 0 <= i < |s| ==> IsBase64Char(s[i])) then None
    else Some(DecodeUnpadded(s))
  }

  /** Three bytes split into four sextets are put back together by the
      decoder's shifts. */
  lemma BlockArithmetic(x: int, y: int, z: int)
    requires 0 <= x < 256 && 0 <= y < 256 && 0 <= z < 256
    ensures var v0, v1, v2, v3 := x / 4, x % 4 * 16 + y / 16, y % 16 * 4 + z / 64, z % 64;
      v0 * 4 + v1 / 16 == x && v1 % 16 * 16 + v2 / 4 == y && v2 % 4 * 64 + v3 == z
  {
    var v1, v2 := x % 4 * 16 + y / 16, y % 16 * 4 + z / 64;
    assert v1 / 16 == x % 4 && v1 % 16 == y / 16;
    assert v2 / 4 == y % 16 && v2 % 4 == z / 64;
  }

  /** One group decodes to the three bytes it was encoded from. */
  lemma TripleRoundTrip(x: byte, y: byte, z: byte)
    ensures DecodeQuad(EncodeTriple(x as int, y as int, z as int)) == [x, y, z]
  {
    var a, b, c := x as int, y as int, z as int;
    var v0, v1, v2, v3 := a / 4, a % 4 * 16 + b / 16, b % 16 * 4 + c / 64, c % 64;
    BlockArithmetic(a, b, c);
    SextetRoundTrip(v0);
    SextetRoundTrip(v1);
    SextetRoundTrip(v2);
    SextetRoundTrip(v3);
    var s := EncodeTriple(a, b, c);
    assert SextetValue(s[0]) == v0 && SextetValue(s[1]) == v1;
    assert SextetValue(s[2]) == v2 && SextetValue(s[3]) == v3;
  }

  lemma DecodeOneByte(x: byte)
    ensures DecodeUnpadded(EncodeUnpadded([x])) == [x]
  {
    var t := EncodeTriple(x as int, 0, 0);
    TripleRoundTrip(x, 0, 0);
    assert t[2] == SextetChar(0) == 'A' && t[3] == SextetChar(0);
    assert t[..2] + "AA" == t;
    assert EncodeUnpadded([x]) == t[..2];
  }

  lemma DecodeTwoBytes(x: byte, y: byte)
    ensures DecodeUnpadded(EncodeUnpadded([x, y])) == [x, y]
  {
    var t := EncodeTriple(x as int, y as int, 0);
    TripleRoundTrip(x, y, 0);
    assert t[3] == SextetChar(0) == 'A';
    assert t[..3] + "A" == t;
    assert EncodeUnpadded([x, y]) == t[..3];
  }

  /** A whole group at the front decodes on its own. */
  lemma DecodeFirstGroup(t: string, rest: string)
    requires |t| == 4 && forall i :: 0 <= i < 4 ==> IsBase64Char(t[i])
    requires forall i :: 0 <= i < |rest| ==> IsBase64Char(rest[i])
    ensures forall i :: 0 <= i < |t + rest| ==> IsBase64Char((t + rest)[i])
    ensures DecodeUnpadded(t + rest) == DecodeQuad(t) + DecodeUnpadded(rest)
  {
    var s := t + rest;
    assert s[..4] == t && s[4..] == rest;
  }

  lemma EncodeFirstGroup(x: byte, y: byte, z: byte, rest: seq<byte>)
    ensures EncodeUnpadded([x, y, z] + rest) == EncodeTriple(x as int, y as int, z as int) + EncodeUnpadded(rest)
  {
    assert ([x, y, z] + rest)[3..] == rest;
  }

  lemma DecodeLeadingGroup(x: byte, y: byte, z: byte, rest: seq<byte>)
    requires DecodeUnpadded(EncodeUnpadded(rest)) == rest
    ensures DecodeUnpadded(EncodeUnpadded([x, y, z] + rest)) == [x, y, z] + rest
  {
    var t := EncodeTriple(x as int, y as int, z as int);
    EncodeFirstGroup(x, y, z, rest);
    DecodeFirstGroup(t, EncodeUnpadded(rest));
    TripleRoundTrip(x, y, z);
  }

  lemma SplitThree(b: seq<byte>)
    requires |b| >= 3
    ensures b == [b[0], b[1], b[2]] + b[3..]
  {
  }

  lemma {:induction false} DecodeEncodeUnpadded(b: seq<byte>)
    ensures DecodeUnpadded(EncodeUnpadded(b)) == b
  {
    if |b| >= 3 {
      DecodeEncodeUnpadded(b[3..]);
      SplitThree(b);
      DecodeLeadingGroup(b[0], b[1], b[2], b[3..]);
    } else if |b| == 2 {
      DecodeTwoBytes(b[0], b[1]);
      assert b == [b[0], b[1]];
    } else if |b| == 1 {
      DecodeOneByte(b[0]);
      assert b == [b[0]];
    }
  }

  lemma {:induction false} NoWhitespaceUnchanged(s: string)
    requires forall i :: 0 <= i < |s| ==> !IsAsciiWhitespace(s[i])
    ensures RemoveAsciiWhitespace(s) == s
  {
    if s != [] {
      NoWhitespaceUnchanged(s[1..]);
    }
  }

  /** The padding `Encode` appends is exactly what the decoder strips. */
  lemma StripEncodePadding(b: seq<byte>)
    ensures StripPadding(Encode(b)) == EncodeUnpadded(b)
  {
    var u, e := EncodeUnpadded(b), Encode(b);
    UnpaddedLength(b);
    LengthArithmetic(|b|, |u|);
    if |b| % 3 == 0 {
      assert e == u;
      if |u| > 0 {
        assert IsBase64Char(e[|e| - 1]);
      }
    } else if |b| % 3 == 1 {
      assert e == u + "==";
      assert e[|e| - 2..] == "==";
      assert e[..|e| - 2] == u;
    } else {
      assert e == u + "=";
      assert IsBase64Char(e[|e| - 2]);
      assert e[..|e| - 1] == u;
    }
  }

  lemma UnpaddedNotOneMod4(b: seq<byte>)
    ensures |EncodeUnpadded(b)| % 4 != 1
  {
    UnpaddedLength(b);
    LengthArithmetic(|b|, |EncodeUnpadded(b)|);
  }

  /** The encoding holds alphabet characters and `=` only. */
  lemma EncodeAlphabet(b: seq<byte>)
    ensures forall i :: 0 <= i < |Encode(b)| ==> IsBase64Char(Encode(b)[i]) || Encode(b)[i] == '='
  {
    var u, e := EncodeUnpadded(b), Encode(b);
    forall i | 0 <= i < |e|
      ensures IsBase64Char(e[i]) || e[i] == '='
    {
      if i < |u| {
        assert e[i] == u[i];
      }
    }
  }

  lemma EncodeHasNoWhitespace(b: seq<byte>)
    ensures forall i :: 0 <= i < |Encode(b)| ==> !IsAsciiWhitespace(Encode(b)[i])
  {
    EncodeAlphabet(b);
  }

  /** Decoding the RFC 4648 encoding of any bytes gives those bytes back. */
  lemma DecodeEncode(b: seq<byte>)
    ensures Decode(Encode(b)) == Some(b)
  {
    var u, e := EncodeUnpadded(b), Encode(b);
    EncodeHasNoWhitespace(b);
    NoWhitespaceUnchanged(e);
    StripEncodePadding(b);
    UnpaddedNotOneMod4(b);
    DecodeEncodeUnpadded(b);
    assert StripPadding(RemoveAsciiWhitespace(e)) == u;
  }

  /** `String.fromCharCode(...bytes)`: one character per byte, code = byte. */
  function Latin1(b: seq<byte>): (s: string)
    ensures |s| == |b| && forall i :: 0 <= i < |b| ==> s[i] as int == b[i] as int
  {
    if b == [] then "" else [b[0] as int as char] + Latin1(b[1..])
  }

  /** Every character is in U+0000..U+00FF, as `btoa` demands. */
  predicate IsLatin1(s: string) {
    forall i :: 0 <= i < |s| ==> s[i] as int < 256
  }

  /** The characters of a Latin-1 string as the bytes `btoa` encodes. */
  function Latin1Bytes(s: string): (b: seq<byte>)
    requires IsLatin1(s)
    ensures |b| == |s| && forall i :: 0 <= i < |s| ==> b[i] as int == s[i] as int
  {
    if s == [] then [] else [s[0] as int as byte] + Latin1Bytes(s[1..])
  }

  /** `btoa(s)`: the encoding of the string's characters taken as bytes, or
      `None` (an `InvalidCharacterError`) when one is above U+00FF. */
  function Btoa(s: string): (r: Option<string>)
    ensures r.Some? <==> IsLatin1(s)
  {
    if IsLatin1(s) then Some(Encode(Latin1Bytes(s))) else None
  }

  /** `atob(s)`: the decoded bytes as a string of characters U+0000..U+00FF. */
  function Atob(s: string): (r: Option<string>)
    ensures r.Some? ==> forall i :: 0 <= i < |r.value| ==> r.value[i] as int < 256
  {
    match Decode(s)
    case Some(b) => Some(Latin1(b))
    case None => None
  }

  /** `btoa(String.fromCharCode(...bytes))`, the way the vault writes bytes
      as text, never fails and is the RFC 4648 encoding of those bytes. */
  lemma BtoaLatin1(b: seq<byte>)
    ensures Btoa(Latin1(b)) == Some(Encode(b))
  {
    var s := Latin1(b);
    assert Latin1Bytes(s) == b;
  }

  /** Text the vault wrote with `btoa` is read back by `atob` to the same
      characters. */
  lemma AtobBtoa(b: seq<byte>)
    ensures Atob(Encode(b)) == Some(Latin1(b))
  {
    DecodeEncode(b);
  }
}
