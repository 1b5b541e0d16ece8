/**
 * `atob`: base64 decoding (section 4 of RFC 4648) as the WHATWG Infra standard's
 * "forgiving-base64 decode" performs it, plus a reference encoder that is its
 * right inverse.
 */
module Base64 {
  import opened Wrappers

  /** An octet, the value of one element of a Uint8Array. */
  newtype byte = x: int | 0 <= x < 256

  /** `atob` throws an InvalidCharacterError DOMException whenever decoding fails. */
  datatype DecodeError = InvalidCharacterError

  /** ASCII whitespace as the Infra standard defines it: TAB, LF, FF, CR and SPACE. */
  predicate IsAsciiWhitespace(c: char)
  {
    c == '\t' || c == '\n' || c == '\U{000C}' || c == '\r' || c == ' '
  }

  /** The 64 characters of the base64 alphabet: A-Z, a-z, 0-9, '+' and '/'. */
  predicate IsBase64Char(c: char)
  {
    ('A' <= c <= 'Z') || ('a' <= c <= 'z') || ('0' <= c <= '9') || c == '+' || c == '/'
  }

  predicate AllBase64(d: string)
  {
    forall k :: 0 <= k < |d| ==> IsBase64Char(d[k])
  }

  /** The 6-bit value a base64 character stands for. */
  function SextetOf(c: char): (v: int)
    requires IsBase64Char(c)
    ensures 0 <= v < 64
  {
    if 'A' <= c <= 'Z' then c as int - 'A' as int
    else if 'a' <= c <= 'z' then c as int - 'a' as int + 26
    else if '0' <= c <= '9' then c as int - '0' as int + 52
    else if c == '+' then 62
    else 63
  }

  /** The base64 character for a 6-bit value: the inverse of SextetOf. */
  function CharOf(v: int): (c: char)
    requires 0 <= v < 64
    ensures IsBase64Char(c) && SextetOf(c) == v
  {
    if v < 26 then ('A' as int + v) as char
    else if v < 52 then ('a' as int + v - 26) as char
    else if v < 62 then ('0' as int + v - 52) as char
    else if v == 62 then '+'
    else '/'
  }

  /** The alphabet is a bijection: every base64 character is CharOf its own value. */
  lemma CharOfSextetOf(c: char)
    requires IsBase64Char(c)
    ensures CharOf(SextetOf(c)) == c
  {
  }

  /** Step 1 of the forgiving decode: remove all ASCII whitespace, keeping the order of the rest. */
  function StripWhitespace(s: string): (r: string)
    ensures |r| <= |s|
    ensures forall k :: 0 <= k < |r| ==> !IsAsciiWhitespace(r[k])
    ensures forall k :: 0 <= k < |s| && !IsAsciiWhitespace(s[k]) ==> s[k] in r
    ensures forall c :: c in r ==> c in s
  {
    if s == [] then []
    else if IsAsciiWhitespace(s[0]) then StripWhitespace(s[1..])
    else [s[0]] + StripWhitespace(s[1..])
  }

  /** Whitespace removal distributes over concatenation. */
  lemma {:induction false} StripWhitespaceConcat(a: string, b: string)
    ensures StripWhitespace(a + b) == StripWhitespace(a) + StripWhitespace(b)
  {
    if a == [] {
      assert a + b == b;
    } else {
      assert (a + b)[0] == a[0] && (a + b)[1..] == a[1..] + b;
      StripWhitespaceConcat(a[1..], b);
    }
  }

  /** A string with no whitespace in it is left as it is. */
  lemma {:induction false} StripWhitespaceNone(s: string)
    requires forall k :: 0 <= k < |s| ==> !IsAsciiWhitespace(s[k])
    ensures StripWhitespace(s) == s
  {
    if s != [] {
      StripWhitespaceNone(s[1..]);
    }
  }

  /**
   * Step 2: when the length is a multiple of four, drop one or two trailing '='.
   * Only '=' characters at the end are ever removed.
   */
  function StripPadding(d: string): (r: string)
    ensures |d| - 2 <= |r| <= |d| && r == d[..|r|]
    ensures forall k :: |r| <= k < |d| ==> d[k] == '='
    ensures |r| < |d| ==> |d| % 4 == 0
    ensures |d| % 4 == 0 && |d| >= 2 && d[|d| - 2] == '=' && d[|d| - 1] == '=' ==> |r| == |d| - 2
    ensures |d| % 4 == 0 && |d| >= 1 && d[|d| - 1] == '=' && (|d| < 2 || d[|d| - 2] != '=') ==> |r| == |d| - 1
    ensures |d| % 4 != 0 || |d| == 0 || d[|d| - 1] != '=' ==> r == d
  {
    if |d| % 4 == 0 && |d| >= 2 && d[|d| - 2] == '=' && d[|d| - 1] == '=' then d[..|d| - 2]
    else if |d| % 4 == 0 && |d| >= 1 && d[|d| - 1] == '=' then d[..|d| - 1]
    else d
  }

  /** The string that steps 3 to 8 work on. */
  function Normalize(s: string): string
  {
    StripPadding(StripWhitespace(s))
  }

  /**
   * The three octets of a full group of four characters with values a, b, c, d:
   * the 24-bit buffer a·2^18 + b·2^12 + c·2^6 + d read as three big-endian octets.
   */
  function Octet0(a: int, b: int): byte
    requires 0 <= a < 64 && 0 <= b < 64
  {
    (a * 4 + b / 16) as byte
  }

  function Octet1(b: int, c: int): byte
    requires 0 <= b < 64 && 0 <= c < 64
  {
    ((b % 16) * 16 + c / 4) as byte
  }

  function Octet2(c: int, d: int): byte
    requires 0 <= c < 64 && 0 <= d < 64
  {
    ((c % 4) * 64 + d) as byte
  }

  /**
   * Steps 5 to 8: accumulate six bits per character and emit octets. A final
   * group of two characters (12 bits) yields one octet and a final group of three
   * (18 bits) yields two; the leftover 4 or 2 bits are discarded unchecked.
   */
  function DecodeChars(d: string): (r: seq<byte>)
    requires AllBase64(d) && |d| % 4 != 1
    ensures |r| == |d| * 3 / 4
    decreases |d|
  {
    if |d| == 0 then []
    else if |d| == 2 then
      [Octet0(SextetOf(d[0]), SextetOf(d[1]))]
    else if |d| == 3 then
      [Octet0(SextetOf(d[0]), SextetOf(d[1])), Octet1(SextetOf(d[1]), SextetOf(d[2]))]
    else
      [Octet0(SextetOf(d[0]), SextetOf(d[1])),
       Octet1(SextetOf(d[1]), SextetOf(d[2])),
       Octet2(SextetOf(d[2]), SextetOf(d[3]))] + DecodeChars(d[4..])
  }

  /**
   * Forgiving-base64 decode. It fails exactly when the normalised text has a
   * length of the form 4k+1 or holds a character outside the alphabet (which
   * includes an '=' anywhere but in the stripped padding).
   */
  function ForgivingDecode(s: string): (r: Result<seq<byte>, DecodeError>)
    ensures r.Success? <==> |Normalize(s)| % 4 != 1 && AllBase64(Normalize(s))
    ensures r.Success? ==> |r.value| == |Normalize(s)| * 3 / 4
  {
    var d := Normalize(s);
    if |d| % 4 == 1 then Failure(InvalidCharacterError)
    else if !AllBase64(d) then Failure(InvalidCharacterError)
    else Success(DecodeChars(d))
  }

  /** `atob(s)`: the decoded octets as a "binary string" with one char per octet. */
  function Atob(s: string): (r: Result<string, DecodeError>)
    ensures r.Success? <==> ForgivingDecode(s).Success?
    ensures r.Success? ==>
      |r.value| == |ForgivingDecode(s).value| &&
      forall k :: 0 <= k < |r.value| ==> r.value[k] as int == ForgivingDecode(s).value[k] as int
  {
    match ForgivingDecode(s)
    case Failure(e) => Failure(e)
    case Success(octets) => Success(seq(|octets|, k requires 0 <= k < |octets| => octets[k] as int as char))
  }

  /** A character that is neither whitespace, nor in the alphabet, nor '=' makes decoding fail. */
  lemma RejectsForeignCharacter(s: string, k: int)
    requires 0 <= k < |s|
    requires !IsBase64Char(s[k]) && !IsAsciiWhitespace(s[k]) && s[k] != '='
    ensures ForgivingDecode(s).Failure?
  {
    var w := StripWhitespace(s);
    var c := s[k];
    assert c in w;
    var j :| 0 <= j < |w| && w[j] == c;
    var d := StripPadding(w);
    assert j < |d|;
    assert d[j] == c;
  }

  /** Inserting whitespace anywhere does not change what atob decodes. */
  lemma IgnoresWhitespace(a: string, w: char, b: string)
    requires IsAsciiWhitespace(w)
    ensures ForgivingDecode(a + [w] + b) == ForgivingDecode(a + b)
  {
    StripWhitespaceConcat(a + [w], b);
    StripWhitespaceConcat(a, [w]);
    StripWhitespaceConcat(a, b);
    assert StripWhitespace([w]) == [];
    assert a + [w] + b == (a + [w]) + b;
    assert StripWhitespace(a + [w] + b) == StripWhitespace(a + b);
    assert Normalize(a + [w] + b) == Normalize(a + b);
  }

  // Reference encoder: section 4 of RFC 4648, with '=' padding.

  /** The base64 characters of an octet string, without padding. */
  function EncodeUnpadded(b: seq<byte>): (r: string)
    ensures |r| == |b| / 3 * 4 + (if |b| % 3 == 0 then 0 else |b| % 3 + 1)
    ensures AllBase64(r)
    decreases |b|
  {
    if |b| == 0 then ""
    else if |b| == 1 then
      [CharOf(b[0] as int / 4), CharOf((b[0] as int % 4) * 16)]
    else if |b| == 2 then
      [CharOf(b[0] as int / 4),
       CharOf((b[0] as int % 4) * 16 + b[1] as int / 16),
       CharOf((b[1] as int % 16) * 4)]
    else
      [CharOf(b[0] as int / 4),
       CharOf((b[0] as int % 4) * 16 + b[1] as int / 16),
       CharOf((b[1] as int % 16) * 4 + b[2] as int / 64),
       CharOf(b[2] as int % 64)] + EncodeUnpadded(b[3..])
  }

  /** Padding that brings the encoding to a multiple of four characters. */
  function Padding(n: nat): string
  {
    if n % 3 == 1 then "==" else if n % 3 == 2 then "=" else ""
  }

  /** `btoa` of an octet string. */
  function Encode(b: seq<byte>): (r: string)
    ensures |r| % 4 == 0
  {
    EncodeUnpadded(b) + Padding(|b|)
  }

  /** Decoding one full group of four characters gives back the three octets that were encoded. */
  lemma OctetsOfGroup(x: byte, y: byte, z: byte)
    ensures Octet0(x as int / 4, (x as int % 4) * 16 + y as int / 16) == x
    ensures Octet1((x as int % 4) * 16 + y as int / 16, (y as int % 16) * 4 + z as int / 64) == y
    ensures Octet2((y as int % 16) * 4 + z as int / 64, z as int % 64) == z
  {
    var xi, yi, zi := x as int, y as int, z as int;
    var b := (xi % 4) * 16 + yi / 16;
    assert b / 16 == xi % 4 && b % 16 == yi / 16;
    var c := (yi % 16) * 4 + zi / 64;
    assert c / 4 == yi % 16 && c % 4 == zi / 64;
  }

  /** Decoding the unpadded encoding gives back the octets. */
  lemma {:induction false} DecodeEncodeUnpadded(b: seq<byte>)
    ensures DecodeChars(EncodeUnpadded(b)) == b
    decreases |b|
  {
    var e := EncodeUnpadded(b);
    if |b| == 0 {
    } else if |b| == 1 {
      OctetsOfGroup(b[0], 0, 0);
    } else if |b| == 2 {
      OctetsOfGroup(b[0], b[1], 0);
    } else {
      OctetsOfGroup(b[0], b[1], b[2]);
      var rest := EncodeUnpadded(b[3..]);
      assert e[4..] == rest;
      DecodeEncodeUnpadded(b[3..]);
      assert b == b[..3] + b[3..];
    }
  }

  /** Stripping whitespace and padding from an encoding leaves exactly the unpadded characters. */
  lemma NormalizeEncode(b: seq<byte>)
    ensures Normalize(Encode(b)) == EncodeUnpadded(b)
  {
    var u := EncodeUnpadded(b);
    var e := Encode(b);
    forall k | 0 <= k < |e| ensures !IsAsciiWhitespace(e[k]) {
      if k < |u| { assert e[k] == u[k]; }
    }
    StripWhitespaceNone(e);
    if |b| % 3 == 1 {
      assert e[..|e| - 2] == u;
    } else if |b| % 3 == 2 {
      assert e[|e| - 2] == u[|u| - 1];
      assert e[..|e| - 1] == u;
    } else {
      assert e == u;
      if |u| > 0 { assert IsBase64Char(u[|u| - 1]); }
    }
  }

  /** Round trip: atob's decoder recovers every octet string from its encoding. */
  lemma DecodeEncode(b: seq<byte>)
    ensures ForgivingDecode(Encode(b)) == Success(b)
  {
    var u := EncodeUnpadded(b);
    NormalizeEncode(b);
    assert |u| % 4 != 1;
    DecodeEncodeUnpadded(b);
    assert ForgivingDecode(Encode(b)) == Success(DecodeChars(u));
  }
}
