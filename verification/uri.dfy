/** `encodeURIComponent` and `decodeURIComponent` of section 19.2.6 of the
    ECMAScript language specification, over strings of Unicode scalar values:
    every character outside the unreserved set is written as the percent
    escapes of its UTF-8 bytes, in upper-case hexadecimal. */
module Uri {
  import opened Wrappers

  /** Letters, digits and - _ . ! ~ * ' ( ): the characters left as they are. */
  predicate Unreserved(c: char) {
    ('A' <= c <= 'Z') || ('a' <= c <= 'z') || ('0' <= c <= '9')
    || c == '-' || c == '_' || c == '.' || c == '!' || c == '~' || c == '*' || c == '\'' || c == '(' || c == ')'
  }

  type Byte = b: nat | b < 256

  // ---------------------------------------------------------------------------
  // Hexadecimal digits

  /** The upper-case hexadecimal digit of `d`. */
  function HexDigit(d: nat): (c: char)
    requires d < 16
    ensures ('0' <= c <= '9') || ('A' <= c <= 'F')
  {
    if d < 10 then ('0' as int + d) as char else ('A' as int + d - 10) as char
  }

  /** The value of a hexadecimal digit in either case. */
  function HexValue(c: char): (v: Option<nat>)
    ensures v.Some? ==> v.value < 16
  {
    if '0' <= c <= '9' then Some(c as int - '0' as int)
    else if 'A' <= c <= 'F' then Some(c as int - 'A' as int + 10)
    else if 'a' <= c <= 'f' then Some(c as int - 'a' as int + 10)
    else None
  }

  lemma HexRoundTrip(d: nat)
    requires d < 16
    ensures HexValue(HexDigit(d)) == Some(d)
  {
  }

  // ---------------------------------------------------------------------------
  // UTF-8

  /** The UTF-8 encoding of a scalar value: one to four bytes. */
  function Utf8(c: char): (bytes: seq<Byte>)
    ensures 1 <= |bytes| <= 4
  {
    var cp := c as int;
    if cp < 0x80 then [cp]
    else if cp < 0x800 then [0xC0 + cp / 64, 0x80 + cp % 64]
    else if cp < 0x10000 then [0xE0 + cp / 4096, 0x80 + (cp / 64) % 64, 0x80 + cp % 64]
    else [0xF0 + cp / 262144, 0x80 + (cp / 4096) % 64, 0x80 + (cp / 64) % 64, 0x80 + cp % 64]
  }

  /** How many bytes a sequence starting with `lead` has; 0 for a byte that
      cannot start one. */
  function SequenceLength(lead: Byte): nat {
    if lead < 0x80 then 1
    else if 0xC0 <= lead < 0xE0 then 2
    else if 0xE0 <= lead < 0xF0 then 3
    else if 0xF0 <= lead < 0xF8 then 4
    else 0
  }

  predicate Continuation(b: Byte) {
    0x80 <= b < 0xC0
  }

  /** The scalar value a byte sequence encodes, if it is a well-formed and
      shortest encoding of one. */
  function DecodeUtf8(bytes: seq<Byte>): Option<char> {
    if |bytes| == 0 || SequenceLength(bytes[0]) != |bytes| then None
    else if exists i :: 1 <= i < |bytes| && !Continuation(bytes[i]) then None
    else
      var cp: int :=
        if |bytes| == 1 then bytes[0]
        else if |bytes| == 2 then (bytes[0] as int - 0xC0) * 64 + (bytes[1] as int - 0x80)
        else if |bytes| == 3 then (bytes[0] as int - 0xE0) * 4096 + (bytes[1] as int - 0x80) * 64 + (bytes[2] as int - 0x80)
        else (bytes[0] as int - 0xF0) * 262144 + (bytes[1] as int - 0x80) * 4096 + (bytes[2] as int - 0x80) * 64 + (bytes[3] as int - 0x80);
      var least: int := if |bytes| == 1 then 0 else if |bytes| == 2 then 0x80 else if |bytes| == 3 then 0x800 else 0x10000;
      if cp < least || (0xD800 <= cp < 0xE000) || cp >= 0x110000 then None
      else Some(cp as char)
  }

  lemma Utf8TwoBytes(cp: int)
    requires 0x80 <= cp < 0x800
    ensures 0xC0 <= 0xC0 + cp / 64 < 0xE0
    ensures (0xC0 + cp / 64 - 0xC0) * 64 + (cp % 64) == cp
  {
  }

  lemma Utf8ThreeBytes(cp: int)
    requires 0x800 <= cp < 0x10000
    ensures 0xE0 <= 0xE0 + cp / 4096 < 0xF0
    ensures (cp / 4096) * 4096 + ((cp / 64) % 64) * 64 + cp % 64 == cp
  {
    assert (cp / 64) == (cp / 4096) * 64 + (cp / 64) % 64;
  }

  lemma Utf8FourBytes(cp: int)
    requires 0x10000 <= cp < 0x110000
    ensures 0xF0 <= 0xF0 + cp / 262144 < 0xF8
    ensures (cp / 262144) * 262144 + ((cp / 4096) % 64) * 4096 + ((cp / 64) % 64) * 64 + cp % 64 == cp
  {
    assert (cp / 4096) == (cp / 262144) * 64 + (cp / 4096) % 64;
    assert (cp / 64) == (cp / 4096) * 64 + (cp / 64) % 64;
  }

  /** Decoding the UTF-8 bytes of a character gives the character back. */
  lemma Utf8RoundTrip(c: char)
    ensures SequenceLength(Utf8(c)[0]) == |Utf8(c)|
    ensures DecodeUtf8(Utf8(c)) == Some(c)
  {
    var cp := c as int;
    if 0x80 <= cp < 0x800 {
      Utf8TwoBytes(cp);
    } else if 0x800 <= cp < 0x10000 {
      Utf8ThreeBytes(cp);
    } else if cp >= 0x10000 {
      Utf8FourBytes(cp);
    }
  }

  // ---------------------------------------------------------------------------
  // Percent escapes

  /** "%XY" for one byte. */
  function Escape(b: Byte): (e: string)
    ensures |e| == 3 && e[0] == '%'
  {
    ['%', HexDigit(b / 16), HexDigit(b % 16)]
  }

  /** The escapes of the bytes, one after the other. */
  function EscapeAll(bytes: seq<Byte>): (e: string)
    ensures |e| == 3 * |bytes|
    decreases |bytes|
  {
    if |bytes| == 0 then "" else Escape(bytes[0]) + EscapeAll(bytes[1..])
  }

  /** How one character is written. */
  function EncodeChar(c: char): (e: string)
    ensures Unreserved(c) ==> e == [c]
    ensures !Unreserved(c) ==> |e| >= 3 && e[0] == '%'
  {
    if Unreserved(c) then [c] else EscapeAll(Utf8(c))
  }

  /** `encodeURIComponent`. */
  function EncodeUriComponent(s: string): (r: string)
    ensures |r| >= |s|
    decreases |s|
  {
    if |s| == 0 then "" else EncodeChar(s[0]) + EncodeUriComponent(s[1..])
  }

  // ---------------------------------------------------------------------------
  // Decoding

  /** Reads `n` escapes from the start of `r`. */
  function ReadEscapes(r: string, n: nat): Option<seq<Byte>>
    decreases n
  {
    if n == 0 then Some([])
    else if |r| < 3 || r[0] != '%' then None
    else match (HexValue(r[1]), HexValue(r[2]))
      case (Some(hi), Some(lo)) =>
        (match ReadEscapes(r[3..], n - 1)
         case None => None
         case Some(more) => Some([hi * 16 + lo] + more))
      case _ => None
  }

  /** `decodeURIComponent`: every escape sequence is decoded as UTF-8; a
      malformed one is an error (`None`). */
  function DecodeUriComponent(r: string): Option<string>
    decreases |r|
  {
    if |r| == 0 then Some("")
    else if r[0] != '%' then
      match DecodeUriComponent(r[1..])
      case None => None
      case Some(rest) => Some([r[0]] + rest)
    else if |r| < 3 then None
    else match (HexValue(r[1]), HexValue(r[2]))
      case (Some(hi), Some(lo)) =>
        var n := SequenceLength(hi * 16 + lo);
        if n == 0 || |r| < 3 * n then None
        else
          (match ReadEscapes(r, n)
           case None => None
           case Some(bytes) =>
             match DecodeUtf8(bytes)
             case None => None
             case Some(c) =>
               match DecodeUriComponent(r[3 * n..])
               case None => None
               case Some(rest) => Some([c] + rest))
      case _ => None
  }

  /** The escapes of some bytes are read back as those bytes. */
  lemma {:induction false} ReadEscapesOfEscapeAll(bytes: seq<Byte>, rest: string)
    ensures ReadEscapes(EscapeAll(bytes) + rest, |bytes|) == Some(bytes)
    decreases |bytes|
  {
    if |bytes| > 0 {
      var b := bytes[0];
      var r := EscapeAll(bytes) + rest;
      HexRoundTrip(b / 16);
      HexRoundTrip(b % 16);
      assert r == Escape(b) + (EscapeAll(bytes[1..]) + rest);
      assert r[0] == '%' && r[1] == HexDigit(b / 16) && r[2] == HexDigit(b % 16);
      assert r[3..] == EscapeAll(bytes[1..]) + rest;
      ReadEscapesOfEscapeAll(bytes[1..], rest);
      assert (b / 16) * 16 + b % 16 == b;
      assert [b] + bytes[1..] == bytes;
    }
  }

  /** Decoding the encoding of one character followed by anything decodes
      that character and then the rest. */
  lemma DecodeEncodedChar(c: char, rest: string)
    ensures DecodeUriComponent(EncodeChar(c) + rest) ==
      (match DecodeUriComponent(rest) case None => None case Some(t) => Some([c] + t))
  {
    var r := EncodeChar(c) + rest;
    if Unreserved(c) {
      assert r[0] == c && r[1..] == rest;
    } else {
      var bytes := Utf8(c);
      Utf8RoundTrip(c);
      ReadEscapesOfEscapeAll(bytes, rest);
      HexRoundTrip(bytes[0] / 16);
      HexRoundTrip(bytes[0] % 16);
      assert r[..3] == Escape(bytes[0]);
      assert r[3 * |bytes|..] == rest;
    }
  }

  /** Decoding undoes encoding: `decodeURIComponent(encodeURIComponent(s))`
      is `s`. */
  lemma {:induction false} UriRoundTrip(s: string)
    ensures DecodeUriComponent(EncodeUriComponent(s)) == Some(s)
    decreases |s|
  {
    if |s| > 0 {
      UriRoundTrip(s[1..]);
      DecodeEncodedChar(s[0], EncodeUriComponent(s[1..]));
      assert [s[0]] + s[1..] == s;
    }
  }

  /** Different strings encode differently. */
  lemma EncodeInjective(s: string, t: string)
    requires EncodeUriComponent(s) == EncodeUriComponent(t)
    ensures s == t
  {
    UriRoundTrip(s);
    UriRoundTrip(t);
  }

  // ---------------------------------------------------------------------------
  // The alphabet of the encoding

  /** What an encoding can contain: unreserved characters, '%' and upper-case
      hexadecimal digits (which are unreserved themselves). */
  predicate EncodedChar(c: char) {
    Unreserved(c) || c == '%'
  }

  lemma {:induction false} EscapeAllAlphabet(bytes: seq<Byte>)
    ensures forall i :: 0 <= i < |EscapeAll(bytes)| ==> EncodedChar(EscapeAll(bytes)[i])
    decreases |bytes|
  {
    if |bytes| > 0 {
      EscapeAllAlphabet(bytes[1..]);
      var e := EscapeAll(bytes);
      assert e == Escape(bytes[0]) + EscapeAll(bytes[1..]);
    }
  }

  /** The encoding holds only unreserved characters and '%': in particular no
      '/', so it always stays within one path segment. */
  lemma {:induction false} EncodedAlphabet(s: string)
    ensures forall i :: 0 <= i < |EncodeUriComponent(s)| ==> EncodedChar(EncodeUriComponent(s)[i])
    ensures '/' !in EncodeUriComponent(s)
    decreases |s|
  {
    if |s| > 0 {
      EncodedAlphabet(s[1..]);
      if !Unreserved(s[0]) {
        EscapeAllAlphabet(Utf8(s[0]));
      }
      var r := EncodeUriComponent(s);
      assert r == EncodeChar(s[0]) + EncodeUriComponent(s[1..]);
    }
  }

  /** A string is its own encoding exactly when all its characters are
      unreserved. */
  lemma {:induction false} EncodeIdentityIffUnreserved(s: string)
    ensures EncodeUriComponent(s) == s <==> forall i :: 0 <= i < |s| ==> Unreserved(s[i])
    decreases |s|
  {
    if |s| > 0 {
      EncodeIdentityIffUnreserved(s[1..]);
      var r := EncodeUriComponent(s);
      if Unreserved(s[0]) {
        assert r == [s[0]] + EncodeUriComponent(s[1..]);
        assert s == [s[0]] + s[1..];
        if forall i :: 0 <= i < |s| ==> Unreserved(s[i]) {
          assert forall i :: 0 <= i < |s[1..]| ==> Unreserved(s[1..][i]) by {
            forall i | 0 <= i < |s[1..]| ensures Unreserved(s[1..][i]) {
              assert s[1..][i] == s[i + 1];
            }
          }
        }
        if r == s {
          assert EncodeUriComponent(s[1..]) == r[1..] == s[1..];
        }
      } else {
        assert |r| > |s|;
      }
    }
  }
}
