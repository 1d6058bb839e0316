/** `urllib.parse.quote` with its default `safe='/'`: the string is encoded as
    UTF-8 and every byte outside the unreserved set of section 2.3 of RFC 3986
    (letters, digits, `-`, `.`, `_`, `~`) and `/` becomes `%XX` with upper-case
    hexadecimal digits (section 2.1 of RFC 3986). `Unquote` is the inverse. */
module UrlQuote {
  import opened Options

  type Byte = b: int | 0 <= b < 256

  /** A Dafny `char` is a Unicode scalar value. */
  predicate IsScalar(cp: int) {
    (0 <= cp < 0xD800) || (0xE000 <= cp < 0x11_0000)
  }

  /** UTF-8 encoding of one scalar value (section 3 of RFC 3629). */
  function Utf8Char(c: char): (b: seq<Byte>)
    ensures 1 <= |b| <= 4
    ensures (|b| == 1) <==> c as int < 0x80
  {
    var cp := c as int;
    if cp < 0x80 then [cp]
    else if cp < 0x800 then [0xC0 + cp / 64, 0x80 + cp % 64]
    else if cp < 0x1_0000 then [0xE0 + cp / 4096, 0x80 + (cp / 64) % 64, 0x80 + cp % 64]
    else [0xF0 + cp / 262144, 0x80 + (cp / 4096) % 64, 0x80 + (cp / 64) % 64, 0x80 + cp % 64]
  }

  function Utf8Encode(s: string): (b: seq<Byte>)
    ensures |b| >= |s|
  {
    if s == [] then [] else Utf8Char(s[0]) + Utf8Encode(s[1..])
  }

  predicate IsContinuation(b: Byte) { 0x80 <= b < 0xC0 }

  /** Decodes the first scalar value of `b`, rejecting truncated, overlong
      and surrogate sequences; the result says how many bytes it used. */
  function DecodeOne(b: seq<Byte>): (r: Option<(char, nat)>)
    requires b != []
    ensures r.Some? ==> 1 <= r.value.1 <= |b|
  {
    var b0: int := b[0];
    if b0 < 0x80 then Some((b0 as char, 1))
    else if 0xC2 <= b0 < 0xE0 && |b| >= 2 && IsContinuation(b[1]) then
      var cp := (b0 - 0xC0) * 64 + (b[1] as int - 0x80);
      Some((cp as char, 2))
    else if 0xE0 <= b0 < 0xF0 && |b| >= 3 && IsContinuation(b[1]) && IsContinuation(b[2]) then
      var cp := (b0 - 0xE0) * 4096 + (b[1] as int - 0x80) * 64 + (b[2] as int - 0x80);
      if 0x800 <= cp && IsScalar(cp) then Some((cp as char, 3)) else None
    else if 0xF0 <= b0 < 0xF5 && |b| >= 4 && IsContinuation(b[1]) && IsContinuation(b[2]) && IsContinuation(b[3]) then
      var cp := (b0 - 0xF0) * 262144 + (b[1] as int - 0x80) * 4096 + (b[2] as int - 0x80) * 64 + (b[3] as int - 0x80);
      if 0x1_0000 <= cp && IsScalar(cp) then Some((cp as char, 4)) else None
    else None
  }

  /** Strict UTF-8 decoding; `None` on a malformed sequence. */
  function Utf8Decode(b: seq<Byte>): Option<string>
    decreases |b|
  {
    if b == [] then Some([])
    else match DecodeOne(b)
      case None => None
      case Some((c, n)) =>
        match Utf8Decode(b[n..])
        case None => None
        case Some(rest) => Some([c] + rest)
  }

  lemma DecodeTwo(c: char, rest: seq<Byte>)
    requires 0x80 <= c as int < 0x800
    ensures DecodeOne(Utf8Char(c) + rest) == Some((c, 2))
  {
    var cp := c as int;
    var b := Utf8Char(c) + rest;
    assert b[0] == 0xC0 + cp / 64 && b[1] == 0x80 + cp % 64;
    assert cp == (cp / 64) * 64 + cp % 64;
  }

  lemma DecodeThree(c: char, rest: seq<Byte>)
    requires 0x800 <= c as int < 0x1_0000
    ensures DecodeOne(Utf8Char(c) + rest) == Some((c, 3))
  {
    var cp := c as int;
    var b := Utf8Char(c) + rest;
    assert b[0] == 0xE0 + cp / 4096 && b[1] == 0x80 + (cp / 64) % 64 && b[2] == 0x80 + cp % 64;
    assert cp / 64 == (cp / 4096) * 64 + (cp / 64) % 64;
    assert cp == (cp / 64) * 64 + cp % 64;
  }

  lemma DecodeFour(c: char, rest: seq<Byte>)
    requires 0x1_0000 <= c as int
    ensures DecodeOne(Utf8Char(c) + rest) == Some((c, 4))
  {
    var cp := c as int;
    var b := Utf8Char(c) + rest;
    assert b[0] == 0xF0 + cp / 262144 && b[1] == 0x80 + (cp / 4096) % 64;
    assert b[2] == 0x80 + (cp / 64) % 64 && b[3] == 0x80 + cp % 64;
    assert cp / 4096 == (cp / 262144) * 64 + (cp / 4096) % 64;
    assert cp / 64 == (cp / 4096) * 64 + (cp / 64) % 64;
    assert cp == (cp / 64) * 64 + cp % 64;
  }

  lemma DecodeOneChar(c: char, rest: seq<Byte>)
    ensures DecodeOne(Utf8Char(c) + rest) == Some((c, |Utf8Char(c)|))
  {
    var cp := c as int;
    if cp < 0x80 {
    } else if cp < 0x800 {
      DecodeTwo(c, rest);
    } else if cp < 0x1_0000 {
      DecodeThree(c, rest);
    } else {
      DecodeFour(c, rest);
    }
  }

  /** Decoding the UTF-8 encoding of a string gives the string back. */
  lemma {:induction false} Utf8RoundTrip(s: string)
    ensures Utf8Decode(Utf8Encode(s)) == Some(s)
  {
    if s != [] {
      var b := Utf8Encode(s);
      DecodeOneChar(s[0], Utf8Encode(s[1..]));
      assert b[|Utf8Char(s[0])|..] == Utf8Encode(s[1..]);
      Utf8RoundTrip(s[1..]);
      assert [s[0]] + s[1..] == s;
    }
  }

  /** Bytes `quote` leaves as they are: ALPHA / DIGIT / "-" / "." / "_" / "~" and "/". */
  predicate IsSafe(b: Byte) {
    ('A' as int <= b <= 'Z' as int) || ('a' as int <= b <= 'z' as int) ||
    ('0' as int <= b <= '9' as int) ||
    b == '-' as int || b == '.' as int || b == '_' as int || b == '~' as int || b == '/' as int
  }

  const HexDigits: string := "0123456789ABCDEF"

  function HexValue(c: char): Option<nat>
    ensures HexValue(c).Some? ==> HexValue(c).value < 16
  {
    if '0' <= c <= '9' then Some(c as int - '0' as int)
    else if 'A' <= c <= 'F' then Some(c as int - 'A' as int + 10)
    else if 'a' <= c <= 'f' then Some(c as int - 'a' as int + 10)
    else None
  }

  function QuoteByte(b: Byte): (r: string)
    ensures IsSafe(b) ==> r == [b as char]
    ensures !IsSafe(b) ==> |r| == 3 && r[0] == '%'
    ensures forall i :: 0 <= i < |r| ==> r[i] as int < 0x80
  {
    if IsSafe(b) then [b as char] else ['%', HexDigits[b / 16], HexDigits[b % 16]]
  }

  function QuoteBytes(b: seq<Byte>): (r: string)
    ensures forall i :: 0 <= i < |r| ==> r[i] as int < 0x80
    ensures |r| >= |b|
  {
    if b == [] then [] else QuoteByte(b[0]) + QuoteBytes(b[1..])
  }

  /** `urllib.parse.quote(s)`: pure ASCII, and never shorter than `s`. */
  function Quote(s: string): (r: string)
    ensures forall i :: 0 <= i < |r| ==> r[i] as int < 0x80
    ensures |r| >= |s|
  {
    QuoteBytes(Utf8Encode(s))
  }

  /** `urllib.parse.unquote_to_bytes`: `%XX` with two hexadecimal digits
      becomes that byte, everything else stands for its own UTF-8 encoding. */
  function UnquoteToBytes(s: string): seq<Byte>
    decreases |s|
  {
    if s == [] then []
    else if s[0] == '%' && |s| >= 3 && HexValue(s[1]).Some? && HexValue(s[2]).Some? then
      [HexValue(s[1]).value * 16 + HexValue(s[2]).value] + UnquoteToBytes(s[3..])
    else Utf8Char(s[0]) + UnquoteToBytes(s[1..])
  }

  /** `urllib.parse.unquote(s)` on well-formed input; a string without `%` is its own decoding. */
  function Unquote(s: string): (r: Option<string>)
    ensures (forall i :: 0 <= i < |s| ==> s[i] != '%') ==> r == Some(s)
  {
    UnquotePlain(s);
    Utf8RoundTrip(s);
    Utf8Decode(UnquoteToBytes(s))
  }

  /** Without a `%`, every character stands for its own UTF-8 encoding. */
  lemma {:induction false} UnquotePlain(s: string)
    ensures (forall i :: 0 <= i < |s| ==> s[i] != '%') ==> UnquoteToBytes(s) == Utf8Encode(s)
    decreases |s|
  {
    if s != [] && forall i :: 0 <= i < |s| ==> s[i] != '%' {
      assert forall i :: 0 <= i < |s[1..]| ==> s[1..][i] == s[i + 1];
      UnquotePlain(s[1..]);
    }
  }

  lemma HexDigitValue(n: nat)
    requires n < 16
    ensures HexValue(HexDigits[n]) == Some(n)
  {
  }

  lemma UnquoteSafeByte(b: Byte, rest: string)
    requires IsSafe(b)
    ensures UnquoteToBytes(QuoteByte(b) + rest) == [b] + UnquoteToBytes(rest)
  {
    var q := QuoteByte(b) + rest;
    assert q[0] == b as char && q[1..] == rest;
    assert Utf8Char(b as char) == [b];
  }

  lemma UnquoteEscapedByte(b: Byte, rest: string)
    requires !IsSafe(b)
    ensures UnquoteToBytes(QuoteByte(b) + rest) == [b] + UnquoteToBytes(rest)
  {
    var hi, lo := b / 16, b % 16;
    assert QuoteByte(b) == ['%', HexDigits[hi], HexDigits[lo]];
    EscapeDecodes(hi, lo, rest);
  }

  /** `%` and two hexadecimal digits decode to the byte they spell. */
  lemma EscapeDecodes(hi: nat, lo: nat, rest: string)
    requires hi < 16 && lo < 16
    ensures UnquoteToBytes(['%', HexDigits[hi], HexDigits[lo]] + rest) == [hi * 16 + lo] + UnquoteToBytes(rest)
  {
    HexDigitValue(hi);
    HexDigitValue(lo);
    var q := ['%', HexDigits[hi], HexDigits[lo]] + rest;
    assert q[0] == '%' && q[1] == HexDigits[hi] && q[2] == HexDigits[lo] && q[3..] == rest;
  }

  lemma UnquoteQuoteByte(b: Byte, rest: string)
    ensures UnquoteToBytes(QuoteByte(b) + rest) == [b] + UnquoteToBytes(rest)
  {
    if IsSafe(b) {
      UnquoteSafeByte(b, rest);
    } else {
      UnquoteEscapedByte(b, rest);
    }
  }

  /** Percent-decoding undoes percent-encoding byte for byte. */
  lemma {:induction false} UnquoteQuoteBytes(b: seq<Byte>)
    ensures UnquoteToBytes(QuoteBytes(b)) == b
  {
    if b != [] {
      UnquoteQuoteByte(b[0], QuoteBytes(b[1..]));
      UnquoteQuoteBytes(b[1..]);
      assert [b[0]] + b[1..] == b;
    }
  }

  /** The round trip of `quote` and `unquote`. */
  lemma QuoteRoundTrip(s: string)
    ensures Unquote(Quote(s)) == Some(s)
  {
    UnquoteQuoteBytes(Utf8Encode(s));
    Utf8RoundTrip(s);
  }

  /** A string made only of safe ASCII characters is its own encoding. */
  lemma {:induction false} QuoteKeepsSafe(s: string)
    requires forall i :: 0 <= i < |s| ==> s[i] as int < 0x80 && IsSafe(s[i] as int)
    ensures Quote(s) == s
  {
    if s != [] {
      QuoteKeepsSafe(s[1..]);
      assert Utf8Encode(s) == [s[0] as int] + Utf8Encode(s[1..]);
      assert QuoteBytes(Utf8Encode(s)) == QuoteByte(s[0] as int) + QuoteBytes(Utf8Encode(s[1..]));
      assert [s[0]] + s[1..] == s;
    }
  }

  /** Encoding distributes over concatenation. */
  lemma QuoteAppend(s: string, t: string)
    ensures Quote(s + t) == Quote(s) + Quote(t)
  {
    Utf8EncodeAppend(s, t);
    QuoteBytesAppend(Utf8Encode(s), Utf8Encode(t));
  }

  lemma {:induction false} Utf8EncodeAppend(s: string, t: string)
    ensures Utf8Encode(s + t) == Utf8Encode(s) + Utf8Encode(t)
  {
    if s == [] {
      assert s + t == t;
    } else {
      var u := s + t;
      assert u[0] == s[0] && u[1..] == s[1..] + t;
      Utf8EncodeAppend(s[1..], t);
      calc {
        Utf8Encode(u);
        Utf8Char(s[0]) + Utf8Encode(s[1..] + t);
        Utf8Char(s[0]) + (Utf8Encode(s[1..]) + Utf8Encode(t));
        (Utf8Char(s[0]) + Utf8Encode(s[1..])) + Utf8Encode(t);
      }
    }
  }

  lemma {:induction false} QuoteBytesAppend(a: seq<Byte>, b: seq<Byte>)
    ensures QuoteBytes(a + b) == QuoteBytes(a) + QuoteBytes(b)
  {
    if a == [] {
      assert a + b == b;
    } else {
      assert (a + b)[0] == a[0] && (a + b)[1..] == a[1..] + b;
      QuoteBytesAppend(a[1..], b);
    }
  }
}
