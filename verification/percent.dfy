/**
 * Python's `urllib.parse.quote(s, safe='')` as used for OAuth 1.0a signing
 * (section 3.6 of RFC 5849): the string is encoded as UTF-8 and every byte
 * outside the unreserved set of section 2.3 of RFC 3986 (ALPHA / DIGIT / "-" /
 * "." / "_" / "~") becomes `%XX` with upper-case hex digits. A space therefore
 * becomes `%20`, never `+`.
 *
 * The module also holds the inverse (percent-decoding followed by UTF-8
 * decoding), which exists to state that encoding loses nothing.
 */
module PercentEncoding {
  import opened Results
  import opened Text

  newtype byte = x: int | 0 <= x < 256

  // ---------------------------------------------------------------------------
  // UTF-8 (str.encode('utf-8') and its inverse)
  // ---------------------------------------------------------------------------

  /** The UTF-8 encoding of one Unicode scalar value: one to four bytes. */
  function EncodeChar(c: char): (bs: seq<byte>)
    ensures 1 <= |bs| <= 4
    ensures (|bs| == 1) <==> (c as int < 0x80)
    ensures |bs| == 1 ==> bs[0] as int == c as int
  {
    var cp := c as int;
    if cp < 0x80 then [cp as byte]
    else if cp < 0x800 then [(0xC0 + cp / 64) as byte, (0x80 + cp % 64) as byte]
    else if cp < 0x1_0000 then
      [(0xE0 + cp / 4096) as byte, (0x80 + (cp / 64) % 64) as byte, (0x80 + cp % 64) as byte]
    else
      [(0xF0 + cp / 262144) as byte, (0x80 + (cp / 4096) % 64) as byte,
       (0x80 + (cp / 64) % 64) as byte, (0x80 + cp % 64) as byte]
  }

  /** `s.encode('utf-8')`. */
  function Utf8(s: string): seq<byte>
    decreases |s|
  {
    if |s| == 0 then [] else EncodeChar(s[0]) + Utf8(s[1..])
  }

  predicate IsContinuation(b: byte) {
    0x80 <= b < 0xC0
  }

  function ScalarChar(cp: int): Option<char> {
    if 0 <= cp < 0xD800 || 0xE000 <= cp < 0x11_0000 then Some(cp as char) else Nothing
  }

  /** Reads one UTF-8 sequence at the front of `bs`: the character and how many bytes it took. */
  function DecodeChar(bs: seq<byte>): (r: Option<(char, nat)>)
    requires |bs| > 0
    ensures r.Some? ==> 1 <= r.value.1 <= |bs|
  {
    var b0 := bs[0] as int;
    if b0 < 0x80 then Some((b0 as char, 1))
    else if 0xC0 <= b0 < 0xE0 && |bs| >= 2 && IsContinuation(bs[1]) then
      var c := ScalarChar((b0 - 0xC0) * 64 + (bs[1] as int - 0x80));
      if c.Some? then Some((c.value, 2)) else Nothing
    else if 0xE0 <= b0 < 0xF0 && |bs| >= 3 && IsContinuation(bs[1]) && IsContinuation(bs[2]) then
      var c := ScalarChar((b0 - 0xE0) * 4096 + (bs[1] as int - 0x80) * 64 + (bs[2] as int - 0x80));
      if c.Some? then Some((c.value, 3)) else Nothing
    else if 0xF0 <= b0 < 0xF8 && |bs| >= 4 && IsContinuation(bs[1]) && IsContinuation(bs[2])
            && IsContinuation(bs[3]) then
      var c := ScalarChar((b0 - 0xF0) * 262144 + (bs[1] as int - 0x80) * 4096
                          + (bs[2] as int - 0x80) * 64 + (bs[3] as int - 0x80));
      if c.Some? then Some((c.value, 4)) else Nothing
    else Nothing
  }

  /** `bs.decode('utf-8')`, `Nothing` where Python would raise `UnicodeDecodeError`. */
  function Utf8Decode(bs: seq<byte>): Option<string>
    decreases |bs|
  {
    if |bs| == 0 then Some("")
    else
      match DecodeChar(bs)
      case Nothing => Nothing
      case Some((c, n)) =>
        match Utf8Decode(bs[n..])
        case Nothing => Nothing
        case Some(rest) => Some([c] + rest)
  }

  lemma DecodeEncodeChar(c: char, rest: seq<byte>)
    ensures DecodeChar(EncodeChar(c) + rest) == Some((c, |EncodeChar(c)|))
  {
    var cp := c as int;
    if cp < 0x80 {
    } else if cp < 0x800 {
      DecodeEncodeTwo(c, rest);
    } else if cp < 0x1_0000 {
      DecodeEncodeThree(c, rest);
    } else {
      DecodeEncodeFour(c, rest);
    }
  }

  lemma DecodeEncodeTwo(c: char, rest: seq<byte>)
    requires 0x80 <= c as int < 0x800
    ensures DecodeChar(EncodeChar(c) + rest) == Some((c, |EncodeChar(c)|))
  {
    var cp := c as int;
    assert (cp / 64) * 64 + cp % 64 == cp;
  }

  lemma DecodeEncodeThree(c: char, rest: seq<byte>)
    requires 0x800 <= c as int < 0x1_0000
    ensures DecodeChar(EncodeChar(c) + rest) == Some((c, |EncodeChar(c)|))
  {
    var cp := c as int;
    assert (cp / 64) == (cp / 4096) * 64 + (cp / 64) % 64;
    assert (cp / 4096) * 4096 + ((cp / 64) % 64) * 64 + cp % 64 == cp;
  }

  lemma DecodeEncodeFour(c: char, rest: seq<byte>)
    requires 0x1_0000 <= c as int
    ensures DecodeChar(EncodeChar(c) + rest) == Some((c, |EncodeChar(c)|))
  {
    var cp := c as int;
    assert (cp / 64) == (cp / 4096) * 64 + (cp / 64) % 64;
    assert (cp / 4096) == (cp / 262144) * 64 + (cp / 4096) % 64;
    assert (cp / 262144) * 262144 + ((cp / 4096) % 64) * 4096 + ((cp / 64) % 64) * 64 + cp % 64 == cp;
  }

  /** UTF-8 decoding undoes UTF-8 encoding. */
  lemma {:induction false} Utf8RoundTrip(s: string)
    ensures Utf8Decode(Utf8(s)) == Some(s)
    decreases |s|
  {
    if |s| > 0 {
      var bs := Utf8(s);
      DecodeEncodeChar(s[0], Utf8(s[1..]));
      assert bs[|EncodeChar(s[0])|..] == Utf8(s[1..]);
      Utf8RoundTrip(s[1..]);
      assert [s[0]] + s[1..] == s;
    }
  }

  lemma {:induction false} Utf8Ascii(s: string)
    requires forall i | 0 <= i < |s| :: s[i] as int < 0x80
    ensures |Utf8(s)| == |s|
    ensures forall i | 0 <= i < |s| :: Utf8(s)[i] as int == s[i] as int
    decreases |s|
  {
    if |s| > 0 {
      Utf8Ascii(s[1..]);
    }
  }

  // ---------------------------------------------------------------------------
  // quote(s, safe='')
  // ---------------------------------------------------------------------------

  /** The unreserved characters of section 2.3 of RFC 3986, which `quote` never escapes. */
  predicate Unreserved(c: char) {
    ('A' <= c <= 'Z') || ('a' <= c <= 'z') || ('0' <= c <= '9') || c == '-' || c == '.' || c == '_' || c == '~'
  }

  predicate IsUpperHex(c: char) {
    ('0' <= c <= '9') || ('A' <= c <= 'F')
  }

  function HexDigit(d: nat): (c: char)
    requires d < 16
    ensures IsUpperHex(c)
  {
    if d < 10 then ('0' as int + d) as char else ('A' as int + d - 10) as char
  }

  /** Accepts either case, as percent-decoding does. */
  function HexValue(c: char): Option<nat> {
    if '0' <= c <= '9' then Some(c as int - '0' as int)
    else if 'A' <= c <= 'F' then Some(c as int - 'A' as int + 10)
    else if 'a' <= c <= 'f' then Some(c as int - 'a' as int + 10)
    else Nothing
  }

  /**
   * The shape of `quote`'s output: a run of unreserved characters and
   * `%XX` triples with upper-case hex digits, and nothing else.
   */
  predicate Escaped(t: string)
    decreases |t|
  {
    if |t| == 0 then true
    else if Unreserved(t[0]) then Escaped(t[1..])
    else t[0] == '%' && |t| >= 3 && IsUpperHex(t[1]) && IsUpperHex(t[2]) && Escaped(t[3..])
  }

  function QuoteByte(b: byte): (t: string)
    ensures Escaped(t)
  {
    if b < 0x80 && Unreserved(b as int as char) then [b as int as char]
    else
      var t := ['%', HexDigit(b as int / 16), HexDigit(b as int % 16)];
      assert t[3..] == [];
      t
  }

  function QuoteBytes(bs: seq<byte>): string
    decreases |bs|
  {
    if |bs| == 0 then "" else QuoteByte(bs[0]) + QuoteBytes(bs[1..])
  }

  lemma {:induction false} EscapedAppend(a: string, b: string)
    requires Escaped(a) && Escaped(b)
    ensures Escaped(a + b)
    decreases |a|
  {
    if |a| == 0 {
      assert a + b == b;
    } else {
      assert (a + b)[0] == a[0];
      if Unreserved(a[0]) {
        assert (a + b)[1..] == a[1..] + b;
        EscapedAppend(a[1..], b);
      } else {
        assert (a + b)[1] == a[1] && (a + b)[2] == a[2];
        assert (a + b)[3..] == a[3..] + b;
        EscapedAppend(a[3..], b);
      }
    }
  }

  lemma {:induction false} QuoteBytesEscaped(bs: seq<byte>)
    ensures Escaped(QuoteBytes(bs))
    decreases |bs|
  {
    if |bs| > 0 {
      QuoteBytesEscaped(bs[1..]);
      EscapedAppend(QuoteByte(bs[0]), QuoteBytes(bs[1..]));
    }
  }

  /** Every character of an escaped string is unreserved or the escape character. */
  lemma {:induction false} EscapedChars(t: string)
    requires Escaped(t)
    ensures forall i | 0 <= i < |t| :: Unreserved(t[i]) || t[i] == '%'
    decreases |t|
  {
    if |t| > 0 {
      if Unreserved(t[0]) {
        EscapedChars(t[1..]);
        assert forall i | 1 <= i < |t| :: t[i] == t[1..][i - 1];
      } else {
        EscapedChars(t[3..]);
        assert forall i | 3 <= i < |t| :: t[i] == t[3..][i - 3];
      }
    }
  }

  /**
   * `quote(s, safe='')`. The result is made only of unreserved characters and
   * `%XX` triples, so in particular it never holds `&`, `=`, `:` or a space.
   */
  function Quote(s: string): (r: string)
    ensures Escaped(r)
    ensures forall i | 0 <= i < |r| :: Unreserved(r[i]) || r[i] == '%'
    ensures '&' !in r && '=' !in r && ':' !in r && ' ' !in r
  {
    var r := QuoteBytes(Utf8(s));
    QuoteBytesEscaped(Utf8(s));
    EscapedChars(r);
    r
  }

  // ---------------------------------------------------------------------------
  // The inverse: percent-decoding
  // ---------------------------------------------------------------------------

  /** Percent-decoding to bytes: `%XX` is one byte, any other ASCII character stands for itself. */
  function UnquoteBytes(t: string): Option<seq<byte>>
    decreases |t|
  {
    if |t| == 0 then Some([])
    else if t[0] == '%' then
      if |t| >= 3 && HexValue(t[1]).Some? && HexValue(t[2]).Some? then
        match UnquoteBytes(t[3..])
        case Nothing => Nothing
        case Some(rest) => Some([(HexValue(t[1]).value * 16 + HexValue(t[2]).value) as byte] + rest)
      else Nothing
    else if t[0] as int < 0x80 then
      match UnquoteBytes(t[1..])
      case Nothing => Nothing
      case Some(rest) => Some([t[0] as int as byte] + rest)
    else Nothing
  }

  /** Percent-decoding followed by UTF-8 decoding: the inverse of `Quote`. */
  function Unquote(t: string): Option<string> {
    match UnquoteBytes(t)
    case Nothing => Nothing
    case Some(bs) => Utf8Decode(bs)
  }

  lemma UnquoteQuoteByte(b: byte, rest: string)
    ensures UnquoteBytes(QuoteByte(b) + rest) ==
      match UnquoteBytes(rest)
      case Nothing => Nothing
      case Some(bs) => Some([b] + bs)
  {
    var t := QuoteByte(b) + rest;
    if b < 0x80 && Unreserved(b as int as char) {
      assert t[1..] == rest;
    } else {
      assert t[3..] == rest;
      assert (b as int / 16) * 16 + b as int % 16 == b as int;
    }
  }

  lemma {:induction false} QuoteBytesRoundTrip(bs: seq<byte>)
    ensures UnquoteBytes(QuoteBytes(bs)) == Some(bs)
    decreases |bs|
  {
    if |bs| > 0 {
      UnquoteQuoteByte(bs[0], QuoteBytes(bs[1..]));
      QuoteBytesRoundTrip(bs[1..]);
      assert [bs[0]] + bs[1..] == bs;
    }
  }

  /** Percent-encoding loses nothing: decoding `Quote(s)` gives back `s`. */
  lemma QuoteRoundTrip(s: string)
    ensures Unquote(Quote(s)) == Some(s)
  {
    QuoteBytesRoundTrip(Utf8(s));
    Utf8RoundTrip(s);
  }

  lemma QuoteInjective(s: string, t: string)
    requires Quote(s) == Quote(t)
    ensures s == t
  {
    QuoteRoundTrip(s);
    QuoteRoundTrip(t);
  }

  /** A string made only of unreserved characters is left exactly as it is. */
  lemma {:induction false} QuoteUnreserved(s: string)
    requires forall i | 0 <= i < |s| :: Unreserved(s[i])
    ensures Quote(s) == s
  {
    Utf8Ascii(s);
    QuoteBytesAscii(s, Utf8(s));
  }

  lemma {:induction false} QuoteBytesAscii(s: string, bs: seq<byte>)
    requires forall i | 0 <= i < |s| :: Unreserved(s[i])
    requires |bs| == |s| && forall i | 0 <= i < |s| :: bs[i] as int == s[i] as int
    ensures QuoteBytes(bs) == s
    decreases |s|
  {
    if |s| > 0 {
      QuoteBytesAscii(s[1..], bs[1..]);
      assert QuoteByte(bs[0]) == [s[0]];
      assert [s[0]] + s[1..] == s;
    }
  }
}
