/**
 * `encodeURIComponent` (ECMAScript 2024, section 19.2.6.5) as the share page
 * uses it: every character outside the unreserved set is written as the
 * `%XX` escapes of its UTF-8 bytes, with upper-case hex digits. A Dafny
 * `char` is a Unicode scalar value, so the lone surrogates for which the
 * JavaScript function throws do not arise.
 */
module UriComponent {
  import opened Common

  type Byte = x: int | 0 <= x < 256

  /** The characters section 19.2.6.5 leaves as they are: letters, digits and `-_.!~*'()`. */
  predicate Unreserved(c: char) {
    || ('A' <= c <= 'Z') || ('a' <= c <= 'z') || ('0' <= c <= '9')
    || c == '-' || c == '_' || c == '.' || c == '!' || c == '~' || c == '*' || c == '\'' || c == '(' || c == ')'
  }

  /** The UTF-8 encoding of one scalar value (RFC 3629, section 3). */
  function Utf8(c: char): (bs: seq<Byte>)
    ensures 1 <= |bs| <= 4
    ensures |bs| == 1 <==> c as int < 0x80
  {
    var n := c as int;
    if n < 0x80 then [n]
    else if n < 0x800 then [0xC0 + n / 0x40, 0x80 + n % 0x40]
    else if n < 0x1_0000 then [0xE0 + n / 0x1000, 0x80 + (n / 0x40) % 0x40, 0x80 + n % 0x40]
    else [0xF0 + n / 0x4_0000, 0x80 + (n / 0x1000) % 0x40, 0x80 + (n / 0x40) % 0x40, 0x80 + n % 0x40]
  }

  /** Reads back the scalar value from its lead byte and continuation bytes. */
  function Utf8Value(bs: seq<Byte>): int
    requires 1 <= |bs| <= 4
  {
    var b: seq<int> := bs;
    if |b| == 1 then b[0]
    else if |b| == 2 then (b[0] - 0xC0) * 0x40 + (b[1] - 0x80)
    else if |b| == 3 then (b[0] - 0xE0) * 0x1000 + (b[1] - 0x80) * 0x40 + (b[2] - 0x80)
    else (b[0] - 0xF0) * 0x4_0000 + (b[1] - 0x80) * 0x1000 + (b[2] - 0x80) * 0x40 + (b[3] - 0x80)
  }

  /** The encoding is faithful: its bytes give the scalar value back. */
  lemma Utf8RoundTrip(c: char)
    ensures Utf8Value(Utf8(c)) == c as int
  {
    var n := c as int;
    if n < 0x80 {
    } else if n < 0x800 {
      assert n == (n / 0x40) * 0x40 + n % 0x40;
    } else if n < 0x1_0000 {
      SixBitSplit(n);
      assert n / 0x1000 == (n / 0x40) / 0x40;
    } else {
      SixBitSplit(n);
      SixBitSplit(n / 0x40);
      assert n / 0x1000 == (n / 0x40) / 0x40;
      assert n / 0x4_0000 == (n / 0x1000) / 0x40;
    }
  }

  /** Peeling off the low six bits. */
  lemma SixBitSplit(n: nat)
    ensures n == (n / 0x40) * 0x40 + n % 0x40
    ensures n / 0x40 == ((n / 0x40) / 0x40) * 0x40 + (n / 0x40) % 0x40
  {
  }

  /** UTF-8 of a whole string: the bytes of each character in turn. */
  function Utf8String(s: string): seq<Byte> {
    if s == [] then [] else Utf8(s[0]) + Utf8String(s[1..])
  }

  /** Upper-case hex digit of a value below 16. */
  function HexDigit(n: int): (c: char)
    requires 0 <= n < 16
    ensures IsUpperHex(c)
  {
    if n < 10 then (('0' as int) + n) as char else (('A' as int) + n - 10) as char
  }

  predicate IsUpperHex(c: char) {
    ('0' <= c <= '9') || ('A' <= c <= 'F')
  }

  function HexValue(c: char): int
    requires IsUpperHex(c)
  {
    if c <= '9' then c as int - '0' as int else c as int - 'A' as int + 10
  }

  lemma HexDigitValue(n: int)
    requires 0 <= n < 16
    ensures HexValue(HexDigit(n)) == n
  {
  }

  /** `%XX` for each byte. */
  function PercentBytes(bs: seq<Byte>): (r: string)
    ensures |r| == 3 * |bs|
    ensures forall i :: 0 <= i < |r| ==> r[i] == '%' || IsUpperHex(r[i])
  {
    if bs == [] then []
    else ['%', HexDigit(bs[0] / 16), HexDigit(bs[0] % 16)] + PercentBytes(bs[1..])
  }

  function EncodeChar(c: char): string {
    if Unreserved(c) then [c] else PercentBytes(Utf8(c))
  }

  /** `encodeURIComponent(s)`. */
  function EncodeURIComponent(s: string): (r: string)
    ensures forall i :: 0 <= i < |r| ==> Unreserved(r[i]) || r[i] == '%' || IsUpperHex(r[i])
  {
    if s == [] then [] else EncodeChar(s[0]) + EncodeURIComponent(s[1..])
  }

  /** An encoded component holds none of the characters that delimit a URI's query or fragment. */
  lemma EncodedHasNoDelimiters(s: string)
    ensures '&' !in EncodeURIComponent(s) && '=' !in EncodeURIComponent(s)
    ensures '?' !in EncodeURIComponent(s) && '#' !in EncodeURIComponent(s)
    ensures Occurrences(EncodeURIComponent(s), '&') == 0
  {
    OccurrencesAbsent(EncodeURIComponent(s), '&');
  }

  /** Text is encoded character by character: encoding distributes over concatenation. */
  lemma {:induction false} EncodeAppend(a: string, b: string)
    ensures EncodeURIComponent(a + b) == EncodeURIComponent(a) + EncodeURIComponent(b)
  {
    if a == [] {
      assert a + b == b;
    } else {
      assert (a + b)[0] == a[0] && (a + b)[1..] == a[1..] + b;
      EncodeAppend(a[1..], b);
    }
  }

  /** Unreserved text is left exactly as it is. */
  lemma {:induction false} EncodeUnreservedIdentity(s: string)
    requires forall i :: 0 <= i < |s| ==> Unreserved(s[i])
    ensures EncodeURIComponent(s) == s
  {
    if s != [] {
      EncodeUnreservedIdentity(s[1..]);
    }
  }

  /**
   * Percent-decoding to bytes: `%XX` gives the byte XX and any other ASCII
   * character its own code; `None` for a character that cannot appear.
   */
  function PercentDecode(t: string): Option<seq<Byte>> {
    if t == [] then Some([])
    else if t[0] == '%' then
      if |t| >= 3 && IsUpperHex(t[1]) && IsUpperHex(t[2]) then
        match PercentDecode(t[3..])
        case None => None
        case Some(rest) => Some([HexValue(t[1]) * 16 + HexValue(t[2])] + rest)
      else None
    else if t[0] as int < 0x80 then
      match PercentDecode(t[1..])
      case None => None
      case Some(rest) => Some([t[0] as int] + rest)
    else None
  }

  lemma {:induction false} DecodePercentBytes(bs: seq<Byte>, t: string)
    ensures PercentDecode(PercentBytes(bs) + t) ==
      if PercentDecode(t).Some? then Some(bs + PercentDecode(t).value) else None
  {
    if bs != [] {
      var hi, lo := HexDigit(bs[0] / 16), HexDigit(bs[0] % 16);
      var u := PercentBytes(bs[1..]) + t;
      var w := PercentBytes(bs) + t;
      assert w == ['%', hi, lo] + u;
      assert w[0] == '%' && w[1] == hi && w[2] == lo && w[3..] == u;
      HexDigitValue(bs[0] / 16);
      HexDigitValue(bs[0] % 16);
      assert HexValue(hi) * 16 + HexValue(lo) == bs[0];
      DecodePercentBytes(bs[1..], t);
      if PercentDecode(t).Some? {
        assert bs == [bs[0]] + bs[1..];
        assert bs + PercentDecode(t).value == [bs[0]] + (bs[1..] + PercentDecode(t).value);
      }
    } else {
      assert PercentBytes(bs) + t == t;
      if PercentDecode(t).Some? {
        assert bs + PercentDecode(t).value == PercentDecode(t).value;
      }
    }
  }

  /** Decoding the escapes gives back the UTF-8 bytes of the original text. */
  lemma {:induction false} DecodeEncode(s: string)
    ensures PercentDecode(EncodeURIComponent(s)) == Some(Utf8String(s))
  {
    if s != [] {
      var rest := EncodeURIComponent(s[1..]);
      DecodeEncode(s[1..]);
      if Unreserved(s[0]) {
        assert ([s[0]] + rest)[1..] == rest;
      } else {
        DecodePercentBytes(Utf8(s[0]), rest);
      }
    }
  }
}
