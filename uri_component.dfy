/**
  `encodeURIComponent` (ECMAScript 5.1, section 15.1.3.4) on strings of Unicode
  scalar values: characters of the unreserved set stay, every other character
  becomes the `%HH` escapes (upper-case hexadecimal) of its UTF-8 bytes.
  `Decode` is the matching `decodeURIComponent` (section 15.1.3.2), used as the
  reference that shows the encoding loses nothing.
*/
module UriComponent {
  import opened Wrappers

  type Byte = b: int | 0 <= b < 256

  /** uriUnreserved: letters, digits and `- _ . ! ~ * ' ( )`. */
  predicate IsUnreserved(c: char) {
    ('A' <= c <= 'Z') || ('a' <= c <= 'z') || ('0' <= c <= '9')
    || c == '-' || c == '_' || c == '.' || c == '!' || c == '~' || c == '*' || c == '\'' || c == '(' || c == ')'
  }

  /** The characters an encoded component can contain. */
  predicate IsEncodedChar(c: char) {
    IsUnreserved(c) || c == '%'
  }

  /** UTF-8 encoding of one scalar value, six bits per continuation byte. */
  function Utf8(c: char): (bs: seq<Byte>)
    ensures 1 <= |bs| <= 4
  {
    var n := c as int;
    if n < 0x80 then [n]
    else if n < 0x800 then [0xC0 + n / 64, 0x80 + n % 64]
    else if n < 0x10000 then [0xE0 + n / 64 / 64, 0x80 + n / 64 % 64, 0x80 + n % 64]
    else [0xF0 + n / 64 / 64 / 64, 0x80 + n / 64 / 64 % 64, 0x80 + n / 64 % 64, 0x80 + n % 64]
  }

  function HexDigit(d: nat): (c: char)
    requires d < 16
    ensures IsUnreserved(c)
  {
    if d < 10 then ('0' as int + d) as char else ('A' as int + d - 10) as char
  }

  function HexValue(c: char): Option<nat> {
    if '0' <= c <= '9' then Some(c as int - '0' as int)
    else if 'A' <= c <= 'F' then Some(c as int - 'A' as int + 10)
    else if 'a' <= c <= 'f' then Some(c as int - 'a' as int + 10)
    else None
  }

  function PercentByte(b: Byte): (r: string)
    ensures |r| == 3 && r[0] == '%'
  {
    ['%', HexDigit(b / 16), HexDigit(b % 16)]
  }

  function PercentBytes(bs: seq<Byte>): (r: string)
    ensures |r| == 3 * |bs|
    ensures forall i :: 0 <= i < |r| ==> IsEncodedChar(r[i])
  {
    if bs == [] then "" else PercentByte(bs[0]) + PercentBytes(bs[1..])
  }

  function EncodeChar(c: char): (r: string)
    ensures |r| >= 1
    ensures forall i :: 0 <= i < |r| ==> IsEncodedChar(r[i])
  {
    if IsUnreserved(c) then [c] else PercentBytes(Utf8(c))
  }

  /** `encodeURIComponent(s)`. */
  function Encode(s: string): (r: string)
    ensures forall i :: 0 <= i < |r| ==> IsEncodedChar(r[i])
    ensures |r| >= |s|
  {
    if s == [] then "" else EncodeChar(s[0]) + Encode(s[1..])
  }

  /** A string of unreserved characters is its own encoding. */
  lemma {:induction false} EncodeUnreserved(s: string)
    requires forall i :: 0 <= i < |s| ==> IsUnreserved(s[i])
    ensures Encode(s) == s
  {
    if s != [] {
      EncodeUnreserved(s[1..]);
      assert s == [s[0]] + s[1..];
    }
  }

  /** An encoded component never contains the URL's own delimiters. */
  lemma EncodedHasNoDelimiters(s: string)
    ensures '&' !in Encode(s) && '=' !in Encode(s) && '?' !in Encode(s) && '#' !in Encode(s) && ' ' !in Encode(s)
  {
    var r := Encode(s);
    forall i | 0 <= i < |r|
      ensures r[i] != '&' && r[i] != '=' && r[i] != '?' && r[i] != '#' && r[i] != ' '
    {
      assert IsEncodedChar(r[i]);
    }
  }

  // ---- decoding ----

  /** The byte written as `%HH` at the start of `s`, if there is one. */
  function ReadByte(s: string): Option<Byte> {
    if |s| >= 3 && s[0] == '%' && HexValue(s[1]).Some? && HexValue(s[2]).Some?
       && HexValue(s[1]).value < 16 && HexValue(s[2]).value < 16
    then Some(16 * HexValue(s[1]).value + HexValue(s[2]).value)
    else None
  }

  /** `n` consecutive `%HH` escapes at the start of `s`. */
  function ReadBytes(s: string, n: nat): Option<seq<Byte>>
    decreases n
  {
    if n == 0 then Some([])
    else match ReadByte(s)
      case None => None
      case Some(b) =>
        match ReadBytes(s[3..], n - 1)
        case None => None
        case Some(rest) => Some([b] + rest)
  }

  /** How many bytes a UTF-8 sequence starting with `b` has; 0 for a byte no sequence starts with. */
  function Utf8Length(b: Byte): nat {
    if b < 0x80 then 1
    else if 0xC0 <= b < 0xE0 then 2
    else if 0xE0 <= b < 0xF0 then 3
    else if 0xF0 <= b < 0xF8 then 4
    else 0
  }

  predicate IsContinuation(b: Byte) {
    0x80 <= b < 0xC0
  }

  /** The scalar value a well-formed, shortest-form UTF-8 sequence stands for. */
  function Utf8Decode(bs: seq<Byte>): Option<char> {
    if |bs| == 1 && bs[0] < 0x80 then
      Some(bs[0] as char)
    else if |bs| == 2 && 0xC0 <= bs[0] < 0xE0 && IsContinuation(bs[1]) then
      var n: int := (bs[0] as int - 0xC0) * 64 + (bs[1] as int - 0x80);
      if n >= 0x80 then Some(n as char) else None
    else if |bs| == 3 && 0xE0 <= bs[0] < 0xF0 && IsContinuation(bs[1]) && IsContinuation(bs[2]) then
      var n: int := ((bs[0] as int - 0xE0) * 64 + (bs[1] as int - 0x80)) * 64 + (bs[2] as int - 0x80);
      if n >= 0x800 && !(0xD800 <= n < 0xE000) then Some(n as char) else None
    else if |bs| == 4 && 0xF0 <= bs[0] < 0xF8 && IsContinuation(bs[1]) && IsContinuation(bs[2]) && IsContinuation(bs[3]) then
      var n: int := (((bs[0] as int - 0xF0) * 64 + (bs[1] as int - 0x80)) * 64 + (bs[2] as int - 0x80)) * 64 + (bs[3] as int - 0x80);
      if 0x10000 <= n < 0x110000 then Some(n as char) else None
    else None
  }

  /** `decodeURIComponent(s)`; `None` where it throws a URIError. */
  function Decode(s: string): Option<string>
    decreases |s|
  {
    if s == [] then Some([])
    else if s[0] != '%' then
      match Decode(s[1..])
      case None => None
      case Some(t) => Some([s[0]] + t)
    else
      match ReadByte(s)
      case None => None
      case Some(b0) =>
        var n := Utf8Length(b0);
        if n == 0 || |s| < 3 * n then None
        else
          match ReadBytes(s, n)
          case None => None
          case Some(bs) =>
            match Utf8Decode(bs)
            case None => None
            case Some(c) =>
              match Decode(s[3 * n..])
              case None => None
              case Some(t) => Some([c] + t)
  }

  // ---- the round trip ----

  lemma HexRoundTrip(d: nat)
    requires d < 16
    ensures HexValue(HexDigit(d)) == Some(d)
  {
  }

  lemma ReadPercentByte(b: Byte, t: string)
    ensures ReadByte(PercentByte(b) + t) == Some(b)
  {
    HexRoundTrip(b / 16);
    HexRoundTrip(b % 16);
  }

  lemma {:induction false} ReadPercentBytes(bs: seq<Byte>, t: string)
    ensures ReadBytes(PercentBytes(bs) + t, |bs|) == Some(bs)
    ensures (PercentBytes(bs) + t)[3 * |bs|..] == t
  {
    if bs != [] {
      var s := PercentBytes(bs) + t;
      assert s == PercentByte(bs[0]) + (PercentBytes(bs[1..]) + t);
      ReadPercentByte(bs[0], PercentBytes(bs[1..]) + t);
      assert s[3..] == PercentBytes(bs[1..]) + t;
      ReadPercentBytes(bs[1..], t);
      assert [bs[0]] + bs[1..] == bs;
    }
  }

  lemma Utf8RoundTrip(c: char)
    ensures Utf8Length(Utf8(c)[0]) == |Utf8(c)|
    ensures Utf8Decode(Utf8(c)) == Some(c)
  {
    var n := c as int;
    if n < 0x80 {
    } else if n < 0x800 {
      assert (n / 64) * 64 + n % 64 == n;
    } else if n < 0x10000 {
      var n1 := n / 64;
      assert n1 * 64 + n % 64 == n;
      assert (n1 / 64) * 64 + n1 % 64 == n1;
      assert n1 / 64 < 16;
    } else {
      var n1 := n / 64;
      var n2 := n1 / 64;
      assert n1 * 64 + n % 64 == n;
      assert n2 * 64 + n1 % 64 == n1;
      assert (n2 / 64) * 64 + n2 % 64 == n2;
      assert n2 / 64 < 8;
    }
  }

  /** An escaped character: its `%HH` escapes read back as its UTF-8 bytes, which decode to it. */
  lemma DecodeEscapedChar(c: char, t: string)
    requires !IsUnreserved(c)
    ensures Decode(EncodeChar(c) + t) == match Decode(t) case None => None case Some(x) => Some([c] + x)
  {
    var bs := Utf8(c);
    var s := PercentBytes(bs) + t;
    assert EncodeChar(c) + t == s;
    assert bs == [bs[0]] + bs[1..];
    assert s == PercentByte(bs[0]) + (PercentBytes(bs[1..]) + t);
    ReadPercentByte(bs[0], PercentBytes(bs[1..]) + t);
    ReadPercentBytes(bs, t);
    Utf8RoundTrip(c);
    DecodeAtEscape(s, bs, c, t);
  }

  /** Where the escapes at the front read as the bytes of `c`, decoding yields `c` and goes on after them. */
  lemma DecodeAtEscape(s: string, bs: seq<Byte>, c: char, t: string)
    requires |bs| >= 1 && Utf8Length(bs[0]) == |bs| && |s| >= 3 * |bs|
    requires s[0] == '%' && ReadByte(s) == Some(bs[0]) && ReadBytes(s, |bs|) == Some(bs)
    requires Utf8Decode(bs) == Some(c) && s[3 * |bs|..] == t
    ensures Decode(s) == match Decode(t) case None => None case Some(x) => Some([c] + x)
  {
  }

  /** Decoding reads one encoded character back and then goes on with the rest. */
  lemma DecodeEncodedChar(c: char, t: string)
    ensures Decode(EncodeChar(c) + t) == match Decode(t) case None => None case Some(x) => Some([c] + x)
  {
    if IsUnreserved(c) {
      var s := EncodeChar(c) + t;
      assert s[0] == c && s[1..] == t;
    } else {
      DecodeEscapedChar(c, t);
    }
  }

  /** `decodeURIComponent(encodeURIComponent(s)) == s`. */
  lemma {:induction false} DecodeEncode(s: string)
    ensures Decode(Encode(s)) == Some(s)
  {
    if s != [] {
      DecodeEncode(s[1..]);
      DecodeEncodedChar(s[0], Encode(s[1..]));
      assert [s[0]] + s[1..] == s;
    }
  }

  /** Distinct strings have distinct encodings. */
  lemma EncodeInjective(a: string, b: string)
    requires Encode(a) == Encode(b)
    ensures a == b
  {
    DecodeEncode(a);
    DecodeEncode(b);
  }
}
