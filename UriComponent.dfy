/**
 * ECMAScript's `decodeURIComponent` (the abstract operation Decode of ECMA-262,
 * section 19.2.6, with an empty reserved set): every `%HH` escape is a byte,
 * a run of escapes must spell one code point in well-formed UTF-8 (Unicode,
 * table 3-7), anything else throws a URIError. Percent-encoding itself is the
 * one of section 2.1 of RFC 3986.
 *
 * The queue consumer decodes an S3 object key by first turning every `+` into a
 * space (`DecodeKey`). Its partner is `FormUrlEncode`, the
 * application/x-www-form-urlencoded serialisation the storage service applies to
 * keys in event notifications: the round trip `DecodeKey(FormUrlEncode(k)) == Ok(k)`
 * is proved for every key.
 */
module UriComponent {
  import opened Wrappers

  datatype UriError = URIError

  predicate IsHex(c: char) {
    '0' <= c <= '9' || 'a' <= c <= 'f' || 'A' <= c <= 'F'
  }

  function HexValue(c: char): (v: nat)
    requires IsHex(c)
    ensures v < 16
  {
    if '0' <= c <= '9' then c as int - '0' as int
    else if 'a' <= c <= 'f' then c as int - 'a' as int + 10
    else c as int - 'A' as int + 10
  }

  /** Upper-case hexadecimal digit, as percent-encoders emit. */
  function HexDigit(v: nat): (c: char)
    requires v < 16
    ensures IsHex(c) && HexValue(c) == v
    ensures c != '%' && c != '+'
  {
    if v < 10 then ('0' as int + v) as char else ('A' as int + v - 10) as char
  }

  /** The byte written as `%HH` at index k of s, if an escape stands there. */
  function EscapedByte(s: string, k: nat): (r: Option<nat>)
    ensures r.Some? <==> k + 3 <= |s| && s[k] == '%' && IsHex(s[k + 1]) && IsHex(s[k + 2])
    ensures r.Some? ==> r.value < 256 && r.value == 16 * HexValue(s[k + 1]) + HexValue(s[k + 2])
  {
    if k + 3 <= |s| && s[k] == '%' && IsHex(s[k + 1]) && IsHex(s[k + 2])
    then Some(16 * HexValue(s[k + 1]) + HexValue(s[k + 2]))
    else None
  }

  /** The number of leading 1 bits of a byte; 5 stands for "more than four". */
  function LeadingOnes(b: nat): (n: nat)
    requires b < 256
    ensures n <= 5
  {
    if b < 0x80 then 0
    else if b < 0xC0 then 1
    else if b < 0xE0 then 2
    else if b < 0xF0 then 3
    else if b < 0xF8 then 4
    else 5
  }

  predicate IsContinuation(b: nat) {
    0x80 <= b < 0xC0
  }

  predicate IsScalar(cp: int) {
    0 <= cp < 0xD800 || 0xE000 <= cp < 0x11_0000
  }

  /**
   * The code point that a multi-byte UTF-8 sequence encodes, or None when the
   * sequence is not well formed: a continuation byte out of place, an overlong
   * form, a surrogate or a value above U+10FFFF.
   */
  function Utf8Decode(octets: seq<nat>): (r: Option<char>)
    requires 2 <= |octets| <= 4
    requires forall i :: 0 <= i < |octets| ==> octets[i] < 256
    requires LeadingOnes(octets[0]) == |octets|
  {
    if exists i :: 1 <= i < |octets| && !IsContinuation(octets[i]) then None
    else if |octets| == 2 then
      var cp := (octets[0] - 0xC0) * 64 + (octets[1] - 0x80);
      if 0x80 <= cp then Some(cp as char) else None
    else if |octets| == 3 then
      var cp := (octets[0] - 0xE0) * 4096 + (octets[1] - 0x80) * 64 + (octets[2] - 0x80);
      if 0x800 <= cp && IsScalar(cp) then Some(cp as char) else None
    else
      var cp := (octets[0] - 0xF0) * 262144 + (octets[1] - 0x80) * 4096
              + (octets[2] - 0x80) * 64 + (octets[3] - 0x80);
      if 0x1_0000 <= cp < 0x11_0000 then Some(cp as char) else None
  }

  /** The bytes of `count` consecutive escapes starting at index k. */
  function EscapedBytes(s: string, k: nat, count: nat): (r: Option<seq<nat>>)
    ensures r.Some? ==> |r.value| == count && (count > 0 ==> k + 3 * count <= |s|)
    ensures r.Some? ==> forall i :: 0 <= i < count ==> r.value[i] < 256
    decreases count
  {
    if count == 0 then Some([])
    else match EscapedByte(s, k)
      case None => None
      case Some(b) =>
        match EscapedBytes(s, k + 3, count - 1)
        case None => None
        case Some(bs) => Some([b] + bs)
  }

  /**
   * Decodes the escape run at the start of s (which begins with '%'): the character
   * it stands for and the number of characters it spans.
   */
  function DecodeEscape(s: string): (r: Option<(char, nat)>)
    requires |s| > 0 && s[0] == '%'
    ensures r.Some? ==> 3 <= r.value.1 <= |s| && r.value.1 % 3 == 0
  {
    match EscapedByte(s, 0)
    case None => None
    case Some(b) =>
      var n := LeadingOnes(b);
      if n == 0 then Some((b as char, 3))
      else if n == 1 || n > 4 then None
      else
        match EscapedBytes(s, 0, n)
        case None => None
        case Some(octets) =>
          assert octets[0] == b;
          match Utf8Decode(octets)
          case None => None
          case Some(c) => Some((c, 3 * n))
  }

  function Prepend(c: char, r: Result<string, UriError>): Result<string, UriError> {
    match r
    case Ok(t) => Ok([c] + t)
    case Err(e) => Err(e)
  }

  /** `decodeURIComponent(s)`: Ok with the decoded text, or Err when it throws URIError. */
  function DecodeComponent(s: string): Result<string, UriError>
    decreases |s|
  {
    if s == [] then Ok("")
    else if s[0] != '%' then Prepend(s[0], DecodeComponent(s[1..]))
    else
      match DecodeEscape(s)
      case None => Err(URIError)
      case Some(d) => Prepend(d.0, DecodeComponent(s[d.1..]))
  }

  /** `key.replace(/\+/g, " ")` */
  function ReplacePlus(key: string): (r: string)
    ensures |r| == |key|
    ensures forall i :: 0 <= i < |key| ==> r[i] == if key[i] == '+' then ' ' else key[i]
  {
    seq(|key|, i requires 0 <= i < |key| => if key[i] == '+' then ' ' else key[i])
  }

  /** The key decoding of the queue consumer: `decodeURIComponent(key.replace(/\+/g, " "))`. */
  function DecodeKey(key: string): Result<string, UriError> {
    DecodeComponent(ReplacePlus(key))
  }

  // ----- the encoder: the partner of DecodeKey -----

  /** Characters the form encoding leaves as they are (ASCII letters, digits and `*-._`). */
  predicate Unreserved(c: char) {
    'a' <= c <= 'z' || 'A' <= c <= 'Z' || '0' <= c <= '9' || c == '*' || c == '-' || c == '.' || c == '_'
  }

  /** The UTF-8 encoding of one code point. */
  function Utf8Encode(c: char): (bs: seq<nat>)
    ensures 1 <= |bs| <= 4
    ensures forall i :: 0 <= i < |bs| ==> bs[i] < 256
  {
    // six bits at a time, from the low end
    var cp := c as int;
    var a := cp / 64;
    var b := a / 64;
    if cp < 0x80 then [cp]
    else if cp < 0x800 then [0xC0 + a, 0x80 + cp % 64]
    else if cp < 0x1_0000 then [0xE0 + b, 0x80 + a % 64, 0x80 + cp % 64]
    else [0xF0 + b / 64, 0x80 + b % 64, 0x80 + a % 64, 0x80 + cp % 64]
  }

  function PercentEncodeBytes(bs: seq<nat>): (s: string)
    requires forall i :: 0 <= i < |bs| ==> bs[i] < 256
    ensures |s| == 3 * |bs|
    decreases |bs|
  {
    if bs == [] then ""
    else ['%', HexDigit(bs[0] / 16), HexDigit(bs[0] % 16)] + PercentEncodeBytes(bs[1..])
  }

  function EncodeChar(c: char): string {
    if c == ' ' then "+"
    else if Unreserved(c) then [c]
    else PercentEncodeBytes(Utf8Encode(c))
  }

  /** How the storage service writes a key into an event notification. */
  function FormUrlEncode(key: string): string
    decreases |key|
  {
    if key == [] then "" else EncodeChar(key[0]) + FormUrlEncode(key[1..])
  }

  // ----- the round trip -----

  lemma ReplacePlusAppend(a: string, b: string)
    ensures ReplacePlus(a + b) == ReplacePlus(a) + ReplacePlus(b)
  {
  }

  /** The escapes PercentEncodeBytes writes read back, byte by byte. */
  lemma {:induction false} EscapedByteOfEncoding(bs: seq<nat>, t: string, j: nat)
    requires forall i :: 0 <= i < |bs| ==> bs[i] < 256
    requires j < |bs|
    ensures EscapedByte(PercentEncodeBytes(bs) + t, 3 * j) == Some(bs[j])
    decreases j
  {
    var s := PercentEncodeBytes(bs) + t;
    var rest := PercentEncodeBytes(bs[1..]) + t;
    assert s == ['%', HexDigit(bs[0] / 16), HexDigit(bs[0] % 16)] + rest;
    if j == 0 {
      assert s[0] == '%' && s[1] == HexDigit(bs[0] / 16) && s[2] == HexDigit(bs[0] % 16);
    } else {
      var k := 3 * (j - 1);
      EscapedByteOfEncoding(bs[1..], t, j - 1);
      assert 3 * j == k + 3;
      EscapedByteShift(['%', HexDigit(bs[0] / 16), HexDigit(bs[0] % 16)], rest, k);
    }
  }

  /** An escape read past a three-character prefix is the one read in what follows it. */
  lemma EscapedByteShift(pre: string, rest: string, k: nat)
    requires |pre| == 3
    ensures EscapedByte(pre + rest, k + 3) == EscapedByte(rest, k)
  {
    var s := pre + rest;
    if k + 3 <= |rest| {
      assert s[k + 3] == rest[k] && s[k + 4] == rest[k + 1] && s[k + 5] == rest[k + 2];
    }
  }

  lemma {:induction false} EscapedBytesOfEncoding(bs: seq<nat>, t: string, k: nat)
    requires forall i :: 0 <= i < |bs| ==> bs[i] < 256
    requires k <= |bs|
    ensures EscapedBytes(PercentEncodeBytes(bs) + t, 3 * (|bs| - k), k) == Some(bs[|bs| - k..])
    decreases k
  {
    var s := PercentEncodeBytes(bs) + t;
    if k > 0 {
      var j := |bs| - k;
      EscapedByteOfEncoding(bs, t, j);
      EscapedBytesOfEncoding(bs, t, k - 1);
      assert 3 * j + 3 == 3 * (|bs| - (k - 1));
      assert EscapedBytes(s, 3 * j + 3, k - 1) == Some(bs[j + 1..]);
      assert EscapedBytes(s, 3 * j, k) == Some([bs[j]] + bs[j + 1..]);
      assert bs[j..] == [bs[j]] + bs[j + 1..];
    } else {
      assert bs[|bs|..] == [];
    }
  }

  lemma Utf8RoundTrip(c: char)
    requires c as int >= 0x80
    ensures var bs := Utf8Encode(c);
      2 <= |bs| && LeadingOnes(bs[0]) == |bs| && Utf8Decode(bs) == Some(c)
  {
    var cp := c as int;
    var a, r := cp / 64, cp % 64;
    var b, m := a / 64, a % 64;
    var d, n := b / 64, b % 64;
    assert cp == 64 * a + r && 0 <= r < 64;
    assert a == 64 * b + m && 0 <= m < 64;
    assert b == 64 * d + n && 0 <= n < 64;
    var bs := Utf8Encode(c);
    if cp < 0x800 {
      assert bs == [0xC0 + a, 0x80 + r];
      Utf8Decode2(bs, cp);
    } else if cp < 0x1_0000 {
      assert bs == [0xE0 + b, 0x80 + m, 0x80 + r];
      Utf8Decode3(bs, cp);
    } else {
      assert bs == [0xF0 + d, 0x80 + n, 0x80 + m, 0x80 + r];
      Utf8Decode4(bs, cp);
    }
  }

  lemma Utf8Decode2(bs: seq<nat>, cp: int)
    requires |bs| == 2 && 0xC0 <= bs[0] < 0xE0 && IsContinuation(bs[1])
    requires cp == (bs[0] - 0xC0) * 64 + (bs[1] - 0x80) && 0x80 <= cp
    ensures LeadingOnes(bs[0]) == 2 && Utf8Decode(bs) == Some(cp as char)
  {
  }

  lemma Utf8Decode3(bs: seq<nat>, cp: int)
    requires |bs| == 3 && 0xE0 <= bs[0] < 0xF0 && IsContinuation(bs[1]) && IsContinuation(bs[2])
    requires cp == (bs[0] - 0xE0) * 4096 + (bs[1] - 0x80) * 64 + (bs[2] - 0x80)
    requires 0x800 <= cp && IsScalar(cp)
    ensures LeadingOnes(bs[0]) == 3 && Utf8Decode(bs) == Some(cp as char)
  {
  }

  lemma Utf8Decode4(bs: seq<nat>, cp: int)
    requires |bs| == 4 && 0xF0 <= bs[0] < 0xF8
    requires IsContinuation(bs[1]) && IsContinuation(bs[2]) && IsContinuation(bs[3])
    requires cp == (bs[0] - 0xF0) * 262144 + (bs[1] - 0x80) * 4096 + (bs[2] - 0x80) * 64 + (bs[3] - 0x80)
    requires 0x1_0000 <= cp < 0x11_0000
    ensures LeadingOnes(bs[0]) == 4 && Utf8Decode(bs) == Some(cp as char)
  {
  }

  /** The escape run of one percent-encoded character decodes to that character. */
  lemma DecodeEscapeOfEncoding(c: char, t: string)
    requires !Unreserved(c) && c != ' '
    ensures var e := PercentEncodeBytes(Utf8Encode(c));
      |e| > 0 && e[0] == '%' && DecodeEscape(e + t) == Some((c, |e|))
  {
    var bs := Utf8Encode(c);
    var s := PercentEncodeBytes(bs) + t;
    EscapedByteOfEncoding(bs, t, 0);
    if c as int >= 0x80 {
      Utf8RoundTrip(c);
      EscapedBytesOfEncoding(bs, t, |bs|);
      assert bs[0..] == bs;
    }
  }

  /** What an encoded character looks like once `+` has been turned back into a space. */
  function Unit(c: char): string {
    if c == ' ' then " "
    else if Unreserved(c) then [c]
    else PercentEncodeBytes(Utf8Encode(c))
  }

  lemma {:induction false} NoPlusInEscapes(bs: seq<nat>)
    requires forall i :: 0 <= i < |bs| ==> bs[i] < 256
    ensures ReplacePlus(PercentEncodeBytes(bs)) == PercentEncodeBytes(bs)
    decreases |bs|
  {
    if bs != [] {
      NoPlusInEscapes(bs[1..]);
      var head: string := ['%', HexDigit(bs[0] / 16), HexDigit(bs[0] % 16)];
      ReplacePlusAppend(head, PercentEncodeBytes(bs[1..]));
      assert ReplacePlus(head) == head;
    }
  }

  lemma ReplacePlusEncodeChar(c: char)
    ensures ReplacePlus(EncodeChar(c)) == Unit(c)
  {
    if c != ' ' && !Unreserved(c) {
      NoPlusInEscapes(Utf8Encode(c));
    }
  }

  lemma DecodeUnit(c: char, t: string)
    ensures DecodeComponent(Unit(c) + t) == Prepend(c, DecodeComponent(t))
  {
    var s := Unit(c) + t;
    if c == ' ' || Unreserved(c) {
      assert s[0] == c && s[1..] == t;
    } else {
      DecodeEscapeOfEncoding(c, t);
      var e := Unit(c);
      assert s[|e|..] == t;
    }
  }

  /** Every key the storage service can write is decoded back to itself. */
  lemma {:induction false} DecodeKeyRoundTrip(key: string)
    ensures DecodeKey(FormUrlEncode(key)) == Ok(key)
    decreases |key|
  {
    if key != [] {
      var c, rest := key[0], key[1..];
      ReplacePlusAppend(EncodeChar(c), FormUrlEncode(rest));
      ReplacePlusEncodeChar(c);
      DecodeUnit(c, ReplacePlus(FormUrlEncode(rest)));
      DecodeKeyRoundTrip(rest);
      assert [c] + rest == key;
    }
  }

  // ----- further properties of the decoder -----

  /** A text without escapes decodes to itself. */
  lemma {:induction false} DecodeWithoutEscapes(s: string)
    requires forall i :: 0 <= i < |s| ==> s[i] != '%'
    ensures DecodeComponent(s) == Ok(s)
    decreases |s|
  {
    if s != [] {
      DecodeWithoutEscapes(s[1..]);
      assert [s[0]] + s[1..] == s;
    }
  }

  /** A '%' that does not start two hexadecimal digits makes the whole decode throw. */
  lemma {:induction false} MalformedEscapeThrows(prefix: string, rest: string)
    requires forall i :: 0 <= i < |prefix| ==> prefix[i] != '%'
    requires |rest| < 2 || !IsHex(rest[0]) || !IsHex(rest[1])
    ensures DecodeComponent(prefix + "%" + rest) == Err(URIError)
    decreases |prefix|
  {
    var s := prefix + "%" + rest;
    if prefix != [] {
      assert s[1..] == prefix[1..] + "%" + rest;
      MalformedEscapeThrows(prefix[1..], rest);
    } else {
      assert s == "%" + rest;
      assert EscapedByte(s, 0).None?;
    }
  }

  /** The example of the consumer's key decoding: `a+b%2Bc` is the key `a b+c`. */
  lemma DecodeKeyExample()
    ensures DecodeKey("a+b%2Bc") == Ok("a b+c")
  {
    var s := ReplacePlus("a+b%2Bc");
    assert s == "a b%2Bc";
    assert EscapedByte("%2Bc", 0) == Some(0x2B);
    assert DecodeEscape("%2Bc") == Some(('+', 3));
    assert "%2Bc"[3..] == "c";
    assert "c"[1..] == "";
    assert DecodeComponent("") == Ok("");
    assert ['c'] + "" == "c";
    assert DecodeComponent("c") == Ok("c");
    assert ['+'] + "c" == "+c";
    assert DecodeComponent("%2Bc") == Ok("+c");
    assert s[3..] == "%2Bc";
    assert DecodeComponent(s[3..]) == Ok("+c");
    assert s[2..] == "b%2Bc" && s[2..][1..] == s[3..];
    assert ['b'] + "+c" == "b+c";
    assert DecodeComponent(s[2..]) == Ok("b+c");
    assert s[1..] == " b%2Bc" && s[1..][1..] == s[2..];
    assert [' '] + "b+c" == " b+c";
    assert DecodeComponent(s[1..]) == Ok(" b+c");
    assert ['a'] + " b+c" == "a b+c";
  }

  /** Overlong forms, encoded surrogates and truncated runs are rejected. */
  lemma IllFormedUtf8Throws()
    ensures DecodeComponent("%C0%80") == Err(URIError)
    ensures DecodeComponent("%ED%A0%80") == Err(URIError)
    ensures DecodeComponent("%C3") == Err(URIError)
    ensures DecodeComponent("%80") == Err(URIError)
  {
    assert EscapedByte("%C0%80", 0) == Some(0xC0);
    assert EscapedByte("%C0%80", 3) == Some(0x80);
    assert EscapedBytes("%C0%80", 6, 0) == Some([]);
    assert [0x80] + [] == [0x80];
    assert EscapedBytes("%C0%80", 3, 1) == Some([0x80]);
    assert [0xC0] + [0x80] == [0xC0, 0x80];
    assert EscapedBytes("%C0%80", 0, 2) == Some([0xC0, 0x80]);
    assert EscapedByte("%ED%A0%80", 0) == Some(0xED);
    assert EscapedByte("%ED%A0%80", 3) == Some(0xA0);
    assert EscapedByte("%ED%A0%80", 6) == Some(0x80);
    assert EscapedBytes("%ED%A0%80", 9, 0) == Some([]);
    assert EscapedBytes("%ED%A0%80", 6, 1) == Some([0x80]);
    assert [0xA0] + [0x80] == [0xA0, 0x80];
    assert EscapedBytes("%ED%A0%80", 3, 2) == Some([0xA0, 0x80]);
    assert [0xED] + [0xA0, 0x80] == [0xED, 0xA0, 0x80];
    assert EscapedBytes("%ED%A0%80", 0, 3) == Some([0xED, 0xA0, 0x80]);
    assert EscapedByte("%C3", 3).None?;
    assert EscapedBytes("%C3", 3, 1).None?;
    assert LeadingOnes(0x80) == 1;
  }
}
