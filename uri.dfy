/** encodeURIComponent and its inverse decodeURIComponent, following the Encode
    and Decode abstract operations of ECMA-262 (section 19.2.6): every character
    outside the unreserved set is written as the UTF-8 octets of its code point,
    each as "%" and two upper-case hexadecimal digits (RFC 3986, section 2.1).
    Characters are Unicode scalar values, so the URIError that Encode raises for
    a lone surrogate cannot arise. */
module Uri {
  import opened Wrappers

  /** The characters encodeURIComponent leaves as they are. */
  predicate IsUnreserved(c: char) {
    ('A' <= c <= 'Z') || ('a' <= c <= 'z') || ('0' <= c <= '9') || c in "-_.!~*'()"
  }

  predicate IsUpperHex(c: char) {
    ('0' <= c <= '9') || ('A' <= c <= 'F')
  }

  /** The value of a hexadecimal digit of either case, as Decode reads it. */
  function HexValue(c: char): (r: Option<nat>)
    ensures r.Some? ==> r.value < 16
  {
    if '0' <= c <= '9' then Some(c as int - '0' as int)
    else if 'A' <= c <= 'F' then Some(c as int - 'A' as int + 10)
    else if 'a' <= c <= 'f' then Some(c as int - 'a' as int + 10)
    else None
  }

  function HexChar(n: nat): (c: char)
    requires n < 16
    ensures IsUpperHex(c) && HexValue(c) == Some(n)
  {
    if n < 10 then ('0' as int + n) as char else ('A' as int + n - 10) as char
  }

  predicate AreOctets(bs: seq<int>) {
    forall i :: 0 <= i < |bs| ==> 0 <= bs[i] < 256
  }

  predicate IsContinuation(b: int) {
    0x80 <= b < 0xC0
  }

  /** The UTF-8 octets of the code point of c. */
  function Utf8(c: char): (bs: seq<int>)
    ensures 1 <= |bs| <= 4 && AreOctets(bs)
  {
    var cp := c as int;
    var q1 := cp / 64;
    var q2 := q1 / 64;
    var q3 := q2 / 64;
    if cp < 0x80 then [cp]
    else if cp < 0x800 then [0xC0 + q1, 0x80 + cp % 64]
    else if cp < 0x10000 then [0xE0 + q2, 0x80 + q1 % 64, 0x80 + cp % 64]
    else [0xF0 + q3, 0x80 + q2 % 64, 0x80 + q1 % 64, 0x80 + cp % 64]
  }

  /** The length of the UTF-8 sequence that lead octet b starts; 0 when b cannot lead one. */
  function Utf8Length(b: int): nat {
    if 0 <= b < 0x80 then 1
    else if 0xC0 <= b < 0xE0 then 2
    else if 0xE0 <= b < 0xF0 then 3
    else if 0xF0 <= b < 0xF8 then 4
    else 0
  }

  /** The character a complete UTF-8 sequence encodes; None for an overlong form,
      a surrogate or a code point above U+10FFFF. */
  function Utf8Decode(bs: seq<int>): Option<char> {
    if |bs| == 1 && 0 <= bs[0] < 0x80 then
      Some(bs[0] as char)
    else if |bs| == 2 && 0xC0 <= bs[0] < 0xE0 && IsContinuation(bs[1]) then
      var cp := (bs[0] - 0xC0) * 64 + (bs[1] - 0x80);
      if cp >= 0x80 then Some(cp as char) else None
    else if |bs| == 3 && 0xE0 <= bs[0] < 0xF0 && IsContinuation(bs[1]) && IsContinuation(bs[2]) then
      var cp := ((bs[0] - 0xE0) * 64 + (bs[1] - 0x80)) * 64 + (bs[2] - 0x80);
      if cp >= 0x800 && !(0xD800 <= cp < 0xE000) then Some(cp as char) else None
    else if |bs| == 4 && 0xF0 <= bs[0] < 0xF8 && IsContinuation(bs[1]) && IsContinuation(bs[2])
      && IsContinuation(bs[3]) then
      var cp := (((bs[0] - 0xF0) * 64 + (bs[1] - 0x80)) * 64 + (bs[2] - 0x80)) * 64 + (bs[3] - 0x80);
      if 0x10000 <= cp < 0x110000 then Some(cp as char) else None
    else
      None
  }

  lemma Utf8RoundTrip(c: char)
    ensures Utf8Length(Utf8(c)[0]) == |Utf8(c)|
    ensures Utf8Decode(Utf8(c)) == Some(c)
  {
    var cp := c as int;
    var q1 := cp / 64;
    var q2 := q1 / 64;
    var q3 := q2 / 64;
    assert cp == q1 * 64 + cp % 64;
    assert q1 == q2 * 64 + q1 % 64;
    assert q2 == q3 * 64 + q2 % 64;
  }

  function Escape(b: int): (r: string)
    requires 0 <= b < 256
    ensures |r| == 3
  {
    ['%', HexChar(b / 16), HexChar(b % 16)]
  }

  function Escapes(bs: seq<int>): (r: string)
    requires AreOctets(bs)
    ensures |r| == 3 * |bs|
    ensures forall i :: 0 <= i < |r| ==> r[i] == '%' || IsUpperHex(r[i])
  {
    if bs == [] then [] else Escape(bs[0]) + Escapes(bs[1..])
  }

  function EncodeChar(c: char): (r: string)
    ensures forall i :: 0 <= i < |r| ==> IsUnreserved(r[i]) || r[i] == '%' || IsUpperHex(r[i])
  {
    if IsUnreserved(c) then [c] else Escapes(Utf8(c))
  }

  /** encodeURIComponent: only unreserved characters, "%" and upper-case hexadecimal
      digits survive into the result. */
  function EncodeURIComponent(s: string): (r: string)
    ensures forall i :: 0 <= i < |r| ==> IsUnreserved(r[i]) || r[i] == '%' || IsUpperHex(r[i])
  {
    if s == [] then [] else EncodeChar(s[0]) + EncodeURIComponent(s[1..])
  }

  /** Reads count consecutive "%XY" escapes from the front of t. */
  function ReadEscapes(t: string, count: nat): (r: Option<(seq<int>, string)>)
    ensures r.Some? ==> |r.value.0| == count && |r.value.1| == |t| - 3 * count
    ensures r.Some? ==> AreOctets(r.value.0)
    decreases count
  {
    if count == 0 then
      Some(([], t))
    else if |t| >= 3 && t[0] == '%' && HexValue(t[1]).Some? && HexValue(t[2]).Some? then
      match ReadEscapes(t[3..], count - 1)
      case None => None
      case Some(more) => Some(([HexValue(t[1]).value * 16 + HexValue(t[2]).value] + more.0, more.1))
    else
      None
  }

  function Prepend(c: char, r: Option<string>): Option<string> {
    match r
    case None => None
    case Some(s) => Some([c] + s)
  }

  /** decodeURIComponent: None where it throws URIError. */
  function DecodeURIComponent(t: string): Option<string>
    decreases |t|
  {
    if t == [] then
      Some([])
    else if t[0] != '%' then
      Prepend(t[0], DecodeURIComponent(t[1..]))
    else
      match ReadEscapes(t, 1)
      case None => None
      case Some(lead) =>
        var n := Utf8Length(lead.0[0]);
        if n == 0 then None
        else
          match ReadEscapes(t, n)
          case None => None
          case Some(group) =>
            match Utf8Decode(group.0)
            case None => None
            case Some(c) => Prepend(c, DecodeURIComponent(group.1))
  }

  lemma {:induction false} ReadEscapesOf(bs: seq<int>, rest: string, count: nat)
    requires AreOctets(bs) && 1 <= count <= |bs|
    ensures ReadEscapes(Escapes(bs) + rest, count) == Some((bs[..count], Escapes(bs[count..]) + rest))
  {
    var t := Escapes(bs) + rest;
    var b := bs[0];
    assert t[..3] == Escape(b);
    assert 16 * (b / 16) + b % 16 == b;
    assert HexValue(t[1]) == Some(b / 16) && HexValue(t[2]) == Some(b % 16);
    assert t[3..] == Escapes(bs[1..]) + rest;
    if count > 1 {
      ReadEscapesOf(bs[1..], rest, count - 1);
      assert bs[1..][count - 1..] == bs[count..];
      assert [b] + bs[1..][..count - 1] == bs[..count];
    } else {
      assert ReadEscapes(t[3..], 0) == Some(([], t[3..]));
      assert [b] + [] == bs[..1];
    }
  }

  /** A group of escapes holding the UTF-8 form of c decodes to c. */
  lemma {:induction false} DecodeEscapes(bs: seq<int>, c: char, rest: string)
    requires AreOctets(bs) && 1 <= |bs| && Utf8Length(bs[0]) == |bs| && Utf8Decode(bs) == Some(c)
    ensures DecodeURIComponent(Escapes(bs) + rest) == Prepend(c, DecodeURIComponent(rest))
  {
    var t := Escapes(bs) + rest;
    ReadEscapesOf(bs, rest, 1);
    ReadEscapesOf(bs, rest, |bs|);
    assert bs[..|bs|] == bs && bs[|bs|..] == [];
    assert Escapes(bs[|bs|..]) + rest == rest;
    assert t[0] == '%';
  }

  lemma {:induction false} DecodeEncodeChar(c: char, rest: string)
    ensures DecodeURIComponent(EncodeChar(c) + rest) == Prepend(c, DecodeURIComponent(rest))
  {
    if IsUnreserved(c) {
      assert ([c] + rest)[1..] == rest;
    } else {
      Utf8RoundTrip(c);
      DecodeEscapes(Utf8(c), c, rest);
    }
  }

  /** decodeURIComponent undoes encodeURIComponent. */
  lemma {:induction false} DecodeEncode(s: string)
    ensures DecodeURIComponent(EncodeURIComponent(s)) == Some(s)
  {
    if s != [] {
      DecodeEncode(s[1..]);
      DecodeEncodeChar(s[0], EncodeURIComponent(s[1..]));
      assert [s[0]] + s[1..] == s;
    }
  }

  /** The encoding never contains a character that delimits a query string, a
      parameter or a fragment, nor "+" or a space. */
  lemma EncodedHasNoDelimiters(s: string)
    ensures forall i :: 0 <= i < |EncodeURIComponent(s)| ==> EncodeURIComponent(s)[i] !in "&=#?+ "
  {
  }
}
