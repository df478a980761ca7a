/** The pieces of JavaScript semantics the client code relies on: the values it
    reads from a JSON body, their truthiness (ToBoolean), their conversion to text
    in a template literal (ToString), String.prototype.trim, padStart and the
    remainder operator. */
module Js {
  import opened Text

  /** A property value read from parsed JSON; Undefined stands for a missing property.
      JSON numbers are modelled as integers. */
  datatype JsVal = Undefined | Null | Bool(b: bool) | Num(n: int) | Str(s: string)

  /** ToBoolean: undefined, null, false, 0 and "" are falsy. */
  predicate Truthy(v: JsVal) {
    match v
    case Undefined => false
    case Null => false
    case Bool(b) => b
    case Num(n) => n != 0
    case Str(s) => s != []
  }

  /** ToString, as `${v}` and `new Error(v)` apply it to v. */
  function ToText(v: JsVal): (r: string)
    ensures Truthy(v) ==> r != []
  {
    match v
    case Undefined => "undefined"
    case Null => "null"
    case Bool(b) => if b then "true" else "false"
    case Num(n) => IntToString(n)
    case Str(s) => s
  }

  /** `a || b` */
  function Or(a: JsVal, b: JsVal): JsVal {
    if Truthy(a) then a else b
  }

  /** What the textContent setter stores: null and undefined become the empty text. */
  function TextContent(v: JsVal): string {
    if v == Null || v == Undefined then "" else ToText(v)
  }

  /** `a % b` for b > 0: the remainder takes the sign of the dividend. With the
      bounds, differing from a by a multiple of b pins it down to the truncating
      remainder. */
  function Rem(a: int, b: int): (r: int)
    requires b > 0
    ensures -b < r < b
    ensures a >= 0 ==> r >= 0
    ensures a < 0 ==> r <= 0
    ensures (a - r) % b == 0
  {
    if a >= 0 then
      ModOfMultiple(b, a / b);
      a % b
    else
      ModOfMultiple(b, -((-a) / b));
      assert a + (-a) % b == b * -((-a) / b);
      -((-a) % b)
  }

  /** A multiple of b leaves no remainder. */
  lemma ModOfMultiple(b: int, q: int)
    requires b > 0
    ensures (b * q) % b == 0
  {
    var d := (b * q) / b;
    assert b * (q - d) == (b * q) % b;
    if q - d >= 1 {
      assert false;
    } else if q - d <= -1 {
      assert false;
    }
  }

  /** WhiteSpace and LineTerminator code points of ECMA-262, which trim removes. */
  predicate IsWhitespace(c: char) {
    c == '\t' || c == '\n' || c == '\r' || c == ' '
    || c as int == 0x0B || c as int == 0x0C || c as int == 0xA0 || c as int == 0x1680
    || (0x2000 <= c as int <= 0x200A)
    || c as int == 0x2028 || c as int == 0x2029 || c as int == 0x202F
    || c as int == 0x205F || c as int == 0x3000 || c as int == 0xFEFF
  }

  predicate AllWhitespace(s: string) {
    forall i :: 0 <= i < |s| ==> IsWhitespace(s[i])
  }

  /** s without its leading white space. */
  function TrimStart(s: string): (r: string)
    ensures |r| <= |s| && r == s[|s| - |r|..]
    ensures AllWhitespace(s[..|s| - |r|])
    ensures r != [] ==> !IsWhitespace(r[0])
    decreases |s|
  {
    if s != [] && IsWhitespace(s[0]) then
      var r := TrimStart(s[1..]);
      assert s[..|s| - |r|] == [s[0]] + s[1..][..|s| - 1 - |r|];
      r
    else
      s
  }

  /** s without its trailing white space. */
  function TrimEnd(s: string): (r: string)
    ensures |r| <= |s| && r == s[..|r|]
    ensures AllWhitespace(s[|r|..])
    ensures r != [] ==> !IsWhitespace(r[|r| - 1])
    decreases |s|
  {
    if s != [] && IsWhitespace(s[|s| - 1]) then
      var r := TrimEnd(s[..|s| - 1]);
      assert s[|r|..] == s[..|s| - 1][|r|..] + [s[|s| - 1]];
      r
    else
      s
  }

  /** String.prototype.trim: s with white space removed from both ends only. The
      result is empty exactly when s is all white space, and otherwise begins and
      ends with a character that is not white space. */
  function Trim(s: string): (r: string)
    ensures r == [] <==> AllWhitespace(s)
    ensures r != [] ==> !IsWhitespace(r[0]) && !IsWhitespace(r[|r| - 1])
  {
    var t := TrimStart(s);
    var r := TrimEnd(t);

    assert t == [] ==> s == s[..|s| - |t|];
    assert t != [] ==> !AllWhitespace(s) by {
      if t != [] {
        assert s[|s| - |t|] == t[0];
      }
    }
    r
  }

  /** trim removes white space from the two ends and nothing else: the result is
      a contiguous part of s with only white space before and after it. */
  lemma TrimIsInfix(s: string)
    ensures exists i, j :: 0 <= i <= j <= |s| && Trim(s) == s[i..j] && AllWhitespace(s[..i]) && AllWhitespace(s[j..])
  {
    var t := TrimStart(s);
    var r := TrimEnd(t);
    var i := |s| - |t|;
    var j := i + |r|;
    assert Trim(s) == r;
    assert t == s[i..];
    assert r == s[i..j] && AllWhitespace(s[..i]) by {
      assert r == t[..|r|];
    }
    assert AllWhitespace(s[j..]) by {
      assert t[|r|..] == s[j..];
    }
  }

  /** Removing (only leading and trailing) white space a second time changes nothing. */
  lemma TrimIdempotent(s: string)
    ensures Trim(Trim(s)) == Trim(s)
  {
    var r := Trim(s);
    if r != [] {
      assert TrimStart(r) == r;
      assert TrimEnd(r) == r;
    }
  }

  function Repeat(c: char, n: nat): (r: string)
    ensures |r| == n && forall i :: 0 <= i < n ==> r[i] == c
  {
    if n == 0 then [] else [c] + Repeat(c, n - 1)
  }

  /** String.prototype.padStart with a one-character fill string. */
  function PadStart(s: string, width: nat, fill: char): (r: string)
    ensures |s| >= width ==> r == s
    ensures |s| < width ==> |r| == width
    ensures r[|r| - |s|..] == s
    ensures forall i :: 0 <= i < |r| - |s| ==> r[i] == fill
  {
    if |s| >= width then s else Repeat(fill, width - |s|) + s
  }
}
