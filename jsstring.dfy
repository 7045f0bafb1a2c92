/** The few JavaScript string operations the handlers rely on. */
module JsString {
  import opened Wrappers
  import Arith


  /** ECMAScript WhiteSpace and LineTerminator code points: what
      `String.prototype.trim` removes. */
  predicate IsWhiteSpace(c: char) {
    c == '\t' || c == '\n' || c == '\U{000B}' || c == '\U{000C}' || c == '\r' || c == ' ' ||
    c == '\U{00A0}' || c == '\U{1680}' || ('\U{2000}' <= c <= '\U{200A}') ||
    c == '\U{2028}' || c == '\U{2029}' || c == '\U{202F}' || c == '\U{205F}' ||
    c == '\U{3000}' || c == '\U{FEFF}'
  }

  function TrimStart(s: string): (r: string)
    ensures |r| <= |s| && r == s[|s| - |r|..]
    ensures forall k :: 0 <= k < |s| - |r| ==> IsWhiteSpace(s[k])
    ensures r != [] ==> !IsWhiteSpace(r[0])
  {
    if s != [] && IsWhiteSpace(s[0]) then TrimStart(s[1..]) else s
  }

  function TrimEnd(s: string): (r: string)
    ensures |r| <= |s| && r == s[..|r|]
    ensures forall k :: |r| <= k < |s| ==> IsWhiteSpace(s[k])
    ensures r != [] ==> !IsWhiteSpace(r[|r| - 1])
  {
    if s != [] && IsWhiteSpace(s[|s| - 1]) then TrimEnd(s[..|s| - 1]) else s
  }

  /** `s.trim()`: `s` without its leading and trailing white space. */
  function Trim(s: string): (r: string)
    ensures |s| - |TrimStart(s)| + |r| <= |s|
    ensures r == s[|s| - |TrimStart(s)|..|s| - |TrimStart(s)| + |r|]
    ensures forall k :: 0 <= k < |s| - |TrimStart(s)| ==> IsWhiteSpace(s[k])
    ensures forall k :: |s| - |TrimStart(s)| + |r| <= k < |s| ==> IsWhiteSpace(s[k])
    ensures r != [] ==> !IsWhiteSpace(r[0]) && !IsWhiteSpace(r[|r| - 1])
  {
    var t := TrimStart(s);
    var r := TrimEnd(t);
    TrimParts(s, t, r);
    r
  }

  /** What trimming the front and then the back leaves of `s`. */
  lemma TrimParts(s: string, t: string, r: string)
    requires |t| <= |s| && t == s[|s| - |t|..]
    requires forall k :: 0 <= k < |s| - |t| ==> IsWhiteSpace(s[k])
    requires |r| <= |t| && r == t[..|r|]
    requires forall k :: |r| <= k < |t| ==> IsWhiteSpace(t[k])
    ensures |s| - |t| + |r| <= |s|
    ensures r == s[|s| - |t|..|s| - |t| + |r|]
    ensures forall k :: |s| - |t| + |r| <= k < |s| ==> IsWhiteSpace(s[k])
  {
    var i := |s| - |t|;
    forall k | i + |r| <= k < |s| ensures IsWhiteSpace(s[k]) {
      assert s[k] == t[k - i];
    }
    SliceOfSuffix(s, i, |r|);
  }

  lemma SliceOfSuffix(s: string, i: nat, n: nat)
    requires i + n <= |s|
    ensures s[i..][..n] == s[i..i + n]
  {
  }

  /** Trimming twice is trimming once. */
  lemma TrimIdempotent(s: string)
    ensures Trim(Trim(s)) == Trim(s)
  {
    var r := Trim(s);
    if r != [] {
      assert TrimStart(r) == r;
      assert TrimEnd(r) == r;
    }
  }

  /** `s.startsWith(prefix)`. */
  predicate StartsWith(s: string, prefix: string) {
    |prefix| <= |s| && s[..|prefix|] == prefix
  }

  predicate IsDecimalDigit(c: char) {
    '0' <= c <= '9'
  }

  /** The value of `c` as a digit in base `radix` (10 or 16), if it is one. */
  function DigitValue(c: char, radix: nat): (r: Option<nat>)
    ensures r.Some? ==> r.value < radix
  {
    if IsDecimalDigit(c) && (c as int) - ('0' as int) < radix then Some((c as int) - ('0' as int))
    else if radix == 16 && 'a' <= c <= 'f' then Some((c as int) - ('a' as int) + 10)
    else if radix == 16 && 'A' <= c <= 'F' then Some((c as int) - ('A' as int) + 10)
    else None
  }

  /** The length of the longest prefix of `s` that is made of digits. */
  function DigitRun(s: string, radix: nat): (n: nat)
    ensures n <= |s|
    ensures forall k :: 0 <= k < n ==> DigitValue(s[k], radix).Some?
    ensures n < |s| ==> DigitValue(s[n], radix).None?
  {
    if s != [] && DigitValue(s[0], radix).Some? then 1 + DigitRun(s[1..], radix) else 0
  }

  /** The number a run of digits denotes, most significant first. */
  function DigitsValue(s: string, radix: nat): nat
    requires forall k :: 0 <= k < |s| ==> DigitValue(s[k], radix).Some?
  {
    if s == [] then 0
    else
      var init := s[..|s| - 1];
      assert forall k :: 0 <= k < |init| ==> init[k] == s[k];
      var high := DigitsValue(init, radix);
      Arith.MulNonNegative(high, radix);
      high * radix + DigitValue(s[|s| - 1], radix).value
  }

  /** `parseInt(s)` with no radix: leading white space and one sign are
      skipped, then the digits are read as `ParseDigits` says; `None` is
      `NaN`. */
  function ParseInt(s: string): (r: Option<int>)
    ensures var t := TrimStart(s);
      (t == [] || !(IsDecimalDigit(t[0]) || t[0] == '-' || t[0] == '+')) ==> r.None?
    ensures r.Some? && r.value < 0 ==> TrimStart(s)[0] == '-'
  {
    ParseSigned(TrimStart(s))
  }

  function ParseSigned(t: string): Option<int> {
    if t != [] && (t[0] == '-' || t[0] == '+') then
      match ParseDigits(t[1..])
      case None => None
      case Some(v) => Some(if t[0] == '-' then -v else v)
    else ParseDigits(t)
  }

  /** A `0x` or `0X` prefix selects base 16, and the longest run of digits
      that follows is read. */
  function ParseDigits(u: string): Option<int> {
    var hex := |u| >= 2 && u[0] == '0' && (u[1] == 'x' || u[1] == 'X');
    var radix := if hex then 16 else 10;
    var digits := if hex then u[2..] else u;
    var n := DigitRun(digits, radix);
    if n == 0 then None else Some(DigitsValue(digits[..n], radix))
  }

  function DigitChar(d: nat): (c: char)
    requires d < 10
    ensures DigitValue(c, 10) == Some(d)
  {
    ('0' as int + d) as char
  }

  /** The decimal text of `n`, as `String(n)` writes a safe integer. */
  function DecimalText(n: nat): (r: string)
    ensures r != [] && forall k :: 0 <= k < |r| ==> DigitValue(r[k], 10).Some?
    ensures r[0] == '0' ==> r == "0"
  {
    if n < 10 then [DigitChar(n)] else DecimalText(n / 10) + [DigitChar(n % 10)]
  }

  lemma {:induction false} DecimalTextValue(n: nat)
    ensures DigitsValue(DecimalText(n), 10) == n
  {
    if n >= 10 {
      var r := DecimalText(n);
      assert r[..|r| - 1] == DecimalText(n / 10);
      DecimalTextValue(n / 10);
    }
  }

  /** `parseInt` reads back what `String` writes, with or without a
      minus sign and whatever follows the digits. */
  lemma ParseIntDecimal(n: nat, rest: string)
    requires rest != [] ==> !IsDecimalDigit(rest[0]) && (n == 0 ==> rest[0] != 'x' && rest[0] != 'X')
    ensures ParseInt(DecimalText(n) + rest) == Some(n)
    ensures ParseInt("-" + DecimalText(n) + rest) == Some(-(n as int))
  {
    ParseDigitsDecimal(n, rest);
    SignedDigits(DecimalText(n), rest, n);
  }

  lemma SignedDigits(d: string, rest: string, v: nat)
    requires d != [] && IsDecimalDigit(d[0]) && ParseDigits(d + rest) == Some(v)
    ensures ParseInt(d + rest) == Some(v)
    ensures ParseInt("-" + d + rest) == Some(-(v as int))
  {
    var u := d + rest;
    assert u[0] == d[0];
    assert "-" + d + rest == "-" + u;
    ParseIntOfDigits(u, v);
  }

  lemma ParseIntOfDigits(u: string, v: nat)
    requires u != [] && IsDecimalDigit(u[0]) && ParseDigits(u) == Some(v)
    ensures ParseInt(u) == Some(v)
    ensures ParseInt("-" + u) == Some(-(v as int))
  {
    UnsignedDigits(u);
    NegatedDigits(u, v);
  }

  lemma UnsignedDigits(u: string)
    requires u != [] && IsDecimalDigit(u[0])
    ensures ParseInt(u) == ParseDigits(u)
  {
    NoTrim(u);
  }

  lemma NegatedDigits(u: string, v: nat)
    requires ParseDigits(u) == Some(v)
    ensures ParseInt("-" + u) == Some(-(v as int))
  {
    var s := "-" + u;
    assert s[0] == '-' && s[1..] == u;
    NoTrim(s);
  }

  lemma NoTrim(s: string)
    requires s != [] && (IsDecimalDigit(s[0]) || s[0] == '-')
    ensures TrimStart(s) == s
  {
    assert !IsWhiteSpace(s[0]);
  }

  lemma ParseDigitsDecimal(n: nat, rest: string)
    requires rest != [] ==> !IsDecimalDigit(rest[0]) && (n == 0 ==> rest[0] != 'x' && rest[0] != 'X')
    ensures ParseDigits(DecimalText(n) + rest) == Some(n)
  {
    var d := DecimalText(n);
    var u := d + rest;
    assert u[0] == d[0];
    DecimalTextValue(n);
    if |u| >= 2 && u[0] == '0' {
      assert d == "0" && u[1] == rest[0];
      assert n == DigitsValue("0", 10) == 0;
    }
    RunOfDigits(d, rest);
    assert u[..|d|] == d;
  }

  lemma {:induction false} RunOfDigits(d: string, rest: string)
    requires forall k :: 0 <= k < |d| ==> DigitValue(d[k], 10).Some?
    requires rest != [] ==> !IsDecimalDigit(rest[0])
    ensures DigitRun(d + rest, 10) == |d|
  {
    if d != [] {
      assert (d + rest)[1..] == d[1..] + rest;
      RunOfDigits(d[1..], rest);
    } else {
      assert d + rest == rest;
    }
  }
}
