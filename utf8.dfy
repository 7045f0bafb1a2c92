/** UTF-8 as Node's `Buffer.from(s, 'utf-8')` and `buf.toString('utf-8')` use
    it on well-formed input (RFC 3629): a Dafny `char` is a Unicode scalar
    value, encoded in one to four octets. */
module Utf8 {
  import opened Wrappers
  import Arith

  /** Is `b` a continuation octet `10xxxxxx`? */
  predicate IsContinuation(b: byte) {
    0x80 <= b < 0xC0
  }

  /** Is `v` a Unicode scalar value (a code point that is not a surrogate)? */
  predicate IsScalar(v: int) {
    (0 <= v < 0xD800) || (0xE000 <= v < 0x11_0000)
  }

  /** The number of octets UTF-8 uses for the code point `v`. */
  function Width(v: int): nat {
    if v < 0x80 then 1 else if v < 0x800 then 2 else if v < 0x1_0000 then 3 else 4
  }

  /** The octets of one character. */
  function EncodeChar(c: char): (r: seq<byte>)
    ensures |r| == Width(c as int)
    ensures IsContinuation(r[0]) == false
    ensures forall k :: 1 <= k < |r| ==> IsContinuation(r[k])
  {
    var v := c as int;
    if v < 0x80 then
      [v as byte]
    else if v < 0x800 then
      [(0xC0 + v / 64) as byte, (0x80 + v % 64) as byte]
    else if v < 0x1_0000 then
      [(0xE0 + v / 4096) as byte, (0x80 + v / 64 % 64) as byte, (0x80 + v % 64) as byte]
    else
      [(0xF0 + v / 262144) as byte, (0x80 + v / 4096 % 64) as byte,
       (0x80 + v / 64 % 64) as byte, (0x80 + v % 64) as byte]
  }

  /** The octets of a string, character after character. */
  function Encode(s: string): (r: seq<byte>)
    ensures |s| <= |r| <= 4 * |s|
    ensures s == [] <==> r == []
  {
    if s == [] then [] else EncodeChar(s[0]) + Encode(s[1..])
  }

  /** The number of octets a sequence announces by its lead octet, or 0 when
      the octet cannot start a character. */
  function LeadWidth(b: byte): nat {
    if b < 0x80 then 1
    else if b < 0xC0 then 0
    else if b < 0xE0 then 2
    else if b < 0xF0 then 3
    else if b < 0xF8 then 4
    else 0
  }

  /** The six payload bits of a continuation octet. */
  function Low6(b: byte): int { b as int - 0x80 }

  /** Are octets 1 to n-1 of `b` continuation octets? */
  predicate ContinuationsFollow(b: seq<byte>, n: nat)
    requires n <= |b| && n <= 4
  {
    (n >= 2 ==> IsContinuation(b[1])) &&
    (n >= 3 ==> IsContinuation(b[2])) &&
    (n >= 4 ==> IsContinuation(b[3]))
  }

  /** The code point carried by the first `n` octets of `b`. */
  function CodePoint(b: seq<byte>, n: nat): int
    requires 1 <= n <= |b| && n <= 4
  {
    if n == 1 then b[0] as int
    else if n == 2 then (b[0] as int - 0xC0) * 64 + Low6(b[1])
    else if n == 3 then (b[0] as int - 0xE0) * 4096 + Low6(b[1]) * 64 + Low6(b[2])
    else (b[0] as int - 0xF0) * 262144 + Low6(b[1]) * 4096 + Low6(b[2]) * 64 + Low6(b[3])
  }

  /** Decodes the first character of `b` and says how many octets it took.
      Overlong forms, surrogates and code points above U+10FFFF are refused,
      as RFC 3629 section 3 requires. */
  function DecodeFirst(b: seq<byte>): (r: Option<(char, nat)>)
    ensures r.Some? ==> 1 <= r.value.1 <= |b| && r.value.1 <= 4
  {
    if b == [] then None
    else
      var n := LeadWidth(b[0]);
      if n == 0 || |b| < n || !ContinuationsFollow(b, n) then None
      else
        var v := CodePoint(b, n);
        if Width(v) == n && IsScalar(v) then Some((v as char, n)) else None
  }

  /** Decodes well-formed UTF-8; `None` for any other octet sequence. */
  function Decode(b: seq<byte>): (r: Option<string>)
    ensures r.Some? ==> |r.value| <= |b| <= 4 * |r.value|
    decreases |b|
  {
    if b == [] then Some([])
    else match DecodeFirst(b)
      case None => None
      case Some((c, n)) =>
        match Decode(b[n..])
        case None => None
        case Some(rest) => Some([c] + rest)
  }

  lemma CodePointOfEncodeChar(c: char, b: seq<byte>)
    requires |EncodeChar(c)| <= |b| && b[..|EncodeChar(c)|] == EncodeChar(c)
    ensures LeadWidth(b[0]) == |EncodeChar(c)|
    ensures ContinuationsFollow(b, |EncodeChar(c)|)
    ensures CodePoint(b, |EncodeChar(c)|) == c as int
  {
    var e := EncodeChar(c);
    var v := c as int;
    assert forall k :: 0 <= k < |e| ==> b[k] == e[k];
    if v < 0x80 {
    } else if v < 0x800 {
      assert b[0] as int == 0xC0 + v / 64 && b[1] as int == 0x80 + v % 64;
    } else if v < 0x1_0000 {
      assert b[0] as int == 0xE0 + v / 4096;
      assert b[1] as int == 0x80 + v / 64 % 64 && b[2] as int == 0x80 + v % 64;
      Arith.Split3(v);
    } else {
      assert b[0] as int == 0xF0 + v / 262144 && b[1] as int == 0x80 + v / 4096 % 64;
      assert b[2] as int == 0x80 + v / 64 % 64 && b[3] as int == 0x80 + v % 64;
      Arith.Split4(v);
    }
  }

  lemma DecodeFirstOfEncodeChar(c: char, rest: seq<byte>)
    ensures DecodeFirst(EncodeChar(c) + rest) == Some((c, |EncodeChar(c)|))
  {
    var e := EncodeChar(c);
    var b := e + rest;
    assert b[..|e|] == e;
    CodePointOfEncodeChar(c, b);
  }

  /** Decoding undoes encoding. */
  lemma {:induction false} DecodeEncode(s: string)
    ensures Decode(Encode(s)) == Some(s)
  {
    if s != [] {
      var e := EncodeChar(s[0]);
      var b := Encode(s);
      assert b == e + Encode(s[1..]);
      DecodeFirstOfEncodeChar(s[0], Encode(s[1..]));
      assert b[|e|..] == Encode(s[1..]);
      DecodeEncode(s[1..]);
      assert [s[0]] + s[1..] == s;
    }
  }

  lemma EncodeCharOfCodePoint(b: seq<byte>, n: nat)
    requires 1 <= n <= |b| && n <= 4 && LeadWidth(b[0]) == n && ContinuationsFollow(b, n)
    requires Width(CodePoint(b, n)) == n && IsScalar(CodePoint(b, n))
    ensures EncodeChar(CodePoint(b, n) as char) == b[..n]
  {
    var v := CodePoint(b, n);
    var e := EncodeChar(v as char);
    if n == 2 {
      Arith.DivModOfSum(b[0] as int - 0xC0, Low6(b[1]), 64);
      assert e[0] == b[0] && e[1] == b[1];
    } else if n == 3 {
      Arith.Join3(b[0] as int - 0xE0, Low6(b[1]), Low6(b[2]));
      assert e[0] == b[0] && e[1] == b[1] && e[2] == b[2];
    } else if n == 4 {
      Arith.Join4(b[0] as int - 0xF0, Low6(b[1]), Low6(b[2]), Low6(b[3]));
      assert e[0] == b[0] && e[1] == b[1] && e[2] == b[2] && e[3] == b[3];
    }
    assert forall k :: 0 <= k < n ==> e[k] == b[k];
  }

  lemma EncodeCharOfDecodeFirst(b: seq<byte>)
    requires DecodeFirst(b).Some?
    ensures EncodeChar(DecodeFirst(b).value.0) == b[..DecodeFirst(b).value.1]
  {
    EncodeCharOfCodePoint(b, LeadWidth(b[0]));
  }

  /** A decodable sequence is its first character's octets followed by a
      decodable rest. */
  lemma DecodeStep(b: seq<byte>)
    requires b != [] && Decode(b).Some?
    ensures var (c, n) := DecodeFirst(b).value;
      Decode(b[n..]).Some? && Decode(b).value == [c] + Decode(b[n..]).value
  {
  }

  lemma EncodeCons(c: char, rest: string)
    ensures Encode([c] + rest) == EncodeChar(c) + Encode(rest)
  {
    assert ([c] + rest)[0] == c && ([c] + rest)[1..] == rest;
  }

  lemma Rejoin(b: seq<byte>, n: nat)
    requires n <= |b|
    ensures b[..n] + b[n..] == b
  {
  }

  /** Only canonical encodings decode: whatever decodes re-encodes to the same octets. */
  lemma {:induction false} EncodeDecode(b: seq<byte>)
    requires Decode(b).Some?
    ensures Encode(Decode(b).value) == b
  {
    if b != [] {
      var (c, n) := DecodeFirst(b).value;
      DecodeStep(b);
      var rest := Decode(b[n..]).value;
      EncodeDecode(b[n..]);
      EncodeCharOfDecodeFirst(b);
      EncodeCons(c, rest);
      Rejoin(b, n);
    }
  }

  /** Encoding is injective. */
  lemma EncodeInjective(s: string, t: string)
    requires Encode(s) == Encode(t)
    ensures s == t
  {
    DecodeEncode(s);
    DecodeEncode(t);
  }
}
