/** Base64 with the standard alphabet and `=` padding, as in section 4 of
    RFC 4648; this is what Node's `buf.toString('base64')` produces. */
module Base64 {
  import opened Wrappers
  import Arith

  /** The alphabet of RFC 4648 section 4, Table 1: the character for each
      6-bit value. */
  function CharOf(i: int): (c: char)
    requires 0 <= i < 64
    ensures ValueOf(c) == Some(i)
  {
    if i < 26 then (i + 'A' as int) as char
    else if i < 52 then (i - 26 + 'a' as int) as char
    else if i < 62 then (i - 52 + '0' as int) as char
    else if i == 62 then '+'
    else '/'
  }

  /** The 6-bit value of an alphabet character; `None` for any other
      character, the pad `=` included. */
  function ValueOf(c: char): (r: Option<int>)
    ensures r.Some? ==> 0 <= r.value < 64
  {
    if 'A' <= c <= 'Z' then Some(c as int - 'A' as int)
    else if 'a' <= c <= 'z' then Some(c as int - 'a' as int + 26)
    else if '0' <= c <= '9' then Some(c as int - '0' as int + 52)
    else if c == '+' then Some(62)
    else if c == '/' then Some(63)
    else None
  }

  predicate InAlphabet(c: char) {
    ValueOf(c).Some?
  }

  const Pad: char := '='

  lemma CharOfValueOf(c: char)
    requires InAlphabet(c)
    ensures CharOf(ValueOf(c).value) == c
  {
  }

  /** The number of `=` characters that end the encoding of `n` octets. */
  function PadCount(n: nat): nat {
    if n % 3 == 0 then 0 else 3 - n % 3
  }

  /** Three octets as four characters. */
  function EncodeGroup(b0: byte, b1: byte, b2: byte): (r: string)
    ensures |r| == 4 && forall k :: 0 <= k < 4 ==> InAlphabet(r[k])
  {
    [CharOf(b0 as int / 4), CharOf(b0 as int % 4 * 16 + b1 as int / 16),
     CharOf(b1 as int % 16 * 4 + b2 as int / 64), CharOf(b2 as int % 64)]
  }

  /** The base64 text of `b`: four characters for every three octets, the
      last group padded with `=`. */
  function Encode(b: seq<byte>): (r: string)
    ensures |r| == 4 * ((|b| + 2) / 3)
    ensures forall k :: 0 <= k < |r| ==> (r[k] == Pad <==> k >= |r| - PadCount(|b|))
    ensures forall k :: 0 <= k < |r| ==> (InAlphabet(r[k]) <==> r[k] != Pad)
    decreases |b|
  {
    if |b| == 0 then ""
    else if |b| <= 2 then EncodeShort(b)
    else
      var g := EncodeGroup(b[0], b[1], b[2]);
      var rest := Encode(b[3..]);
      var n := |b| - 3;
      Arith.DivModOfSum((n + 2) / 3 + 1, (n + 2) % 3, 3);
      Arith.DivModOfSum(n / 3 + 1, n % 3, 3);
      assert forall k :: 0 <= k < 4 ==> (g + rest)[k] == g[k];
      assert forall k :: 4 <= k < |g + rest| ==> (g + rest)[k] == rest[k - 4];
      g + rest
  }

  /** One or two octets as four characters, padded with `=`. */
  function EncodeShort(b: seq<byte>): (r: string)
    requires 1 <= |b| <= 2
    ensures |r| == 4
    ensures forall k :: 0 <= k < 4 ==> (r[k] == Pad <==> k >= 4 - PadCount(|b|))
    ensures forall k :: 0 <= k < 4 ==> (InAlphabet(r[k]) <==> r[k] != Pad)
  {
    if |b| == 1 then
      [CharOf(b[0] as int / 4), CharOf(b[0] as int % 4 * 16), Pad, Pad]
    else
      [CharOf(b[0] as int / 4), CharOf(b[0] as int % 4 * 16 + b[1] as int / 16),
       CharOf(b[1] as int % 16 * 4), Pad]
  }

  /** Four alphabet characters as three octets. */
  function DecodeGroup(s: string): (r: Option<seq<byte>>)
    requires |s| == 4
    ensures r.Some? ==> |r.value| == 3
  {
    match (ValueOf(s[0]), ValueOf(s[1]), ValueOf(s[2]), ValueOf(s[3]))
    case (Some(v0), Some(v1), Some(v2), Some(v3)) =>
      Some([(v0 * 4 + v1 / 16) as byte, (v1 % 16 * 16 + v2 / 4) as byte, (v2 % 4 * 64 + v3) as byte])
    case _ => None
  }

  /** The last group, which may end in one or two `=`. A padded group whose
      unused bits are not zero is not canonical and is refused. */
  function DecodeFinal(s: string): (r: Option<seq<byte>>)
    requires |s| == 4
    ensures r.Some? ==> 1 <= |r.value| <= 3
  {
    if s[2] == Pad && s[3] == Pad then
      match (ValueOf(s[0]), ValueOf(s[1]))
      case (Some(v0), Some(v1)) =>
        if v1 % 16 == 0 then Some([(v0 * 4 + v1 / 16) as byte]) else None
      case _ => None
    else if s[3] == Pad then
      match (ValueOf(s[0]), ValueOf(s[1]), ValueOf(s[2]))
      case (Some(v0), Some(v1), Some(v2)) =>
        if v2 % 4 == 0 then Some([(v0 * 4 + v1 / 16) as byte, (v1 % 16 * 16 + v2 / 4) as byte]) else None
      case _ => None
    else
      DecodeGroup(s)
  }

  /** Decodes canonical base64 text (the texts `Encode` produces); `None` for
      anything else. */
  function Decode(s: string): (r: Option<seq<byte>>)
    ensures r.Some? ==> |s| % 4 == 0
    ensures r.Some? ==> (r.value == [] <==> s == [])
    decreases |s|
  {
    if |s| == 0 then Some([])
    else if |s| < 4 then None
    else if |s| == 4 then DecodeFinal(s)
    else
      match (DecodeGroup(s[..4]), Decode(s[4..]))
      case (Some(g), Some(rest)) => Some(g + rest)
      case _ => None
  }

  /** Splitting three octets into four 6-bit values and joining them again
      gives the octets back. */
  lemma JoinSplit(x0: int, x1: int, x2: int)
    requires 0 <= x0 < 256 && 0 <= x1 < 256 && 0 <= x2 < 256
    ensures var v0, v1, v2, v3 := x0 / 4, x0 % 4 * 16 + x1 / 16, x1 % 16 * 4 + x2 / 64, x2 % 64;
      v0 * 4 + v1 / 16 == x0 && v1 % 16 * 16 + v2 / 4 == x1 && v2 % 4 * 64 + v3 == x2
  {
    Arith.DivModOfSum(x0 % 4, x1 / 16, 16);
    Arith.DivModOfSum(x1 % 16, x2 / 64, 4);
  }

  /** Joining four 6-bit values into three octets and splitting them again
      gives the values back. */
  lemma SplitJoin(v0: int, v1: int, v2: int, v3: int)
    requires 0 <= v0 < 64 && 0 <= v1 < 64 && 0 <= v2 < 64 && 0 <= v3 < 64
    ensures var x0, x1, x2 := v0 * 4 + v1 / 16, v1 % 16 * 16 + v2 / 4, v2 % 4 * 64 + v3;
      0 <= x0 < 256 && 0 <= x1 < 256 && 0 <= x2 < 256 &&
      x0 / 4 == v0 && x0 % 4 * 16 + x1 / 16 == v1 && x1 % 16 * 4 + x2 / 64 == v2 && x2 % 64 == v3
  {
    Arith.DivModOfSum(v0, v1 / 16, 4);
    Arith.DivModOfSum(v1 % 16, v2 / 4, 16);
    Arith.DivModOfSum(v2 % 4, v3, 64);
  }

  lemma DecodeEncodeGroup(b0: byte, b1: byte, b2: byte)
    ensures DecodeGroup(EncodeGroup(b0, b1, b2)) == Some([b0, b1, b2])
  {
    var x0, x1, x2 := b0 as int, b1 as int, b2 as int;
    var e := EncodeGroup(b0, b1, b2);
    assert ValueOf(e[0]) == Some(x0 / 4);
    assert ValueOf(e[1]) == Some(x0 % 4 * 16 + x1 / 16);
    assert ValueOf(e[2]) == Some(x1 % 16 * 4 + x2 / 64);
    assert ValueOf(e[3]) == Some(x2 % 64);
    JoinSplit(x0, x1, x2);
  }

  lemma DecodeEncodeOne(b: seq<byte>)
    requires |b| == 1
    ensures DecodeFinal(EncodeShort(b)) == Some(b)
  {
    var e := EncodeShort(b);
    var x0 := b[0] as int;
    JoinSplit(x0, 0, 0);
    Arith.DivModOfSum(x0 % 4, 0, 16);
    assert e[2] == Pad && e[3] == Pad;
    assert ValueOf(e[0]) == Some(x0 / 4) && ValueOf(e[1]) == Some(x0 % 4 * 16);
    assert DecodeFinal(e) == Some([(x0 / 4 * 4 + x0 % 4 * 16 / 16) as byte]);
    assert [(x0 / 4 * 4 + x0 % 4 * 16 / 16) as byte] == b;
  }

  lemma DecodeEncodeTwo(b: seq<byte>)
    requires |b| == 2
    ensures DecodeFinal(EncodeShort(b)) == Some(b)
  {
    var e := EncodeShort(b);
    var x0, x1 := b[0] as int, b[1] as int;
    var v0, v1, v2 := x0 / 4, x0 % 4 * 16 + x1 / 16, x1 % 16 * 4;
    JoinSplit(x0, x1, 0);
    Arith.DivModOfSum(x1 % 16, 0, 4);
    assert e[2] != Pad && e[3] == Pad;
    assert ValueOf(e[0]) == Some(v0) && ValueOf(e[1]) == Some(v1) && ValueOf(e[2]) == Some(v2);
    assert DecodeFinal(e) == Some([(v0 * 4 + v1 / 16) as byte, (v1 % 16 * 16 + v2 / 4) as byte]);
    assert [(v0 * 4 + v1 / 16) as byte, (v1 % 16 * 16 + v2 / 4) as byte] == b;
  }

  lemma EncodeOfThree(b: seq<byte>)
    requires |b| == 3
    ensures Encode(b) == EncodeGroup(b[0], b[1], b[2])
  {
    assert b[3..] == [];
  }

  lemma EncodeOfShort(b: seq<byte>)
    requires 1 <= |b| <= 2
    ensures Encode(b) == EncodeShort(b)
  {
  }

  lemma DecodeEncodeThree(b: seq<byte>)
    requires |b| == 3
    ensures DecodeFinal(Encode(b)) == Some(b)
  {
    EncodeOfThree(b);
    var e := EncodeGroup(b[0], b[1], b[2]);
    assert e[3] != Pad;
    assert DecodeFinal(e) == DecodeGroup(e);
    DecodeEncodeGroup(b[0], b[1], b[2]);
    assert b == [b[0], b[1], b[2]];
  }

  lemma DecodeEncodeFinal(b: seq<byte>)
    requires 1 <= |b| <= 3
    ensures DecodeFinal(Encode(b)) == Some(b)
    ensures Decode(Encode(b)) == Some(b)
  {
    assert (|b| + 2) / 3 == 1;
    if |b| == 1 {
      EncodeOfShort(b);
      DecodeEncodeOne(b);
    } else if |b| == 2 {
      EncodeOfShort(b);
      DecodeEncodeTwo(b);
    } else {
      DecodeEncodeThree(b);
    }
  }

  lemma EncodeCons(b: seq<byte>)
    requires |b| > 3
    ensures Encode(b) == EncodeGroup(b[0], b[1], b[2]) + Encode(b[3..])
    ensures |Encode(b)| > 4
  {
    assert (|b[3..]| + 2) / 3 >= 1;
  }

  lemma DecodeOfCons(g: string, rest: string, x: seq<byte>, y: seq<byte>)
    requires |g| == 4 && |rest| > 0
    requires DecodeGroup(g) == Some(x) && Decode(rest) == Some(y)
    ensures Decode(g + rest) == Some(x + y)
  {
    var s := g + rest;
    assert s[..4] == g && s[4..] == rest;
  }

  lemma DecodeEncodeCons(b: seq<byte>)
    requires |b| > 3 && Decode(Encode(b[3..])) == Some(b[3..])
    ensures Decode(Encode(b)) == Some(b)
  {
    var g, rest := EncodeGroup(b[0], b[1], b[2]), Encode(b[3..]);
    EncodeCons(b);
    DecodeEncodeGroup(b[0], b[1], b[2]);
    DecodeOfCons(g, rest, [b[0], b[1], b[2]], b[3..]);
    HeadAndTail(b);
  }

  lemma HeadAndTail(b: seq<byte>)
    requires |b| >= 3
    ensures [b[0], b[1], b[2]] + b[3..] == b
  {
  }

  /** Decoding undoes encoding. */
  lemma {:induction false} DecodeEncode(b: seq<byte>)
    ensures Decode(Encode(b)) == Some(b)
    decreases |b|
  {
    if |b| == 0 {
    } else if |b| <= 3 {
      DecodeEncodeFinal(b);
    } else {
      DecodeEncode(b[3..]);
      DecodeEncodeCons(b);
    }
  }

  lemma EncodeDecodeGroup(s: string)
    requires |s| == 4 && DecodeGroup(s).Some?
    ensures var g := DecodeGroup(s).value; EncodeGroup(g[0], g[1], g[2]) == s
  {
    var v0, v1, v2, v3 := ValueOf(s[0]).value, ValueOf(s[1]).value, ValueOf(s[2]).value, ValueOf(s[3]).value;
    var x0, x1, x2 := v0 * 4 + v1 / 16, v1 % 16 * 16 + v2 / 4, v2 % 4 * 64 + v3;
    assert DecodeGroup(s).value == [x0 as byte, x1 as byte, x2 as byte];
    EncodeJoin(v0, v1, v2, v3);
    CharOfValueOf(s[0]); CharOfValueOf(s[1]); CharOfValueOf(s[2]); CharOfValueOf(s[3]);
    assert s == [CharOf(v0), CharOf(v1), CharOf(v2), CharOf(v3)];
  }

  /** Four 6-bit values joined into octets encode as their own characters. */
  lemma EncodeJoin(v0: int, v1: int, v2: int, v3: int)
    requires 0 <= v0 < 64 && 0 <= v1 < 64 && 0 <= v2 < 64 && 0 <= v3 < 64
    ensures var x0, x1, x2 := v0 * 4 + v1 / 16, v1 % 16 * 16 + v2 / 4, v2 % 4 * 64 + v3;
      0 <= x0 < 256 && 0 <= x1 < 256 && 0 <= x2 < 256 &&
      EncodeGroup(x0 as byte, x1 as byte, x2 as byte) == [CharOf(v0), CharOf(v1), CharOf(v2), CharOf(v3)]
  {
    SplitJoin(v0, v1, v2, v3);
    EncodeGroupOfInts(v0 * 4 + v1 / 16, v1 % 16 * 16 + v2 / 4, v2 % 4 * 64 + v3);
  }

  lemma EncodeGroupOfInts(x0: int, x1: int, x2: int)
    requires 0 <= x0 < 256 && 0 <= x1 < 256 && 0 <= x2 < 256
    ensures EncodeGroup(x0 as byte, x1 as byte, x2 as byte)
      == [CharOf(x0 / 4), CharOf(x0 % 4 * 16 + x1 / 16), CharOf(x1 % 16 * 4 + x2 / 64), CharOf(x2 % 64)]
  {
  }

  lemma EncodeDecodeTwoPads(s: string)
    requires |s| == 4 && s[2] == Pad && s[3] == Pad && DecodeFinal(s).Some?
    ensures Encode(DecodeFinal(s).value) == s
  {
    var v0, v1 := ValueOf(s[0]).value, ValueOf(s[1]).value;
    CharOfValueOf(s[0]); CharOfValueOf(s[1]);
    assert v1 % 16 == 0;
    SplitJoin(v0, v1, 0, 0);
    var x0 := v0 * 4 + v1 / 16;
    var b := DecodeFinal(s).value;
    assert b == [x0 as byte];
    EncodeOfShort(b);
    assert x0 % 4 * 16 == v1;
    assert EncodeShort(b) == [CharOf(v0), CharOf(v1), Pad, Pad];
  }

  lemma EncodeDecodeOnePad(s: string)
    requires |s| == 4 && s[2] != Pad && s[3] == Pad && DecodeFinal(s).Some?
    ensures Encode(DecodeFinal(s).value) == s
  {
    var v0, v1, v2 := ValueOf(s[0]).value, ValueOf(s[1]).value, ValueOf(s[2]).value;
    CharOfValueOf(s[0]); CharOfValueOf(s[1]); CharOfValueOf(s[2]);
    assert v2 % 4 == 0;
    SplitJoin(v0, v1, v2, 0);
    var x0, x1 := v0 * 4 + v1 / 16, v1 % 16 * 16 + v2 / 4;
    var b := DecodeFinal(s).value;
    assert b == [x0 as byte, x1 as byte];
    EncodeOfShort(b);
    assert x1 % 16 * 4 == v2;
    assert EncodeShort(b) == [CharOf(v0), CharOf(v1), CharOf(v2), Pad];
  }

  lemma EncodeDecodeFinal(s: string)
    requires |s| == 4 && DecodeFinal(s).Some?
    ensures Encode(DecodeFinal(s).value) == s
  {
    if s[2] == Pad && s[3] == Pad {
      EncodeDecodeTwoPads(s);
    } else if s[3] == Pad {
      EncodeDecodeOnePad(s);
    } else {
      var g := DecodeFinal(s).value;
      EncodeDecodeGroup(s);
      assert g[3..] == [];
      assert Encode(g) == EncodeGroup(g[0], g[1], g[2]) + Encode([]);
    }
  }

  /** Only canonical texts decode: whatever decodes is the encoding of its result. */
  lemma {:induction false} EncodeDecode(s: string)
    requires Decode(s).Some?
    ensures Encode(Decode(s).value) == s
    decreases |s|
  {
    if |s| == 4 {
      EncodeDecodeFinal(s);
    } else if |s| > 4 {
      var g := DecodeGroup(s[..4]).value;
      var rest := Decode(s[4..]).value;
      EncodeDecodeGroup(s[..4]);
      EncodeDecode(s[4..]);
      var b := g + rest;
      assert b[3..] == rest;
      assert Encode(b) == EncodeGroup(g[0], g[1], g[2]) + Encode(rest);
      assert s == s[..4] + s[4..];
    }
  }
}
