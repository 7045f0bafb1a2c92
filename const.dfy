/** Shared limits and the phone pattern (utils/const.ts). */
module Const {
  const MaxItemPrice: int := 5000
  const MinItemPrice: int := 0
  const MaxPhoneNumberLength: int := 20
  const MinPhoneNumberLength: int := 8
  const MaxUserItems: int := 10

  /** The regular expressions the pattern is built from; matching is
      anchored at both ends, as `^...$` asks. */
  datatype Regex =
    | Lit(c: char)                                  // a literal character
    | Range(lo: char, hi: char)                     // `[lo-hi]`
    | Opt(r: Regex)                                 // `r?`
    | Repeat(r: Regex, min: nat, max: nat)          // `r{min,max}`
    | Cat(first: Regex, second: Regex)              // `first second`

  function Size(r: Regex): nat {
    match r
    case Lit(_) => 1
    case Range(_, _) => 1
    case Opt(r1) => Size(r1) + 1
    case Repeat(r1, _, max) => Size(r1) + max + 1
    case Cat(a, b) => Size(a) + Size(b) + 1
  }

  /** `r` matches exactly the characters `s[i..j]`. */
  ghost predicate MatchesAt(r: Regex, s: string, i: nat, j: nat)
    requires i <= j <= |s|
    decreases Size(r)
  {
    match r
    case Lit(c) => j == i + 1 && s[i] == c
    case Range(lo, hi) => j == i + 1 && lo <= s[i] <= hi
    case Opt(r1) => i == j || MatchesAt(r1, s, i, j)
    case Repeat(r1, min, max) =>
      (min == 0 && i == j)
      || (max > 0 && exists m :: i <= m <= j && MatchesAt(r1, s, i, m)
                                && MatchesAt(Repeat(r1, if min == 0 then 0 else min - 1, max - 1), s, m, j))
    case Cat(a, b) => exists m :: i <= m <= j && MatchesAt(a, s, i, m) && MatchesAt(b, s, m, j)
  }

  ghost predicate Matches(r: Regex, s: string) {
    MatchesAt(r, s, 0, |s|)
  }

  /** `/^\+?[1-9]\d{1,14}$/`; `\d` without the `u` flag is `[0-9]`. */
  const PhoneRegex: Regex := Cat(Opt(Lit('+')), Cat(Range('1', '9'), Repeat(Range('0', '9'), 1, 14)))

  predicate IsDigit(c: char) {
    '0' <= c <= '9'
  }

  predicate AllDigits(s: string, i: nat, j: nat)
    requires i <= j <= |s|
  {
    forall k :: i <= k < j ==> IsDigit(s[k])
  }

  /** The pattern in words: an optional `+`, a digit other than 0, and
      one to fourteen more digits. */
  predicate IsPhoneNumber(s: string) {
    var p := if |s| > 0 && s[0] == '+' then 1 else 0;
    p + 2 <= |s| <= p + 15 && '1' <= s[p] <= '9' && AllDigits(s, p + 1, |s|)
  }

  /** `\d{min,max}` matches `s[i..j]` exactly when it is a run of digits of
      allowed length. */
  lemma {:induction false} DigitRun(min: nat, max: nat, s: string, i: nat, j: nat)
    requires i <= j <= |s| && min <= max
    ensures MatchesAt(Repeat(Range('0', '9'), min, max), s, i, j)
      <==> i + min <= j <= i + max && AllDigits(s, i, j)
    decreases max
  {
    var d := Range('0', '9');
    var min' := if min == 0 then 0 else min - 1;
    if max > 0 && i < j {
      DigitRun(min', max - 1, s, i + 1, j);
      if MatchesAt(Repeat(d, min, max), s, i, j) {
        assert MatchesAt(Repeat(d, min, max), s, i, j) == ((min == 0 && i == j) || (max > 0 && exists m :: i <= m <= j && MatchesAt(d, s, i, m) && MatchesAt(Repeat(d, min', max - 1), s, m, j)));
        var m :| i <= m <= j && MatchesAt(d, s, i, m) && MatchesAt(Repeat(d, min', max - 1), s, m, j);
        assert m == i + 1;
      }
      if i + min <= j <= i + max && AllDigits(s, i, j) {
        assert MatchesAt(d, s, i, i + 1);
      }
    } else if max > 0 {
      assert !MatchesAt(d, s, i, i);
    }
  }

  /** `[1-9]\d{1,14}` matches `s[p..]` exactly when it is a nonzero digit
      followed by one to fourteen digits. */
  lemma Tail(s: string, p: nat)
    requires p <= |s|
    ensures MatchesAt(Cat(Range('1', '9'), Repeat(Range('0', '9'), 1, 14)), s, p, |s|)
      <==> p + 2 <= |s| <= p + 15 && '1' <= s[p] <= '9' && AllDigits(s, p + 1, |s|)
  {
    var lead, rep := Range('1', '9'), Repeat(Range('0', '9'), 1, 14);
    assert MatchesAt(Cat(lead, rep), s, p, |s|)
      == exists m :: p <= m <= |s| && MatchesAt(lead, s, p, m) && MatchesAt(rep, s, m, |s|);
    if MatchesAt(Cat(lead, rep), s, p, |s|) {
      var m :| p <= m <= |s| && MatchesAt(lead, s, p, m) && MatchesAt(rep, s, m, |s|);
      assert m == p + 1 && '1' <= s[p] <= '9';
      DigitRun(1, 14, s, m, |s|);
    }
    if p + 2 <= |s| <= p + 15 && '1' <= s[p] <= '9' && AllDigits(s, p + 1, |s|) {
      DigitRun(1, 14, s, p + 1, |s|);
      assert MatchesAt(lead, s, p, p + 1);
    }
  }

  /** The regular expression matches exactly the strings `IsPhoneNumber`
      describes. */
  lemma PhoneRegexMeaning(s: string)
    ensures Matches(PhoneRegex, s) <==> IsPhoneNumber(s)
  {
    var plus := Opt(Lit('+'));
    var tail := Cat(Range('1', '9'), Repeat(Range('0', '9'), 1, 14));
    Tail(s, 0);
    if |s| > 0 {
      Tail(s, 1);
    }
    if Matches(PhoneRegex, s) {
      var m :| 0 <= m <= |s| && MatchesAt(plus, s, 0, m) && MatchesAt(tail, s, m, |s|);
    }
    if IsPhoneNumber(s) {
      var p := if |s| > 0 && s[0] == '+' then 1 else 0;
      assert MatchesAt(plus, s, 0, p);
    }
  }

  /** Consequences: a phone number has 2 to 16 characters, never starts its
      digits with 0, and holds nothing but digits after the optional `+`. */
  lemma PhoneNumberShape(s: string)
    requires Matches(PhoneRegex, s)
    ensures 2 <= |s| <= 16
    ensures s[0] != '0' && !(|s| > 1 && s[0] == '+' && s[1] == '0')
    ensures forall k :: 0 < k < |s| ==> IsDigit(s[k])
  {
    PhoneRegexMeaning(s);
  }

  /** The limits are consistent with each other. */
  lemma LimitsOrdered()
    ensures MinItemPrice < MaxItemPrice
    ensures MinPhoneNumberLength < MaxPhoneNumberLength
    ensures MaxUserItems > 0
  {
  }
}
