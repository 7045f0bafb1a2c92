/** Facts about splitting a natural number into base-64 digits, shared by the
    UTF-8 and base64 codecs. */
module Arith {

  lemma MulBounds(k: int, d: int)
    requires d > 0
    ensures k >= 1 ==> k * d >= d
    ensures k <= -1 ==> k * d <= -d
  {
    if k >= 1 {
      assert k * d == (k - 1) * d + d;
      assert (k - 1) * d >= 0;
    } else if k <= -1 {
      assert k * d == (k + 1) * d - d;
      assert (k + 1) * d <= 0;
    }
  }

  lemma MulNonNegative(a: nat, b: nat)
    ensures a * b >= 0
  {
  }

  /** Euclidean division recovers quotient and remainder. */
  lemma DivModOfSum(q: int, r: int, d: int)
    requires d > 0 && 0 <= r < d
    ensures (q * d + r) / d == q && (q * d + r) % d == r
  {
    var n := q * d + r;
    var k := q - n / d;
    assert k * d == n % d - r;
    MulBounds(k, d);
  }

  lemma Split3(v: int)
    requires 0 <= v
    ensures v / 4096 * 4096 + v / 64 % 64 * 64 + v % 64 == v
  {
    var q := v / 64;
    DivModOfSum(q / 64, q % 64 * 64 + v % 64, 4096);
  }

  lemma Split4(v: int)
    requires 0 <= v
    ensures v / 262144 * 262144 + v / 4096 % 64 * 4096 + v / 64 % 64 * 64 + v % 64 == v
  {
    var q := v / 64;
    var p := q / 64;
    assert v == q * 64 + v % 64;
    assert q == p * 64 + q % 64;
    assert p == p / 64 * 64 + p % 64;
    DivModOfSum(p, q % 64 * 64 + v % 64, 4096);
    DivModOfSum(p / 64, p % 64 * 4096 + q % 64 * 64 + v % 64, 262144);
  }

  lemma Join3(a: int, x: int, y: int)
    requires 0 <= x < 64 && 0 <= y < 64
    ensures var v := a * 4096 + x * 64 + y;
      v / 4096 == a && v / 64 % 64 == x && v % 64 == y
  {
    DivModOfSum(a, x * 64 + y, 4096);
    DivModOfSum(a * 64 + x, y, 64);
    DivModOfSum(a, x, 64);
  }

  lemma Join4(a: int, x: int, y: int, z: int)
    requires 0 <= x < 64 && 0 <= y < 64 && 0 <= z < 64
    ensures var v := a * 262144 + x * 4096 + y * 64 + z;
      v / 262144 == a && v / 4096 % 64 == x && v / 64 % 64 == y && v % 64 == z
  {
    DivModOfSum(a, x * 4096 + y * 64 + z, 262144);
    DivModOfSum(a * 64 + x, y * 64 + z, 4096);
    DivModOfSum(a * 4096 + x * 64 + y, z, 64);
    DivModOfSum(a, x, 64);
    DivModOfSum(a * 64 + x, y, 64);
  }
}
