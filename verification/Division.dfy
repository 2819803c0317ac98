/** Division with remainder. */
module Division {

  lemma QuotientIs(v: nat, d: nat, q: nat, r: nat)
    requires d > 0 && v == q * d + r && r < d
    ensures v / d == q && v % d == r
  {
    var k := v / d - q;
    assert r - v % d == k * d;
    Multiples(k, d);
  }

  lemma Multiples(k: int, d: int)
    requires d > 0
    ensures k > 0 ==> k * d >= d
    ensures k < 0 ==> k * d <= -d
  {
  }
}
