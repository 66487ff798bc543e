/** Facts about quotients and remainders. */
module Arithmetic {
  lemma {:induction false} MulAtLeast(d: nat, granule: nat)
    requires d >= 1
    ensures d * granule >= granule
  {
    if d > 1 {
      MulAtLeast(d - 1, granule);
      assert d * granule == (d - 1) * granule + granule;
    }
  }

  /** With the remainders in range, a larger number has no smaller quotient. */
  lemma QuotientOrder(q: nat, r: nat, q': nat, r': nat, granule: nat)
    requires q * granule + r <= q' * granule + r' && r' < granule
    ensures q <= q'
  {
    if q' < q {
      assert (q - q') * granule == q * granule - q' * granule;
      MulAtLeast(q - q', granule);
    }
  }

  lemma RemainderIs(x: nat, q: nat, r: nat, granule: nat)
    requires granule > 0 && x == q * granule + r && r < granule
    ensures x % granule == r
  {
    var q', r' := x / granule, x % granule;
    assert x == q' * granule + r';
    QuotientOrder(q, r, q', r', granule);
    QuotientOrder(q', r', q, r, granule);
  }

  /** Wrapping after every move is wrapping once at the end. */
  lemma WrapTwice(a: nat, m: nat, granule: nat)
    requires granule > 0
    ensures (a % granule + m) % granule == (a + m) % granule
  {
    var b := a % granule + m;
    var q, p := a / granule, b / granule;
    assert a == q * granule + a % granule && b == p * granule + b % granule;
    assert (q + p) * granule == q * granule + p * granule;
    RemainderIs(a + m, q + p, b % granule, granule);
  }

  lemma MulGrows(a: nat, b: nat, granule: nat)
    requires a <= b
    ensures a * granule <= b * granule
  {
    assert (b - a) * granule == b * granule - a * granule;
  }
}
