/** Prime numbers, and a trial division that finds the next one below 19 * 19. */
module Primes {
  predicate Divides(d: nat, n: nat) { d != 0 && n % d == 0 }

  ghost predicate Prime(n: nat) { n >= 2 && forall d :: 2 <= d < n ==> !Divides(d, n) }

  /** `q` is the least prime above `p`. */
  ghost predicate Successive(p: nat, q: nat) {
    p < q && Prime(q) && forall n :: p < n < q ==> !Prime(n)
  }

  /** One of the primes below 19, other than `n`, divides `n`. */
  predicate SmallFactor(n: nat) {
    || (n != 2 && n % 2 == 0) || (n != 3 && n % 3 == 0) || (n != 5 && n % 5 == 0) || (n != 7 && n % 7 == 0)
    || (n != 11 && n % 11 == 0) || (n != 13 && n % 13 == 0) || (n != 17 && n % 17 == 0)
  }

  predicate AllFactored(lo: nat, hi: nat)
    decreases hi - lo
  {
    lo >= hi || (SmallFactor(lo) && AllFactored(lo + 1, hi))
  }

  /** `Successive`, for numbers below 19 * 19, by trial division. */
  predicate Next(p: nat, q: nat) { p < q && !SmallFactor(q) && AllFactored(p + 1, q) }

  lemma DivisorIsSmall(n: nat, d: nat)
    requires 2 <= d < n && d < 19 && Divides(d, n)
    ensures SmallFactor(n)
  {
    if d == 4 || d == 6 || d == 8 || d == 9 || d == 10 || d == 12 || d == 14 || d == 15 || d == 16 || d == 18 {
      hide SmallFactor;
      if d == 9 || d == 15 { ThirdDivides(n, d); } else { HalfDivides(n, d); }
      TwoOrThree(n);
    }
  }

  lemma TwoOrThree(n: nat)
    requires n > 3 && (n % 2 == 0 || n % 3 == 0)
    ensures SmallFactor(n)
  {}

  lemma HalfDivides(n: nat, d: nat)
    requires d > 0 && d % 2 == 0 && Divides(d, n)
    ensures n % 2 == 0
  {
    assert n == d * (n / d) == 2 * (d / 2 * (n / d));
  }

  lemma ThirdDivides(n: nat, d: nat)
    requires d > 0 && d % 3 == 0 && Divides(d, n)
    ensures n % 3 == 0
  {
    assert n == d * (n / d) == 3 * (d / 3 * (n / d));
  }

  /** A number below 19 * 19 that has a divisor has a small one. */
  lemma FactorIsSmall(n: nat, d: nat)
    requires 2 <= d < n < 361 && Divides(d, n)
    ensures SmallFactor(n)
  {
    if d < 19 {
      DivisorIsSmall(n, d);
    } else {
      var e := n / d;
      CoDivisor(n, d, e);
      DivisorIsSmall(n, e);
    }
  }

  lemma CoDivisor(n: nat, d: nat, e: nat)
    requires 19 <= d < n < 361 && Divides(d, n) && e == n / d
    ensures 2 <= e < 19 && e < n && Divides(e, n)
  {
    assert n == d * e;
    assert 19 * e <= d * e;
    assert e != 1;
    assert n % e == 0 by { Multiple(d, e); }
  }

  lemma {:induction false} Multiple(d: nat, e: nat)
    requires e > 0
    ensures d * e % e == 0
  {
    if d > 0 {
      Multiple(d - 1, e);
      assert d * e == (d - 1) * e + e;
      AddOnce((d - 1) * e, e);
    }
  }

  lemma AddOnce(x: int, e: int)
    requires e > 0
    ensures (x + e) % e == x % e
  {
    var z: int := (x + e) / e - x / e - 1;
    assert e * z == x % e - (x + e) % e;
    assert z >= 1 ==> e * z >= e;
    assert z <= -1 ==> e * z <= -e;
  }

  lemma {:induction false} FactoredAreNotPrime(lo: nat, hi: nat, n: nat)
    requires 2 <= lo <= n < hi && AllFactored(lo, hi)
    ensures !Prime(n)
    decreases hi - lo
  {
    if n > lo {
      FactoredAreNotPrime(lo + 1, hi, n);
    } else {
      assert SmallFactor(n);
      assert exists d :: 2 <= d < n && Divides(d, n) by {
        assert Divides(2, n) || Divides(3, n) || Divides(5, n) || Divides(7, n) ||
               Divides(11, n) || Divides(13, n) || Divides(17, n);
      }
    }
  }

  lemma NextIsSuccessive(p: nat, q: nat)
    requires 1 <= p && q < 361 && Next(p, q)
    ensures Successive(p, q)
  {
    forall d | 2 <= d < q ensures !Divides(d, q) {
      if Divides(d, q) {
        FactorIsSmall(q, d);
      }
    }
    forall n | p < n < q ensures !Prime(n) {
      FactoredAreNotPrime(p + 1, q, n);
    }
  }

  /** The first primes above `before`, in order. */
  ghost predicate SuccessiveFrom(before: nat, p: seq<nat>) {
    && (p != [] ==> Successive(before, p[0]))
    && forall c :: 0 < c < |p| ==> Successive(p[c - 1], p[c])
  }

  lemma EightPrimes(before: nat, a: nat, b: nat, c: nat, d: nat, e: nat, f: nat, g: nat, h: nat)
    requires 1 <= before && h < 361
    requires Next(before, a) && Next(a, b) && Next(b, c) && Next(c, d)
    requires Next(d, e) && Next(e, f) && Next(f, g) && Next(g, h)
    ensures SuccessiveFrom(before, [a, b, c, d, e, f, g, h])
  {
    hide SmallFactor, AllFactored, Prime;
    NextIsSuccessive(before, a);
    NextIsSuccessive(a, b);
    NextIsSuccessive(b, c);
    NextIsSuccessive(c, d);
    NextIsSuccessive(d, e);
    NextIsSuccessive(e, f);
    NextIsSuccessive(f, g);
    NextIsSuccessive(g, h);
  }

  // ----- the first sixty-four, eight at a time -----

  lemma From1()
    ensures SuccessiveFrom(1, [2, 3, 5, 7, 11, 13, 17, 19])
  {
    hide SuccessiveFrom;
    EightPrimes(1, 2, 3, 5, 7, 11, 13, 17, 19);
  }

  lemma From19()
    ensures SuccessiveFrom(19, [23, 29, 31, 37, 41, 43, 47, 53])
  {
    hide SuccessiveFrom;
    EightPrimes(19, 23, 29, 31, 37, 41, 43, 47, 53);
  }

  lemma From53()
    ensures SuccessiveFrom(53, [59, 61, 67, 71, 73, 79, 83, 89])
  {
    hide SuccessiveFrom;
    EightPrimes(53, 59, 61, 67, 71, 73, 79, 83, 89);
  }

  lemma From89()
    ensures SuccessiveFrom(89, [97, 101, 103, 107, 109, 113, 127, 131])
  {
    hide SuccessiveFrom;
    EightPrimes(89, 97, 101, 103, 107, 109, 113, 127, 131);
  }

  lemma From131()
    ensures SuccessiveFrom(131, [137, 139, 149, 151, 157, 163, 167, 173])
  {
    hide SuccessiveFrom;
    EightPrimes(131, 137, 139, 149, 151, 157, 163, 167, 173);
  }

  lemma From173()
    ensures SuccessiveFrom(173, [179, 181, 191, 193, 197, 199, 211, 223])
  {
    hide SuccessiveFrom;
    EightPrimes(173, 179, 181, 191, 193, 197, 199, 211, 223);
  }

  lemma From223()
    ensures SuccessiveFrom(223, [227, 229, 233, 239, 241, 251, 257, 263])
  {
    hide SuccessiveFrom;
    EightPrimes(223, 227, 229, 233, 239, 241, 251, 257, 263);
  }

  lemma From263()
    ensures SuccessiveFrom(263, [269, 271, 277, 281, 283, 293, 307, 311])
  {
    hide SuccessiveFrom;
    EightPrimes(263, 269, 271, 277, 281, 283, 293, 307, 311);
  }
}
