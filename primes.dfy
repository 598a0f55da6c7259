/**
 * The number theory both task hubs' prime generators are measured against:
 * primality by definition, "the first n primes", and Euclid's argument that
 * there is always a further prime, which is what makes a generator loop end.
 */
module Primes {

  predicate Prime(p: int) {
    p >= 2 && forall d :: 2 <= d < p ==> p % d != 0
  }

  /** `ps` is the first max(n, 0) primes in increasing order. */
  predicate FirstPrimes(ps: seq<int>, n: int) {
    && |ps| == (if n < 0 then 0 else n)
    && (forall k :: 0 <= k < |ps| ==> Prime(ps[k]))
    && (forall j, k :: 0 <= j < k < |ps| ==> ps[j] < ps[k])
    && (|ps| > 0 ==> forall p :: 0 <= p < ps[|ps| - 1] && Prime(p) ==> p in ps)
  }

  /** A non-empty list of the first primes starts at 2. */
  lemma FirstPrimesStartAtTwo(ps: seq<int>, n: int)
    requires FirstPrimes(ps, n) && n >= 1
    ensures ps[0] == 2
  {
    assert Prime(2);
  }

  /** There is only one list of the first n primes. */
  lemma FirstPrimesUnique(ps: seq<int>, qs: seq<int>, n: int)
    requires FirstPrimes(ps, n) && FirstPrimes(qs, n)
    ensures ps == qs
  {
    AgreeUpTo(ps, qs, n, |ps|);
  }

  lemma {:induction false} AgreeUpTo(ps: seq<int>, qs: seq<int>, n: int, k: nat)
    requires FirstPrimes(ps, n) && FirstPrimes(qs, n) && k <= |ps|
    ensures forall j :: 0 <= j < k ==> ps[j] == qs[j]
  {
    if k > 0 {
      AgreeUpTo(ps, qs, n, k - 1);
      NextAgrees(ps, qs, n, k - 1);
    }
  }

  /** Two lists of the first primes that agree before index i agree at i. */
  lemma NextAgrees(ps: seq<int>, qs: seq<int>, n: int, i: nat)
    requires FirstPrimes(ps, n) && FirstPrimes(qs, n) && i < |ps|
    requires forall j :: 0 <= j < i ==> ps[j] == qs[j]
    ensures ps[i] == qs[i]
  {
    assert |qs| == |ps| && Prime(ps[i]) && Prime(qs[i]);
    if i > 0 {
      assert ps[i - 1] == qs[i - 1];
      assert ps[i - 1] < ps[i] && qs[i - 1] < qs[i];
    }
    LeastAbove(ps, n, i, qs[i]);
    LeastAbove(qs, n, i, ps[i]);
  }

  /**
   * Each element is the least prime above its predecessor: no prime that
   * lies between them can be smaller than it.
   */
  lemma LeastAbove(ps: seq<int>, n: int, k: nat, p: int)
    requires FirstPrimes(ps, n) && k < |ps| && Prime(p)
    requires k == 0 || ps[k - 1] < p
    ensures ps[k] <= p
  {
    assert p < ps[k] ==> p < ps[|ps| - 1] by {
      assert k < |ps| - 1 ==> ps[k] < ps[|ps| - 1];
    }
  }

  // ---------------------------------------------------------------------
  // There is always a larger prime

  function Factorial(m: nat): (f: nat)
    ensures f >= 1
  {
    if m == 0 then 1 else m * Factorial(m - 1)
  }

  /** Euclidean division leaves no remainder on a multiple, and 1 on a multiple plus one. */
  lemma MultipleMod(q: nat, d: int)
    requires d >= 1
    ensures (q * d) % d == 0 && (q * d + 1) % d == (if d == 1 then 0 else 1)
  {
    var x := q * d;
    var t := q - x / d;
    assert d * t == x % d;
    assert t >= 1 ==> d * t >= d * 1;
    assert t <= -1 ==> d * t <= d * -1;
    var y := x + 1;
    var u := q - y / d;
    assert d * u + 1 == y % d;
    assert u >= 1 ==> d * u >= d * 1;
    assert u <= -1 ==> d * u <= d * -1;
  }

  /** A number Euclidean division by `d` leaves no remainder on is a multiple of `d`. */
  lemma Quotient(x: nat, d: int)
    requires d >= 1 && x % d == 0
    ensures x == (x / d) * d && x / d >= 0
  {
  }

  lemma MulAssoc(a: int, b: int, c: int)
    ensures a * (b * c) == (a * b) * c
  {
  }

  lemma {:induction false} FactorialDivisible(m: nat, d: int)
    requires 1 <= d <= m
    ensures Factorial(m) % d == 0
  {
    if d == m {
      MultipleMod(Factorial(m - 1), m);
      assert Factorial(m) == Factorial(m - 1) * m;
    } else {
      FactorialDivisible(m - 1, d);
      var k := Factorial(m - 1) / d;
      Quotient(Factorial(m - 1), d);
      MulAssoc(m, k, d);
      MultipleMod(m * k, d);
    }
  }

  /** The least divisor of `x` that is at least 2, searching upward from `d`. */
  function LeastDivisorFrom(x: int, d: int): (r: int)
    requires 2 <= d <= x
    requires forall e :: 2 <= e < d ==> x % e != 0
    ensures d <= r <= x && x % r == 0
    ensures forall e :: 2 <= e < r ==> x % e != 0
    decreases x - d
  {
    if x % d == 0 then d
    else
      ModSelf(x);
      assert d < x;
      LeastDivisorFrom(x, d + 1)
  }

  lemma ModSelf(x: int)
    requires x >= 1
    ensures x % x == 0
  {
    MultipleMod(1, x);
  }

  lemma DividesTransitive(x: int, r: int, e: int)
    requires x >= 1 && r >= 1 && e >= 1
    requires x % r == 0 && r % e == 0
    ensures x % e == 0
  {
    var a := x / r;
    var b := r / e;
    Quotient(x, r);
    Quotient(r, e);
    MulAssoc(a, b, e);
    MultipleMod(a * b, e);
  }

  /** The least divisor of a number at least 2 is prime. */
  lemma LeastDivisorPrime(x: int)
    requires x >= 2
    ensures Prime(LeastDivisorFrom(x, 2))
  {
    var r := LeastDivisorFrom(x, 2);
    forall e | 2 <= e < r ensures r % e != 0 {
      if r % e == 0 {
        DividesTransitive(x, r, e);
      }
    }
  }

  /** Euclid: m! + 1 has a prime divisor, and that prime is larger than m. */
  lemma PrimeAbove(m: nat)
    ensures Prime(LeastDivisorFrom(Factorial(m) + 1, 2)) && LeastDivisorFrom(Factorial(m) + 1, 2) > m
  {
    var x := Factorial(m) + 1;
    LeastDivisorPrime(x);
    var r := LeastDivisorFrom(x, 2);
    if r <= m {
      FactorialDivisible(m, r);
      Quotient(Factorial(m), r);
      MultipleMod(Factorial(m) / r, r);
    }
  }

  /** A prime at least `m`, naming the bound a generator loop runs towards. */
  function PrimeAtLeast(m: nat): (p: int)
    ensures Prime(p) && p >= m
  {
    PrimeAbove(m);
    LeastDivisorFrom(Factorial(m) + 1, 2)
  }
}
