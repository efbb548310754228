/** Arithmetic modulo a prime, as far as the curve code of `Edwards` and `Ed25519` needs it:
    congruence, Euclid's lemma, Fermat's little theorem, inverses, and the fact that 2 is a
    quadratic non-residue modulo a prime that is 5 modulo 8. */
module Field {

  predicate Cong(a: int, b: int, p: int)
    requires p > 0
  {
    (a - b) % p == 0
  }

  predicate Divides(a: int, b: int)
    requires a > 0
  {
    b % a == 0
  }

  ghost predicate Prime(p: int) {
    p >= 2 && forall a :: 2 <= a < p ==> !Divides(a, p)
  }

  function Pow(a: int, n: nat): int {
    if n == 0 then 1 else a * Pow(a, n - 1)
  }

  // ------------------------------------------------------------- congruence

  lemma Shuffle(a: int, u: int, n: int, v: int)
    ensures (a * n) * (u * v) == (a * u) * (n * v)
  {
    calc {
      (a * n) * (u * v);
      a * (n * (u * v));
      a * (u * (n * v));
      (a * u) * (n * v);
    }
  }

  lemma Swap(x: int, y: int, r: int)
    ensures x * (y * r) == y * (x * r)
  {
    assert x * (y * r) == (x * y) * r;
  }

  lemma MulLarge(k: int, p: int)
    requires p > 0
    ensures k >= 1 ==> k * p >= p
    ensures k <= -1 ==> k * p <= -p
  {
    if k >= 1 { assert (k - 1) * p >= 0; }
    if k <= -1 { assert (k + 1) * p <= 0; }
  }

  lemma MulMod(k: int, p: int)
    requires p > 0
    ensures (k * p) % p == 0 && (k * p) / p == k
  {
    var q, r := (k * p) / p, (k * p) % p;
    assert k * p == q * p + r;
    assert (k - q) * p == r;
    MulLarge(k - q, p);
  }

  lemma CongOf(a: int, b: int, k: int, p: int)
    requires p > 0 && a - b == k * p
    ensures Cong(a, b, p)
  {
    MulMod(k, p);
  }

  function Quot(a: int, b: int, p: int): (k: int)
    requires p > 0 && Cong(a, b, p)
    ensures a == b + k * p
  {
    (a - b) / p
  }

  lemma CongMod(a: int, b: int, p: int)
    requires p > 0
    ensures Cong(a, b, p) <==> a % p == b % p
  {
    if Cong(a, b, p) {
      var k := Quot(a, b, p);
      assert a == (b / p + k) * p + b % p by { assert (b / p + k) * p == (b / p) * p + k * p; }
      Euclidean(a, b / p + k, b % p, p);
    }
    if a % p == b % p {
      assert a - b == (a / p - b / p) * p by { assert (a / p - b / p) * p == (a / p) * p - (b / p) * p; }
      CongOf(a, b, a / p - b / p, p);
    }
  }

  lemma Euclidean(a: int, q: int, r: int, p: int)
    requires p > 0 && 0 <= r < p && a == q * p + r
    ensures a % p == r && a / p == q
  {
    var q', r' := a / p, a % p;
    assert (q - q') * p == r' - r by { assert (q - q') * p == q * p - q' * p; }
    MulLarge(q - q', p);
  }

  lemma CongRefl(a: int, p: int)
    requires p > 0
    ensures Cong(a, a, p) && Cong(a % p, a, p) && Cong(a, a % p, p)
  {
    CongOf(a, a, 0, p);
    CongOf(a, a % p, a / p, p);
    CongOf(a % p, a, -(a / p), p);
  }

  lemma CongSym(a: int, b: int, p: int)
    requires p > 0 && Cong(a, b, p)
    ensures Cong(b, a, p)
  {
    CongOf(b, a, -Quot(a, b, p), p);
  }

  lemma CongTrans(a: int, b: int, c: int, p: int)
    requires p > 0 && Cong(a, b, p) && Cong(b, c, p)
    ensures Cong(a, c, p)
  {
    var k, l := Quot(a, b, p), Quot(b, c, p);
    assert (k + l) * p == k * p + l * p;
    CongOf(a, c, k + l, p);
  }

  lemma CongAdd(a: int, a': int, b: int, b': int, p: int)
    requires p > 0 && Cong(a, a', p) && Cong(b, b', p)
    ensures Cong(a + b, a' + b', p) && Cong(a - b, a' - b', p)
  {
    var k, l := Quot(a, a', p), Quot(b, b', p);
    assert (k + l) * p == k * p + l * p;
    assert (k - l) * p == k * p - l * p;
    CongOf(a + b, a' + b', k + l, p);
    CongOf(a - b, a' - b', k - l, p);
  }

  lemma CongMul(a: int, a': int, b: int, b': int, p: int)
    requires p > 0 && Cong(a, a', p) && Cong(b, b', p)
    ensures Cong(a * b, a' * b', p)
  {
    var k, l := Quot(a, a', p), Quot(b, b', p);
    calc {
      a * b - a' * b';
      (a - a') * b + a' * (b - b');
      (k * p) * b + a' * (l * p);
      (k * b) * p + (a' * l) * p;
      (k * b + a' * l) * p;
    }
    CongOf(a * b, a' * b', k * b + a' * l, p);
  }

  lemma CongScale(c: int, a: int, a': int, p: int)
    requires p > 0 && Cong(a, a', p)
    ensures Cong(c * a, c * a', p)
  {
    CongRefl(c, p);
    CongMul(c, c, a, a', p);
  }

  lemma CongUnique(a: int, b: int, p: int)
    requires p > 0 && Cong(a, b, p) && 0 <= a < p && 0 <= b < p
    ensures a == b
  {
    CongMod(a, b, p);
    Euclidean(a, 0, a, p);
    Euclidean(b, 0, b, p);
  }

  // ------------------------------------------------------- Euclid and powers

  /** A prime that divides a product divides a factor: the descent replaces the factor `a` by
      the smaller remainder of `p` modulo `a`. */
  lemma {:induction false} EuclidBelow(a: int, b: int, p: int)
    requires Prime(p) && 1 <= a < p && Cong(a * b, 0, p)
    ensures Cong(b, 0, p)
    decreases a
  {
    if a > 1 {
      var q, r := p / a, p % a;
      assert !Divides(a, p);
      // r * b == p * b - q * (a * b), and p divides both parts
      CongOf(p * b, 0, b, p);
      CongScale(q, a * b, 0, p);
      CongAdd(p * b, 0, q * (a * b), q * 0, p);
      calc {
        p * b - q * (a * b);
        p * b - (q * a) * b;
        (p - q * a) * b;
        { assert p - q * a == r; }
        r * b;
      }
      EuclidBelow(r, b, p);
    }
  }

  lemma Euclid(a: int, b: int, p: int)
    requires Prime(p) && Cong(a * b, 0, p)
    ensures Cong(a, 0, p) || Cong(b, 0, p)
  {
    if !Cong(a, 0, p) {
      var r := a % p;
      CongRefl(a, p);
      CongRefl(b, p);
      CongMul(r, a, b, b, p);
      CongTrans(r * b, a * b, 0, p);
      EuclidBelow(r, b, p);
    }
  }

  lemma CancelLeft(c: int, a: int, b: int, p: int)
    requires Prime(p) && !Cong(c, 0, p) && Cong(c * a, c * b, p)
    ensures Cong(a, b, p)
  {
    assert c * a - c * b == c * (a - b);
    Euclid(c, a - b, p);
  }

  lemma {:induction false} PowAdd(a: int, m: nat, n: nat)
    ensures Pow(a, m + n) == Pow(a, m) * Pow(a, n)
  {
    if m > 0 {
      PowAdd(a, m - 1, n);
      assert a * (Pow(a, m - 1) * Pow(a, n)) == (a * Pow(a, m - 1)) * Pow(a, n);
    }
  }

  lemma {:induction false} PowMul(a: int, m: nat, n: nat)
    ensures m * n >= 0 && Pow(a, m * n) == Pow(Pow(a, m), n)
  {
    if n == 0 {
      assert m * n == 0;
    } else {
      PowMul(a, m, n - 1);
      assert m * n == m + m * (n - 1);
      PowAdd(a, m, m * (n - 1));
    }
  }

  lemma {:induction false} PowProduct(a: int, b: int, n: nat)
    ensures Pow(a * b, n) == Pow(a, n) * Pow(b, n)
  {
    if n > 0 {
      PowProduct(a, b, n - 1);
      Shuffle(a, Pow(a, n - 1), b, Pow(b, n - 1));
    }
  }

  lemma {:induction false} PowCong(a: int, b: int, n: nat, p: int)
    requires p > 0 && Cong(a, b, p)
    ensures Cong(Pow(a, n), Pow(b, n), p)
  {
    if n == 0 {
      CongRefl(1, p);
    } else {
      PowCong(a, b, n - 1, p);
      CongMul(a, b, Pow(a, n - 1), Pow(b, n - 1), p);
    }
  }

  lemma {:induction false} PowNonZero(a: int, n: nat, p: int)
    requires Prime(p) && !Cong(a, 0, p)
    ensures !Cong(Pow(a, n), 0, p)
  {
    if n == 0 {
      Euclidean(1, 0, 1, p);
    } else {
      PowNonZero(a, n - 1, p);
      if Cong(Pow(a, n), 0, p) {
        Euclid(a, Pow(a, n - 1), p);
      }
    }
  }

  lemma {:induction false} PowOne(n: nat)
    ensures Pow(1, n) == 1
  {
    if n > 0 { PowOne(n - 1); }
  }

  // ------------------------------------------------- Fermat's little theorem

  ghost function Pick<T>(s: set<T>): (x: T)
    requires s != {}
    ensures x in s
  {
    var x :| x in s;
    x
  }

  ghost function Product(s: set<int>): int {
    if s == {} then 1 else Pick(s) * Product(s - {Pick(s)})
  }

  lemma {:induction false} ProductRemove(s: set<int>, y: int)
    requires y in s
    ensures Product(s) == y * Product(s - {y})
    decreases |s|
  {
    var x := Pick(s);
    if x != y {
      ProductRemove(s - {x}, y);
      ProductRemove(s - {y}, x);
      assert s - {x} - {y} == s - {y} - {x};
      Swap(x, y, Product(s - {x} - {y}));
    }
  }

  ghost function UpTo(n: nat): set<int> {
    if n == 0 then {} else UpTo(n - 1) + {n}
  }

  lemma {:induction false} UpToMembers(n: nat)
    ensures forall i :: i in UpTo(n) <==> 1 <= i <= n
    ensures |UpTo(n)| == n
  {
    if n > 0 { UpToMembers(n - 1); }
  }

  ghost function Multiples(a: int, n: nat, p: int): set<int>
    requires p > 0
  {
    if n == 0 then {} else Multiples(a, n - 1, p) + {(a * n) % p}
  }

  lemma {:induction false} MultiplesMembers(a: int, n: nat, p: int, x: int) returns (i: int)
    requires p > 0 && x in Multiples(a, n, p)
    ensures 1 <= i <= n && Cong(a * i, x, p)
  {
    if x in Multiples(a, n - 1, p) {
      i := MultiplesMembers(a, n - 1, p, x);
    } else {
      i := n;
      CongRefl(a * n, p);
    }
  }

  /** The first `n` multiples of `a` are distinct and not zero modulo `p`. */
  lemma MultipleIsNew(a: int, n: nat, p: int)
    requires Prime(p) && !Cong(a, 0, p) && 1 <= n < p
    ensures (a * n) % p !in Multiples(a, n - 1, p) && (a * n) % p in UpTo(p - 1)
  {
    var x := (a * n) % p;
    CongRefl(a * n, p);
    UpToMembers(p - 1);
    if x in Multiples(a, n - 1, p) {
      var i := MultiplesMembers(a, n - 1, p, x);
      CongSym(a * i, x, p);
      CongTrans(a * n, x, a * i, p);
      CancelLeft(a, n, i, p);
      CongUnique(n, i, p);
    }
    if x == 0 {
      Euclid(a, n, p);
      CongUnique(n, 0, p);
    }
  }

  lemma {:induction false} MultiplesSize(a: int, n: nat, p: int)
    requires Prime(p) && !Cong(a, 0, p) && n < p
    ensures |Multiples(a, n, p)| == n && Multiples(a, n, p) <= UpTo(p - 1)
  {
    if n > 0 {
      MultiplesSize(a, n - 1, p);
      MultipleIsNew(a, n, p);
    }
  }

  lemma ProductUnfold(a: int, n: int, p: int)
    requires Prime(p) && !Cong(a, 0, p) && 1 <= n < p
    ensures Product(Multiples(a, n, p)) == (a * n) % p * Product(Multiples(a, n - 1, p))
    ensures Product(UpTo(n)) == n * Product(UpTo(n - 1))
  {
    MultipleIsNew(a, n, p);
    AddedFactor(Multiples(a, n - 1, p), (a * n) % p);
    UpToMembers(n - 1);
    AddedFactor(UpTo(n - 1), n);
  }

  /** The product of the first `n` multiples is a^n times the product of 1..n. */
  lemma {:induction false} MultiplesProduct(a: int, n: nat, p: int)
    requires Prime(p) && !Cong(a, 0, p) && n < p
    ensures Cong(Product(Multiples(a, n, p)), Pow(a, n) * Product(UpTo(n)), p)
  {
    if n == 0 {
      CongRefl(1, p);
    } else {
      MultiplesProduct(a, n - 1, p);
      ProductUnfold(a, n, p);
      ProductStep(a, n, Product(Multiples(a, n - 1, p)), Pow(a, n - 1), Product(UpTo(n - 1)), p);
    }
  }

  lemma ProductStep(a: int, n: int, t: int, u: int, f: int, p: int)
    requires p > 0 && Cong(t, u * f, p)
    ensures Cong(((a * n) % p) * t, (a * u) * (n * f), p)
  {
    CongRefl(a * n, p);
    CongMul((a * n) % p, a * n, t, u * f, p);
    Shuffle(a, u, n, f);
  }

  lemma AddedFactor(s: set<int>, y: int)
    requires y !in s
    ensures Product(s + {y}) == y * Product(s)
  {
    ProductRemove(s + {y}, y);
    assert s + {y} - {y} == s;
  }

  lemma {:induction false} FactorialNonZero(n: nat, p: int)
    requires Prime(p) && n < p
    ensures !Cong(Product(UpTo(n)), 0, p)
  {
    if n == 0 {
      Euclidean(1, 0, 1, p);
    } else {
      FactorialNonZero(n - 1, p);
      UpToMembers(n - 1);
      AddedFactor(UpTo(n - 1), n);
      if Cong(Product(UpTo(n)), 0, p) {
        Euclid(n, Product(UpTo(n - 1)), p);
        CongUnique(n, 0, p);
      }
    }
  }

  /** Fermat's little theorem. */
  lemma Fermat(a: int, p: int)
    requires Prime(p) && !Cong(a, 0, p)
    ensures Cong(Pow(a, p - 1), 1, p)
  {
    var s := Multiples(a, p - 1, p);
    MultiplesSize(a, p - 1, p);
    UpToMembers(p - 1);
    MultiplesProduct(a, p - 1, p);
    SubsetOfSameSize(s, UpTo(p - 1));
    var f := Product(UpTo(p - 1));
    FactorialNonZero(p - 1, p);
    CongSym(f, Pow(a, p - 1) * f, p);
    assert Pow(a, p - 1) * f == f * Pow(a, p - 1) && f == f * 1;
    CancelLeft(f, Pow(a, p - 1), 1, p);
  }

  lemma SubsetOfSameSize(s: set<int>, t: set<int>)
    requires s <= t && |s| == |t|
    ensures s == t
  {
    assert t == s + (t - s);
  }

  function Inv(a: int, p: int): int
    requires p >= 2
  {
    Pow(a, p - 2)
  }

  lemma InvIsInverse(a: int, p: int)
    requires Prime(p) && !Cong(a, 0, p)
    ensures Cong(a * Inv(a, p), 1, p) && !Cong(Inv(a, p), 0, p)
  {
    Fermat(a, p);
    PowNonZero(a, p - 2, p);
  }

  // ---------------------------------------------- squares and roots of unity

  ghost predicate Square(a: int, p: int)
    requires p > 0
  {
    exists x :: Cong(x * x, a, p)
  }

  /** One direction of Euler's criterion: a non-zero square has (p-1)/2-th power 1. */
  lemma SquarePower(a: int, p: int)
    requires Prime(p) && p % 2 == 1 && Square(a, p) && !Cong(a, 0, p)
    ensures Cong(Pow(a, (p - 1) / 2), 1, p)
  {
    var x :| Cong(x * x, a, p);
    var h := (p - 1) / 2;
    if Cong(x, 0, p) {
      CongMul(x, 0, x, x, p) by { CongRefl(x, p); }
      CongSym(x * x, a, p);
      CongTrans(a, x * x, 0 * x, p);
      assert false;
    }
    Fermat(x, p);
    PowMul(x, 2, h);
    assert Pow(x, 2) == x * x by { assert Pow(x, 1) == x * Pow(x, 0); }
    PowCong(x * x, a, h, p);
    CongSym(Pow(x * x, h), Pow(a, h), p);
    assert Pow(x, p - 1) == Pow(x * x, h);
    CongTrans(Pow(a, h), Pow(x * x, h), 1, p);
  }

  lemma RootsOfOne(c: int, p: int)
    requires Prime(p) && Cong(c * c, 1, p)
    ensures Cong(c, 1, p) || Cong(c, -1, p)
  {
    assert c * c - 1 == (c - 1) * (c + 1);
    Euclid(c - 1, c + 1, p);
  }

  // ------------------------------------- 2 modulo a prime that is 5 modulo 8

  function Evens(n: nat): int { if n == 0 then 1 else (2 * n) * Evens(n - 1) }

  function Odds(n: nat): int { if n == 0 then 1 else (2 * n - 1) * Odds(n - 1) }

  function Fact(n: nat): int { if n == 0 then 1 else n * Fact(n - 1) }

  function Mirrored(n: nat, p: int): int { if n == 0 then 1 else (p - (2 * n - 1)) * Mirrored(n - 1, p) }

  function Sign(n: nat): int { if n == 0 then 1 else -Sign(n - 1) }

  lemma {:induction false} EvensAndOdds(n: nat)
    ensures Fact(2 * n) == Evens(n) * Odds(n) && Evens(n) == Pow(2, n) * Fact(n)
  {
    if n > 0 {
      EvensAndOdds(n - 1);
      FactTwice(2 * n);
      Shuffle(2 * n, Evens(n - 1), 2 * n - 1, Odds(n - 1));
      Shuffle(2, Pow(2, n - 1), n, Fact(n - 1));
    }
  }

  lemma FactTwice(k: int)
    requires k >= 2
    ensures Fact(k) == (k * (k - 1)) * Fact(k - 2)
  {
    Regroup(k, k - 1, Fact(k - 2));
  }

  lemma Regroup(x: int, y: int, z: int)
    ensures x * (y * z) == (x * y) * z && x * (y * z) == (y * x) * z
  {
  }

  /** The top `j` even numbers below p = 4m+1 are p minus the first `j` odd numbers. */
  lemma {:induction false} EvensMirror(m: nat, j: nat, p: int)
    requires p == 4 * m + 1 && j <= m
    ensures Evens(2 * m) == Evens(2 * m - j) * Mirrored(j, p)
  {
    if j > 0 {
      EvensMirror(m, j - 1, p);
      var i := 2 * m - j + 1;
      assert 2 * i == p - (2 * j - 1);
      Regroup(Evens(i - 1), 2 * i, Mirrored(j - 1, p));
    }
  }

  lemma {:induction false} MirroredSign(n: nat, p: int)
    requires p > 0
    ensures Cong(Mirrored(n, p), Sign(n) * Odds(n), p)
  {
    if n == 0 {
      CongRefl(1, p);
    } else {
      MirroredSign(n - 1, p);
      NegatedFactor(2 * n - 1, Mirrored(n - 1, p), Sign(n - 1), Odds(n - 1), p);
    }
  }

  lemma NegatedFactor(k: int, x: int, s: int, o: int, p: int)
    requires p > 0 && Cong(x, s * o, p)
    ensures Cong((p - k) * x, (-s) * (k * o), p)
  {
    CongOf(p - k, -k, 1, p);
    CongMul(p - k, -k, x, s * o, p);
    Shuffle(-1, s, k, o);
    assert (-1 * k) * (s * o) == (-k) * (s * o);
  }

  lemma {:induction false} SignOdd(k: nat)
    ensures Sign(2 * k + 1) == -1
  {
    if k > 0 {
      SignOdd(k - 1);
      assert Sign(2 * k + 1) == -Sign(2 * k);
    }
  }

  lemma {:induction false} FactNonZero(n: nat, p: int)
    requires Prime(p) && n < p
    ensures !Cong(Fact(n), 0, p)
  {
    if n == 0 {
      Euclidean(1, 0, 1, p);
    } else {
      FactNonZero(n - 1, p);
      if Cong(Fact(n), 0, p) {
        Euclid(n, Fact(n - 1), p);
        CongUnique(n, 0, p);
      }
    }
  }

  lemma MinusOneFactor(w: int, f: int, e: int, x: int, o: int, p: int)
    requires Prime(p) && !Cong(f, 0, p)
    requires w * f == e * x && Cong(x, -1 * o, p) && f == e * o
    ensures Cong(w, -1, p)
  {
    CongScale(e, x, -1 * o, p);
    assert e * (-1 * o) == f * -1;
    assert f * w == e * x;
    CancelLeft(f, w, -1, p);
  }

  /** 2^((p-1)/2) is -1 modulo a prime that is 5 modulo 8 (a case of the second supplement to
      quadratic reciprocity, by Gauss's pairing of even and odd factors). */
  lemma TwoIsNonResidue(p: int, m: nat)
    requires Prime(p) && p % 8 == 5 && p == 4 * m + 1
    ensures Cong(Pow(2, 2 * m), -1, p)
  {
    EvensAndOdds(2 * m);
    EvensAndOdds(m);
    EvensMirror(m, m, p);
    MirroredSign(m, p);
    SignOdd((m - 1) / 2);
    FactNonZero(2 * m, p);
    MinusOneFactor(Pow(2, 2 * m), Fact(2 * m), Evens(m), Mirrored(m, p), Odds(m), p);
  }

  /** The constant 2^((p-1)/4) squares to -1 modulo such a prime. */
  lemma RootOfMinusOne(p: int, m: nat)
    requires Prime(p) && p % 8 == 5 && p == 4 * m + 1
    ensures Cong(Pow(2, m) * Pow(2, m), -1, p)
  {
    TwoIsNonResidue(p, m);
    assert Pow(2, 2 * m) == Pow(2, m) * Pow(2, m) by { PowAdd(2, m, m); }
  }
}
