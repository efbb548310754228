/** The twisted Edwards curve -x^2 + y^2 = 1 + d x^2 y^2 modulo p in affine coordinates: the
    addition law is defined everywhere when d is not a square, and it stays on the curve. */
module Edwards {
  import opened Field

  datatype Curve = Curve(p: int, d: int)

  datatype Affine = Affine(x: int, y: int)

  /** What the curve constants must satisfy; the modulus of the program is 2^255 - 19. */
  ghost predicate Good(c: Curve) {
    && Prime(c.p) && c.p % 8 == 5
    && !Square(c.d, c.p)
  }

  lemma SquareModFive(x: int)
    ensures (x * x) % 5 != 2
  {
    var q, r := x / 5, x % 5;
    assert x * x == 5 * (5 * (q * q) + 2 * (q * r)) + r * r by {
      assert x == 5 * q + r;
      assert (5 * q + r) * (5 * q + r) == 25 * (q * q) + 10 * (q * r) + r * r;
    }
    assert (x * x - r * r) % 5 == 0 by { MulMod(5 * (q * q) + 2 * (q * r), 5); }
    assert r * r == 0 || r * r == 1 || r * r == 4 || r * r == 9 || r * r == 16;
  }

  /** The smallest curve of this kind. */
  lemma SmallestGoodCurve()
    ensures Good(Curve(5, 2))
  {
    assert !Divides(2, 5) && !Divides(3, 5) && !Divides(4, 5);
    forall x ensures !Cong(x * x, 2, 5) { SquareModFive(x); }
  }

  predicate OnCurve(c: Curve, a: Affine)
    requires c.p > 0
  {
    Cong(a.y * a.y - a.x * a.x, 1 + c.d * ((a.x * a.y) * (a.x * a.y)), c.p)
  }

  /** The product that appears in both denominators of the addition law. */
  function Delta(c: Curve, a: Affine, b: Affine): int {
    c.d * ((a.x * a.y) * (b.x * b.y))
  }

  /** The affine addition law. */
  function Sum(c: Curve, a: Affine, b: Affine): Affine
    requires c.p >= 2
  {
    var delta := Delta(c, a, b);
    Affine((a.x * b.y + b.x * a.y) * Inv(1 + delta, c.p),
           (a.y * b.y + a.x * b.x) * Inv(1 - delta, c.p))
  }

  const NEUTRAL := Affine(0, 1)

  predicate Same(c: Curve, a: Affine, b: Affine)
    requires c.p > 0
  {
    Cong(a.x, b.x, c.p) && Cong(a.y, b.y, c.p)
  }

  // ------------------------------------------- polynomial identities over Z

  lemma DifferenceOfSquares(x1: int, y1: int, x2: int, y2: int)
    ensures (y1 * y2 + x1 * x2) * (y1 * y2 + x1 * x2) - (x1 * y2 + x2 * y1) * (x1 * y2 + x2 * y1)
         == (y1 * y1 - x1 * x1) * (y2 * y2 - x2 * x2)
  {
  }

  lemma SumOfSquares(x1: int, y1: int, x2: int, y2: int)
    ensures (y1 * y2 + x1 * x2) * (y1 * y2 + x1 * x2) + (x1 * y2 + x2 * y1) * (x1 * y2 + x2 * y1)
         == (y1 * y1 + x1 * x1) * (y2 * y2 + x2 * x2) + 4 * ((x1 * y1) * (x2 * y2))
  {
  }

  lemma CrossProduct(x1: int, y1: int, x2: int, y2: int)
    ensures (x1 * y2 + x2 * y1) * (y1 * y2 + x1 * x2)
         == (x1 * y1) * (x2 * x2 + y2 * y2) + (x2 * y2) * (x1 * x1 + y1 * y1)
  {
  }

  lemma SquareOfSum(m1: int, u: int, m2: int, v: int)
    ensures (m1 * u + m2 * v) * (m1 * u + m2 * v)
         == (m1 * m1) * (u * u) + (m2 * m2) * (v * v) + 2 * ((m1 * m2) * (u * v))
  {
  }

  lemma SquarePlus(x: int, y: int)
    ensures (x * x + y * y) * (x * x + y * y)
         == (y * y - x * x) * (y * y - x * x) + 4 * ((x * y) * (x * y))
  {
  }

  lemma ScaledDifference(h: int, e: int, c: int)
    ensures ((1 + c) * h) * ((1 + c) * h) - ((1 - c) * e) * ((1 - c) * e)
         == (1 + c * c) * (h * h - e * e) + 2 * c * (h * h + e * e)
    ensures ((1 - c) * (1 + c)) * ((1 - c) * (1 + c)) == (1 - c * c) * (1 - c * c)
  {
  }

  /** The cross product squared, in terms of n = (xy)^2 and s = y^2 - x^2. */
  lemma CrossSquared(x1: int, y1: int, x2: int, y2: int)
    ensures var e, h := x1 * y2 + x2 * y1, y1 * y2 + x1 * x2;
            var m1, m2 := x1 * y1, x2 * y2;
            var s1, s2 := y1 * y1 - x1 * x1, y2 * y2 - x2 * x2;
            var q := (y1 * y1 + x1 * x1) * (y2 * y2 + x2 * x2);
            (e * h) * (e * h) == (m1 * m1) * (s2 * s2) + (m2 * m2) * (s1 * s1)
                               + 8 * ((m1 * m1) * (m2 * m2)) + 2 * ((m1 * m2) * q)
  {
    var m1, m2 := x1 * y1, x2 * y2;
    var u, v := x2 * x2 + y2 * y2, x1 * x1 + y1 * y1;
    CrossProduct(x1, y1, x2, y2);
    SquareOfSum(m1, u, m2, v);
    SquarePlus(x1, y1);
    SquarePlus(x2, y2);
    var s1, s2 := y1 * y1 - x1 * x1, y2 * y2 - x2 * x2;
    assert (m1 * m1) * (s2 * s2 + 4 * (m2 * m2)) == (m1 * m1) * (s2 * s2) + 4 * ((m1 * m1) * (m2 * m2));
    assert (m2 * m2) * (s1 * s1 + 4 * (m1 * m1)) == (m2 * m2) * (s1 * s1) + 4 * ((m1 * m1) * (m2 * m2));
  }

  lemma SquareOfProduct(d: int, m1: int, m2: int)
    ensures (d * (m1 * m2)) * (d * (m1 * m2)) == (d * (m1 * m1)) * (d * (m2 * m2))
  {
  }

  lemma ProductOfSums(a: int, b: int)
    ensures (1 + a * b) * ((1 + a) * (1 + b)) == 1 + (a + b) + 2 * (a * b) + (a * b) * (a + b) + (a * b) * (a * b)
  {
    var q := a * b;
    assert (1 + a) * (1 + b) == 1 + (a + b) + q;
    assert (1 + q) * (1 + (a + b) + q) == (1 + (a + b) + q) + q * (1 + (a + b) + q);
    assert q * (1 + (a + b) + q) == q + q * (a + b) + q * q;
  }

  /** What is left of the curve equation of the sum when s1, s2 are 1 + d n1, 1 + d n2. */
  lemma Balance(d: int, m1: int, m2: int)
    ensures var n1, n2, c := m1 * m1, m2 * m2, d * (m1 * m2);
            var t1, t2 := 1 + d * n1, 1 + d * n2;
            (1 + c * c) * (t1 * t2) - d * (n1 * (t2 * t2) + n2 * (t1 * t1)) == (1 - c * c) * (1 - c * c)
  {
    var n1, n2, c := m1 * m1, m2 * m2, d * (m1 * m2);
    SquareOfProduct(d, m1, m2);
    BalanceOf(d, n1, n2, c * c);
  }

  lemma Distribute(d: int, u: int, v: int)
    ensures d * (u + v) == d * u + d * v
  {
  }

  lemma CollectBalance(whole: int, left: int, right: int, a: int, b: int, q: int)
    requires whole == 1 + (a + b) + 2 * q + q * (a + b) + q * q
    requires left == a + 2 * q + q * b && right == b + 2 * q + q * a
    ensures whole - (left + right) == (1 - q) * (1 - q)
  {
    Distribute(q, a, b);
  }

  lemma BalanceOf(d: int, n1: int, n2: int, q: int)
    requires q == (d * n1) * (d * n2)
    ensures var t1, t2 := 1 + d * n1, 1 + d * n2;
            (1 + q) * (t1 * t2) - d * (n1 * (t2 * t2) + n2 * (t1 * t1)) == (1 - q) * (1 - q)
  {
    var a, b := d * n1, d * n2;
    var u, v := n1 * ((1 + b) * (1 + b)), n2 * ((1 + a) * (1 + a));
    ProductOfSums(a, b);
    Expand(d, n1, n2);
    Expand(d, n2, n1);
    Commutes(a, b);
    CollectBalance((1 + q) * ((1 + a) * (1 + b)), d * u, d * v, a, b, q);
    Distribute(d, u, v);
  }

  lemma Commutes(a: int, b: int)
    ensures a * b == b * a
  {
  }

  lemma Expand(d: int, n1: int, n2: int)
    ensures d * (n1 * ((1 + d * n2) * (1 + d * n2)))
         == d * n1 + 2 * ((d * n1) * (d * n2)) + ((d * n1) * (d * n2)) * (d * n2)
  {
    var w := d * n2;
    assert d * (n1 * ((1 + w) * (1 + w))) == (d * n1) * ((1 + w) * (1 + w));
    assert (d * n1) * ((1 + w) * (1 + w)) == d * n1 + 2 * ((d * n1) * w) + ((d * n1) * w) * w;
  }

  // --------------------------------------------------- closure of the addition

  lemma CongSquare(a: int, a': int, p: int)
    requires p > 0 && Cong(a, a', p)
    ensures Cong(a * a, a' * a', p)
  {
    CongMul(a, a', a, a', p);
  }

  lemma LeftoverCong(d: int, n1: int, n2: int, k: int, s1: int, s2: int, t1: int, t2: int, p: int)
    requires p > 0 && Cong(s1, t1, p) && Cong(s2, t2, p)
    ensures Cong(k * (s1 * s2) - d * (n1 * (s2 * s2) + n2 * (s1 * s1)),
                 k * (t1 * t2) - d * (n1 * (t2 * t2) + n2 * (t1 * t1)), p)
  {
    CongMul(s1, t1, s2, t2, p);
    CongScale(k, s1 * s2, t1 * t2, p);
    CongSquare(s1, t1, p);
    CongSquare(s2, t2, p);
    CongScale(n1, s2 * s2, t2 * t2, p);
    CongScale(n2, s1 * s1, t1 * t1, p);
    CongAdd(n1 * (s2 * s2), n1 * (t2 * t2), n2 * (s1 * s1), n2 * (t1 * t1), p);
    CongScale(d, n1 * (s2 * s2) + n2 * (s1 * s1), n1 * (t2 * t2) + n2 * (t1 * t1), p);
    CongAdd(k * (s1 * s2), k * (t1 * t2),
            d * (n1 * (s2 * s2) + n2 * (s1 * s1)), d * (n1 * (t2 * t2) + n2 * (t1 * t1)), p);
  }

  /** The curve equation of the sum, cleared of denominators: an identity over the integers
      up to a remainder that the curve equations of the summands make vanish. */
  lemma SumRemainder(d: int, x1: int, y1: int, x2: int, y2: int)
    ensures var e, h, dl := x1 * y2 + x2 * y1, y1 * y2 + x1 * x2, d * ((x1 * y1) * (x2 * y2));
            var f, g := 1 - dl, 1 + dl;
            var n1, n2 := (x1 * y1) * (x1 * y1), (x2 * y2) * (x2 * y2);
            var s1, s2 := y1 * y1 - x1 * x1, y2 * y2 - x2 * x2;
            var left := (g * h) * (g * h) - (f * e) * (f * e) - (f * g) * (f * g) - d * ((e * h) * (e * h));
            var right := (1 + dl * dl) * (s1 * s2) - d * (n1 * (s2 * s2) + n2 * (s1 * s1));
            left == right - (1 - dl * dl) * (1 - dl * dl)
  {
    var e, h, m := x1 * y2 + x2 * y1, y1 * y2 + x1 * x2, (x1 * y1) * (x2 * y2);
    var dl := d * m;
    var n1, n2 := (x1 * y1) * (x1 * y1), (x2 * y2) * (x2 * y2);
    var s1, s2 := y1 * y1 - x1 * x1, y2 * y2 - x2 * x2;
    var q := (y1 * y1 + x1 * x1) * (y2 * y2 + x2 * x2);
    ScaledDifference(h, e, dl);
    DifferenceOfSquares(x1, y1, x2, y2);
    SumOfSquares(x1, y1, x2, y2);
    CrossSquared(x1, y1, x2, y2);
    Shuffle(x1 * y1, x2 * y2, x1 * y1, x2 * y2);
    Collect(d, m, n1 * (s2 * s2) + n2 * (s1 * s1), q);
  }

  lemma Collect(d: int, m: int, r: int, q: int)
    ensures 2 * (d * m) * (q + 4 * m) - d * (r + 8 * (m * m) + 2 * (m * q)) == -(d * r)
  {
  }

  lemma SumEquation(c: Curve, a: Affine, b: Affine)
    requires c.p > 0 && OnCurve(c, a) && OnCurve(c, b)
    ensures var e, h, dl := a.x * b.y + b.x * a.y, a.y * b.y + a.x * b.x, Delta(c, a, b);
            var f, g := 1 - dl, 1 + dl;
            Cong((g * h) * (g * h) - (f * e) * (f * e), (f * g) * (f * g) + c.d * ((e * h) * (e * h)), c.p)
  {
    var d, p, m1, m2 := c.d, c.p, a.x * a.y, b.x * b.y;
    var dl, n1, n2 := d * (m1 * m2), m1 * m1, m2 * m2;
    var s1, s2 := a.y * a.y - a.x * a.x, b.y * b.y - b.x * b.x;
    var t1, t2 := 1 + d * n1, 1 + d * n2;
    SumRemainder(d, a.x, a.y, b.x, b.y);
    Balance(d, m1, m2);
    LeftoverCong(d, n1, n2, 1 + dl * dl, s1, s2, t1, t2, p);
  }

  // ------------------------------------------- the denominators are never zero

  lemma ExpandedSquare(i: int, x: int, k: int, y: int)
    ensures (i * x + k * y) * (i * x + k * y) == (i * i) * (x * x) + (k * k) * (y * y) + 2 * ((i * k) * (x * y))
  {
  }

  lemma RotatedSquare(i: int, x: int, k: int, y: int, p: int)
    requires p > 0 && Cong(i * i, -1, p) && Cong(k * k, 1, p)
    ensures Cong((i * x + k * y) * (i * x + k * y), y * y - x * x + 2 * ((i * k) * (x * y)), p)
  {
    ExpandedSquare(i, x, k, y);
    CongRefl(x * x, p);
    CongRefl(y * y, p);
    CongMul(i * i, -1, x * x, x * x, p);
    CongMul(k * k, 1, y * y, y * y, p);
    CongAdd((i * i) * (x * x), -1 * (x * x), (k * k) * (y * y), 1 * (y * y), p);
    CongRefl(2 * ((i * k) * (x * y)), p);
    CongAdd((i * i) * (x * x) + (k * k) * (y * y), -1 * (x * x) + 1 * (y * y),
            2 * ((i * k) * (x * y)), 2 * ((i * k) * (x * y)), p);
  }

  lemma DeltaExpansion(d: int, m1: int, m2: int, i: int)
    ensures (d * (m1 * m1)) * (1 + d * (m2 * m2) + 2 * (i * m2))
         == d * (m1 * m1) + (d * (m1 * m2)) * (d * (m1 * m2)) + 2 * ((i * (d * (m1 * m2))) * m1)
  {
    var dl := d * (m1 * m2);
    assert (d * (m1 * m1)) * (d * (m2 * m2)) == dl * dl by {
      Shuffle(d, d, m1 * m1, m2 * m2);
      Shuffle(m1, m1, m2, m2);
      Shuffle(d, d, m1 * m2, m1 * m2);
    }
    assert (d * (m1 * m1)) * (i * m2) == (i * dl) * m1 by {
      assert (d * (m1 * m1)) * m2 == dl * m1;
      Swap(d * (m1 * m1), i, m2);
      Regroup(i, dl, m1);
    }
  }

  /** If delta is 1 or -1, then d times one square is another square. */
  lemma DeltaGivesSquare(c: Curve, a: Affine, b: Affine, i: int)
    requires c.p > 0 && OnCurve(c, a) && OnCurve(c, b) && Cong(i * i, -1, c.p)
    requires Cong(Delta(c, a, b) * Delta(c, a, b), 1, c.p)
    ensures var w, v := (a.x * a.y) * (i * b.x + b.y), i * a.x + Delta(c, a, b) * a.y;
            Cong(c.d * (w * w), v * v, c.p)
  {
    var d, p, m1, m2, dl := c.d, c.p, a.x * a.y, b.x * b.y, Delta(c, a, b);
    var r, s := i * b.x + b.y, b.y * b.y - b.x * b.x;
    var dn := d * (m1 * m1);
    assert d * ((m1 * r) * (m1 * r)) == dn * (r * r) by {
      Shuffle(m1, m1, r, r);
      Regroup(d, m1 * m1, r * r);
    }
    // r^2 is 1 + d n2 + 2 i m2
    CongRefl(1, p);
    RotatedSquare(i, b.x, 1, b.y, p);
    CongRefl(2 * (i * m2), p);
    CongAdd(s, 1 + d * (m2 * m2), 2 * (i * m2), 2 * (i * m2), p);
    CongTrans(r * r, s + 2 * (i * m2), 1 + d * (m2 * m2) + 2 * (i * m2), p);
    CongScale(dn, r * r, 1 + d * (m2 * m2) + 2 * (i * m2), p);
    DeltaExpansion(d, m1, m2, i);
    // and so is v^2, because d n1 + 1 is y1^2 - x1^2
    var t := 2 * ((i * dl) * m1);
    CongRefl(dn + t, p);
    CongAdd(dn + t, dn + t, dl * dl, 1, p);
    CongTrans(dn * (r * r), dn + t + dl * dl, dn + t + 1, p);
    CongRefl(t, p);
    CongAdd(a.y * a.y - a.x * a.x, 1 + dn, t, t, p);
    CongSym(a.y * a.y - a.x * a.x + t, 1 + dn + t, p);
    RotatedSquare(i, a.x, dl, a.y, p);
    CongSym((i * a.x + dl * a.y) * (i * a.x + dl * a.y), a.y * a.y - a.x * a.x + t, p);
    CongTrans(1 + dn + t, a.y * a.y - a.x * a.x + t, (i * a.x + dl * a.y) * (i * a.x + dl * a.y), p);
    CongTrans(dn * (r * r), dn + t + 1, (i * a.x + dl * a.y) * (i * a.x + dl * a.y), p);
  }

  lemma QuotientIsRoot(d: int, w: int, v: int, p: int)
    requires Prime(p) && Cong(d * (w * w), v * v, p) && !Cong(w, 0, p)
    ensures Square(d, p)
  {
    var x := v * Inv(w, p);
    InvIsInverse(w, p);
    var j := w * Inv(w, p);
    CongSquare(j, 1, p);
    CongRefl(d, p);
    CongMul(d, d, j * j, 1, p);
    var n := Inv(w, p) * Inv(w, p);
    CongRefl(n, p);
    CongMul(d * (w * w), v * v, n, n, p);
    assert (d * (w * w)) * n == d * (j * j) by {
      Shuffle(w, w, Inv(w, p), Inv(w, p));
      Regroup(d, w * w, n);
    }
    assert (v * v) * n == x * x by { Shuffle(v, v, Inv(w, p), Inv(w, p)); }
    CongSym(d * (j * j), x * x, p);
    CongTrans(x * x, d * (j * j), d, p);
  }

  lemma NonZeroProduct(a: int, b: int, p: int)
    requires Prime(p) && !Cong(a, 0, p) && !Cong(b, 0, p)
    ensures !Cong(a * b, 0, p)
  {
    if Cong(a * b, 0, p) { Euclid(a, b, p); }
  }

  lemma ZeroProduct(a: int, b: int, p: int)
    requires p > 0 && (Cong(a, 0, p) || Cong(b, 0, p))
    ensures Cong(a * b, 0, p)
  {
    CongRefl(a, p);
    CongRefl(b, p);
    if Cong(a, 0, p) { CongMul(a, 0, b, b, p); } else { CongMul(a, a, b, 0, p); }
  }

  /** For a non-square d the product delta is neither 1 nor -1, so the addition law applies to
      every pair of points of the curve. */
  lemma Complete(c: Curve, a: Affine, b: Affine)
    requires Good(c) && OnCurve(c, a) && OnCurve(c, b)
    ensures !Cong(1 + Delta(c, a, b), 0, c.p) && !Cong(1 - Delta(c, a, b), 0, c.p)
  {
    var p, dl := c.p, Delta(c, a, b);
    if Cong(1 + dl, 0, p) || Cong(1 - dl, 0, p) {
      assert dl * dl - 1 == -((1 + dl) * (1 - dl));
      ZeroProduct(1 + dl, 1 - dl, p);
      CongOf(dl * dl, 1, -Quot((1 + dl) * (1 - dl), 0, p), p);
      UnitDelta(c, a, b);
    }
  }

  lemma UnitDelta(c: Curve, a: Affine, b: Affine)
    requires Good(c) && OnCurve(c, a) && OnCurve(c, b)
    ensures !Cong(Delta(c, a, b) * Delta(c, a, b), 1, c.p)
  {
    hide Cong, OnCurve, Pow, Square;
    if Cong(Delta(c, a, b) * Delta(c, a, b), 1, c.p) {
      var p := c.p;
      var m := (p - 1) / 4;
      var i := Pow(2, m);
      RootOfMinusOne(p, m);
      assert (-i) * (-i) == i * i;
      DeltaFactors(c, a.x * a.y, b.x * b.y);
      UnitDeltaWith(c, a, b, i);
      UnitDeltaWith(c, a, b, -i);
      OppositeSlopes(i, b.x, b.y, p);
    }
  }

  lemma UnitDeltaWith(c: Curve, a: Affine, b: Affine, i: int)
    requires Good(c) && OnCurve(c, a) && OnCurve(c, b) && Cong(i * i, -1, c.p)
    requires Cong(Delta(c, a, b) * Delta(c, a, b), 1, c.p) && !Cong(a.x * a.y, 0, c.p)
    ensures Cong(i * b.x + b.y, 0, c.p)
  {
    if !Cong(i * b.x + b.y, 0, c.p) {
      DeltaGivesSquare(c, a, b, i);
      NonZeroProduct(a.x * a.y, i * b.x + b.y, c.p);
      QuotientIsRoot(c.d, (a.x * a.y) * (i * b.x + b.y), i * a.x + Delta(c, a, b) * a.y, c.p);
    }
  }

  lemma OppositeSlopes(i: int, x: int, y: int, p: int)
    requires Prime(p) && p % 2 == 1 && Cong(i * x + y, 0, p) && Cong((-i) * x + y, 0, p)
    ensures Cong(x * y, 0, p)
  {
    CongAdd(i * x + y, 0, (-i) * x + y, 0, p);
    assert (i * x + y) + ((-i) * x + y) == 2 * y;
    Euclid(2, y, p);
    if Cong(2, 0, p) { Euclidean(2, 0, 2, p); }
    ZeroProduct(x, y, p);
  }

  lemma DeltaFactors(c: Curve, m1: int, m2: int)
    requires Good(c) && Cong((c.d * (m1 * m2)) * (c.d * (m1 * m2)), 1, c.p)
    ensures !Cong(m1, 0, c.p) && !Cong(m2, 0, c.p)
  {
    var p, dl := c.p, c.d * (m1 * m2);
    if Cong(m1, 0, p) || Cong(m2, 0, p) {
      ZeroProduct(m1, m2, p);
      ZeroProduct(c.d, m1 * m2, p);
      ZeroProduct(dl, dl, p);
      CongSym(dl * dl, 1, p);
      CongTrans(1, dl * dl, 0, p);
      CongUnique(1, 0, p);
    }
  }

  // --------------------------------------------------------- the group law

  lemma QuotientTimes(n: int, q: int, p: int)
    requires Prime(p) && !Cong(q, 0, p)
    ensures Cong((n * Inv(q, p)) * q, n, p)
  {
    InvIsInverse(q, p);
    CongScale(n, q * Inv(q, p), 1, p);
    assert (n * Inv(q, p)) * q == n * (q * Inv(q, p));
  }

  /** Divides the cleared equation of `SumEquation` by the square of the denominators. */
  lemma DivideOut(x: int, y: int, e: int, h: int, f: int, g: int, d: int, p: int)
    requires Prime(p) && !Cong(f, 0, p) && !Cong(g, 0, p)
    requires Cong(x * g, e, p) && Cong(y * f, h, p)
    requires Cong((g * h) * (g * h) - (f * e) * (f * e), (f * g) * (f * g) + d * ((e * h) * (e * h)), p)
    ensures Cong(y * y - x * x, 1 + d * ((x * y) * (x * y)), p)
  {
    var k := f * g;
    var kk := k * k;
    Scaled(g, y * f, h, p);
    Scaled(f, x * g, e, p);
    CongMul(x * g, e, y * f, h, p);
    CongSquare((x * g) * (y * f), e * h, p);
    CongScale(d, ((x * g) * (y * f)) * ((x * g) * (y * f)), (e * h) * (e * h), p);
    CongAdd((g * (y * f)) * (g * (y * f)), (g * h) * (g * h), (f * (x * g)) * (f * (x * g)), (f * e) * (f * e), p);
    CongRefl(kk, p);
    CongAdd(kk, kk, d * (((x * g) * (y * f)) * ((x * g) * (y * f))), d * ((e * h) * (e * h)), p);
    var left := (g * (y * f)) * (g * (y * f)) - (f * (x * g)) * (f * (x * g));
    var right := kk + d * (((x * g) * (y * f)) * ((x * g) * (y * f)));
    CongTrans(left, (g * h) * (g * h) - (f * e) * (f * e), kk + d * ((e * h) * (e * h)), p);
    CongSym(right, kk + d * ((e * h) * (e * h)), p);
    CongTrans(left, kk + d * ((e * h) * (e * h)), right, p);
    Factored(x, y, f, g, d);
    NonZeroProduct(f, g, p);
    NonZeroProduct(k, k, p);
    CancelLeft(kk, y * y - x * x, 1 + d * ((x * y) * (x * y)), p);
  }

  lemma Scaled(g: int, a: int, b: int, p: int)
    requires p > 0 && Cong(a, b, p)
    ensures Cong((g * a) * (g * a), (g * b) * (g * b), p)
  {
    CongScale(g, a, b, p);
    CongSquare(g * a, g * b, p);
  }

  lemma Factored(x: int, y: int, f: int, g: int, d: int)
    ensures (g * (y * f)) * (g * (y * f)) - (f * (x * g)) * (f * (x * g))
         == ((f * g) * (f * g)) * (y * y - x * x)
    ensures (f * g) * (f * g) + d * (((x * g) * (y * f)) * ((x * g) * (y * f)))
         == ((f * g) * (f * g)) * (1 + d * ((x * y) * (x * y)))
  {
    var k := f * g;
    assert g * (y * f) == k * y && f * (x * g) == k * x && (x * g) * (y * f) == k * (x * y);
    Shuffle(k, k, y, y);
    Shuffle(k, k, x, x);
    Shuffle(k, k, x * y, x * y);
    assert (k * y) * (k * y) == (k * k) * (y * y) && (k * x) * (k * x) == (k * k) * (x * x);
    assert d * ((k * (x * y)) * (k * (x * y))) == (k * k) * (d * ((x * y) * (x * y))) by {
      Swap(d, k * k, (x * y) * (x * y));
    }
  }

  /** The affine sum of two curve points is a curve point. */
  lemma SumOnCurve(c: Curve, a: Affine, b: Affine)
    requires Good(c) && OnCurve(c, a) && OnCurve(c, b)
    ensures OnCurve(c, Sum(c, a, b))
  {
    var p, dl, s := c.p, Delta(c, a, b), Sum(c, a, b);
    var e, h := a.x * b.y + b.x * a.y, a.y * b.y + a.x * b.x;
    Complete(c, a, b);
    SumEquation(c, a, b);
    QuotientTimes(e, 1 + dl, p);
    QuotientTimes(h, 1 - dl, p);
    DivideOut(s.x, s.y, e, h, 1 - dl, 1 + dl, c.d, p);
  }

  lemma InvCong(a: int, b: int, p: int)
    requires p >= 2 && Cong(a, b, p)
    ensures Cong(Inv(a, p), Inv(b, p), p)
  {
    PowCong(a, b, p - 2, p);
  }

  /** The sum depends only on the residues of its arguments. */
  lemma SumRespectsSame(c: Curve, a: Affine, a': Affine, b: Affine, b': Affine)
    requires c.p >= 2 && Same(c, a, a') && Same(c, b, b')
    ensures Same(c, Sum(c, a, b), Sum(c, a', b'))
  {
    var p := c.p;
    var dl, dl' := Delta(c, a, b), Delta(c, a', b');
    CongMul(a.x, a'.x, a.y, a'.y, p);
    CongMul(b.x, b'.x, b.y, b'.y, p);
    CongMul(a.x * a.y, a'.x * a'.y, b.x * b.y, b'.x * b'.y, p);
    CongScale(c.d, (a.x * a.y) * (b.x * b.y), (a'.x * a'.y) * (b'.x * b'.y), p);
    CongRefl(1, p);
    CongAdd(1, 1, dl, dl', p);
    InvCong(1 + dl, 1 + dl', p);
    InvCong(1 - dl, 1 - dl', p);
    CongMul(a.x, a'.x, b.y, b'.y, p);
    CongMul(b.x, b'.x, a.y, a'.y, p);
    CongMul(a.y, a'.y, b.y, b'.y, p);
    CongMul(a.x, a'.x, b.x, b'.x, p);
    CongAdd(a.x * b.y, a'.x * b'.y, b.x * a.y, b'.x * a'.y, p);
    CongAdd(a.y * b.y, a'.y * b'.y, a.x * b.x, a'.x * b'.x, p);
    CongMul(a.x * b.y + b.x * a.y, a'.x * b'.y + b'.x * a'.y, Inv(1 + dl, p), Inv(1 + dl', p), p);
    CongMul(a.y * b.y + a.x * b.x, a'.y * b'.y + a'.x * b'.x, Inv(1 - dl, p), Inv(1 - dl', p), p);
  }

  /** (0, 1) is neutral. */
  lemma NeutralSum(c: Curve, a: Affine)
    requires c.p >= 2
    ensures Sum(c, NEUTRAL, a) == a && OnCurve(c, NEUTRAL)
  {
    PowOne(c.p - 2);
    assert Delta(c, NEUTRAL, a) == 0;
    CongRefl(1, c.p);
  }
}
