/** Point arithmetic of the strict signature check: extended coordinates, unified addition,
    scalar multiplication, the cofactor test, and decoding of 32-byte point encodings
    (sections 5.1.3 and 5.1.4 of RFC 8032). */
module Ed25519 {
  import opened Field
  import opened Edwards
  import opened GroupLaw

  datatype Point = Point(x: int, y: int, z: int, t: int)

  const IDENTITY := Point(0, 1, 1, 0)

  /** `pt` stands for the affine point (X/Z, Y/Z), with T = XY/Z. */
  predicate Represents(c: Curve, pt: Point, a: Affine)
    requires c.p > 0
  {
    && !Cong(pt.z, 0, c.p)
    && Cong(pt.x, a.x * pt.z, c.p)
    && Cong(pt.y, a.y * pt.z, c.p)
    && Cong(pt.t, (a.x * a.y) * pt.z, c.p)
  }

  /** The equations that extended coordinates satisfy. */
  predicate Extended(c: Curve, pt: Point)
    requires c.p > 0
  {
    && !Cong(pt.z, 0, c.p)
    && Cong(pt.y * pt.y - pt.x * pt.x, pt.z * pt.z + c.d * (pt.t * pt.t), c.p)
    && Cong(pt.x * pt.y, pt.z * pt.t, c.p)
  }

  function ToAffine(c: Curve, pt: Point): Affine
    requires c.p >= 2
  {
    Affine(pt.x * Inv(pt.z, c.p), pt.y * Inv(pt.z, c.p))
  }

  function Add(c: Curve, p1: Point, p2: Point): Point
    requires c.p > 0
  {
    var p := c.p;
    var a := (p1.y - p1.x) * (p2.y - p2.x) % p;
    var b := (p1.y + p1.x) * (p2.y + p2.x) % p;
    var cc := 2 * c.d * p1.t * p2.t % p;
    var d := 2 * p1.z * p2.z % p;
    var e, f, g, h := b - a, d - cc, d + cc, b + a;
    Point(e * f % p, g * h % p, f * g % p, e * h % p)
  }

  // ------------------------------------------------------------- addition

  lemma ScaledProduct(a: int, b: int, x: int, y: int, z1: int, z2: int, p: int)
    requires p > 0 && Cong(a, x * z1, p) && Cong(b, y * z2, p)
    ensures Cong(a * b, (x * y) * (z1 * z2), p)
    ensures Cong(a * b % p, (x * y) * (z1 * z2), p)
  {
    CongMul(a, x * z1, b, y * z2, p);
    Shuffle(x, z1, y, z2);
    CongRefl(a * b, p);
    CongTrans(a * b % p, a * b, (x * y) * (z1 * z2), p);
  }

  /** The intermediate values E, F, G, H of the addition, in terms of the affine points. */
  lemma AddParts(c: Curve, p1: Point, p2: Point, a: Affine, b: Affine)
    requires c.p > 0 && Represents(c, p1, a) && Represents(c, p2, b)
    ensures var p, k, dl := c.p, 2 * (p1.z * p2.z), Delta(c, a, b);
            var aa := (p1.y - p1.x) * (p2.y - p2.x) % p;
            var bb := (p1.y + p1.x) * (p2.y + p2.x) % p;
            var cc := 2 * c.d * p1.t * p2.t % p;
            var dd := 2 * p1.z * p2.z % p;
            && Cong(bb - aa, (a.x * b.y + b.x * a.y) * k, p)
            && Cong(dd - cc, (1 - dl) * k, p)
            && Cong(dd + cc, (1 + dl) * k, p)
            && Cong(bb + aa, (a.y * b.y + a.x * b.x) * k, p)
  {
    var p, z1, z2, dl := c.p, p1.z, p2.z, Delta(c, a, b);
    var z := z1 * z2;
    var aa := (p1.y - p1.x) * (p2.y - p2.x) % p;
    var bb := (p1.y + p1.x) * (p2.y + p2.x) % p;
    SumsAndDifferences(p1.x, p1.y, z1, a.x, a.y, p);
    SumsAndDifferences(p2.x, p2.y, z2, b.x, b.y, p);
    ScaledProduct(p1.y - p1.x, p2.y - p2.x, a.y - a.x, b.y - b.x, z1, z2, p);
    ScaledProduct(p1.y + p1.x, p2.y + p2.x, a.y + a.x, b.y + b.x, z1, z2, p);
    CongAdd(bb, ((a.y + a.x) * (b.y + b.x)) * z, aa, ((a.y - a.x) * (b.y - b.x)) * z, p);
    CrossTerms(a.x, a.y, b.x, b.y, z);
    DenominatorParts(c, p1, p2, a, b);
  }

  lemma SumsAndDifferences(x: int, y: int, z: int, ax: int, ay: int, p: int)
    requires p > 0 && Cong(x, ax * z, p) && Cong(y, ay * z, p)
    ensures Cong(y - x, (ay - ax) * z, p) && Cong(y + x, (ay + ax) * z, p)
  {
    CongAdd(y, ay * z, x, ax * z, p);
    assert ay * z - ax * z == (ay - ax) * z && ay * z + ax * z == (ay + ax) * z;
  }

  lemma CrossTerms(x1: int, y1: int, x2: int, y2: int, z: int)
    ensures ((y1 + x1) * (y2 + x2)) * z - ((y1 - x1) * (y2 - x2)) * z == (x1 * y2 + x2 * y1) * (2 * z)
    ensures ((y1 + x1) * (y2 + x2)) * z + ((y1 - x1) * (y2 - x2)) * z == (y1 * y2 + x1 * x2) * (2 * z)
  {
    var u, v := (y1 + x1) * (y2 + x2), (y1 - x1) * (y2 - x2);
    assert u - v == 2 * (x1 * y2 + x2 * y1) && u + v == 2 * (y1 * y2 + x1 * x2);
    assert u * z - v * z == (u - v) * z && u * z + v * z == (u + v) * z;
  }

  lemma DenominatorParts(c: Curve, p1: Point, p2: Point, a: Affine, b: Affine)
    requires c.p > 0 && Represents(c, p1, a) && Represents(c, p2, b)
    ensures var p, k, dl := c.p, 2 * (p1.z * p2.z), Delta(c, a, b);
            var cc, dd := 2 * c.d * p1.t * p2.t % p, 2 * p1.z * p2.z % p;
            Cong(dd - cc, (1 - dl) * k, p) && Cong(dd + cc, (1 + dl) * k, p)
  {
    var p, z, dl := c.p, p1.z * p2.z, Delta(c, a, b);
    var cc, dd := 2 * c.d * p1.t * p2.t, 2 * p1.z * p2.z;
    ScaledProduct(p1.t, p2.t, a.x * a.y, b.x * b.y, p1.z, p2.z, p);
    CongScale(2 * c.d, p1.t * p2.t, ((a.x * a.y) * (b.x * b.y)) * z, p);
    assert (2 * c.d) * (((a.x * a.y) * (b.x * b.y)) * z) == dl * (2 * z);
    assert cc == (2 * c.d) * (p1.t * p2.t) && dd == 2 * z;
    CongRefl(cc, p);
    CongRefl(dd, p);
    CongTrans(cc % p, cc, dl * (2 * z), p);
    CongAdd(dd % p, 2 * z, cc % p, dl * (2 * z), p);
    assert 2 * z - dl * (2 * z) == (1 - dl) * (2 * z) && 2 * z + dl * (2 * z) == (1 + dl) * (2 * z);
  }

  lemma ProductCoordinate(u: int, v: int, m: int, n: int, k: int, p: int)
    requires p > 0 && Cong(u, m * k, p) && Cong(v, n * k, p)
    ensures Cong(u * v % p, (m * n) * (k * k), p)
  {
    ScaledProduct(u, v, m, n, k, k, p);
  }

  /** If `s * q` is `n` modulo p, the numerator n can be written as s times the denominator. */
  lemma Numerator(r: int, n: int, q: int, s: int, m: int, kk: int, p: int)
    requires p > 0 && Cong(r, (n * m) * kk, p) && Cong(s * q, n, p)
    ensures Cong(r, s * ((q * m) * kk), p)
  {
    CongRefl(m * kk, p);
    CongMul(s * q, n, m * kk, m * kk, p);
    assert (s * q) * (m * kk) == s * ((q * m) * kk) && n * (m * kk) == (n * m) * kk;
    CongSym((s * q) * (m * kk), n * (m * kk), p);
    CongTrans(r, (n * m) * kk, s * ((q * m) * kk), p);
  }

  /** The extended-coordinate addition computes the affine sum, and its Z is never zero. */
  lemma AddRepresents(c: Curve, p1: Point, p2: Point, a: Affine, b: Affine)
    requires Good(c) && OnCurve(c, a) && OnCurve(c, b)
    requires Represents(c, p1, a) && Represents(c, p2, b)
    ensures Represents(c, Add(c, p1, p2), Sum(c, a, b)) && OnCurve(c, Sum(c, a, b))
  {
    var p, k, dl, s, r := c.p, 2 * (p1.z * p2.z), Delta(c, a, b), Sum(c, a, b), Add(c, p1, p2);
    var e, h, f, g := a.x * b.y + b.x * a.y, a.y * b.y + a.x * b.x, 1 - dl, 1 + dl;
    SumOnCurve(c, a, b);
    Complete(c, a, b);
    QuotientTimes(e, g, p);
    QuotientTimes(h, f, p);
    AddParts(c, p1, p2, a, b);
    AddCoordinates(c, p1, p2, e, f, g, h, k);
    var kk, zz := k * k, (f * g) * (k * k);
    CongSym(r.z, zz, p);
    // X and Y
    Numerator(r.x, e, g, s.x, f, kk, p);
    CongScale(s.x, zz, r.z, p);
    CongTrans(r.x, s.x * zz, s.x * r.z, p) by { assert (g * f) * kk == zz; }
    Numerator(r.y, h, f, s.y, g, kk, p) by { assert (g * h) * kk == (h * g) * kk; }
    CongScale(s.y, zz, r.z, p);
    CongTrans(r.y, s.y * zz, s.y * r.z, p);
    // T
    CongMul(s.x * g, e, s.y * f, h, p);
    Shuffle(s.x, g, s.y, f);
    assert (s.x * s.y) * (g * f) == (s.x * s.y) * (f * g);
    Numerator(r.t, e * h, f * g, s.x * s.y, 1, kk, p) by { assert ((e * h) * 1) * kk == (e * h) * kk; }
    CongScale(s.x * s.y, zz, r.z, p);
    CongTrans(r.t, (s.x * s.y) * zz, (s.x * s.y) * r.z, p);
    // Z
    SumNonZero(p1.z, p2.z, f, g, k, p);
    if Cong(r.z, 0, p) { CongTrans(zz, r.z, 0, p); }
  }

  lemma AddCoordinates(c: Curve, p1: Point, p2: Point, e: int, f: int, g: int, h: int, k: int)
    requires c.p > 0
    requires var p := c.p;
             var aa := (p1.y - p1.x) * (p2.y - p2.x) % p;
             var bb := (p1.y + p1.x) * (p2.y + p2.x) % p;
             var cc := 2 * c.d * p1.t * p2.t % p;
             var dd := 2 * p1.z * p2.z % p;
             Cong(bb - aa, e * k, p) && Cong(dd - cc, f * k, p) && Cong(dd + cc, g * k, p) && Cong(bb + aa, h * k, p)
    ensures var p, r := c.p, Add(c, p1, p2);
            && Cong(r.x, (e * f) * (k * k), p) && Cong(r.y, (g * h) * (k * k), p)
            && Cong(r.z, (f * g) * (k * k), p) && Cong(r.t, (e * h) * (k * k), p)
  {
    var p := c.p;
    var aa := (p1.y - p1.x) * (p2.y - p2.x) % p;
    var bb := (p1.y + p1.x) * (p2.y + p2.x) % p;
    var cc := 2 * c.d * p1.t * p2.t % p;
    var dd := 2 * p1.z * p2.z % p;
    ProductCoordinate(bb - aa, dd - cc, e, f, k, p);
    ProductCoordinate(dd + cc, bb + aa, g, h, k, p);
    ProductCoordinate(dd - cc, dd + cc, f, g, k, p);
    ProductCoordinate(bb - aa, bb + aa, e, h, k, p);
  }

  lemma SumNonZero(z1: int, z2: int, f: int, g: int, k: int, p: int)
    requires Prime(p) && p > 2 && k == 2 * (z1 * z2)
    requires !Cong(z1, 0, p) && !Cong(z2, 0, p) && !Cong(f, 0, p) && !Cong(g, 0, p)
    ensures !Cong((f * g) * (k * k), 0, p)
  {
    if Cong(2, 0, p) { Euclidean(2, 0, 2, p); }
    NonZeroProduct(z1, z2, p);
    NonZeroProduct(2, z1 * z2, p);
    NonZeroProduct(k, k, p);
    NonZeroProduct(f, g, p);
    NonZeroProduct(f * g, k * k, p);
  }

  // ------------------------------------------- extended and affine coordinates

  lemma TimesInverse(n: int, z: int, p: int)
    requires Prime(p) && !Cong(z, 0, p)
    ensures Cong(n, (n * Inv(z, p)) * z, p)
  {
    QuotientTimes(n, z, p);
    CongSym((n * Inv(z, p)) * z, n, p);
  }

  /** The curve equation in extended coordinates is z^2 times the affine one (with T = xyz). */
  lemma CurveScaled(x: int, y: int, z: int, d: int, px: int, py: int, pt: int, p: int)
    requires Prime(p) && !Cong(z, 0, p)
    requires Cong(px, x * z, p) && Cong(py, y * z, p) && Cong(pt, (x * y) * z, p)
    ensures Cong(y * y - x * x, 1 + d * ((x * y) * (x * y)), p)
        <==> Cong(py * py - px * px, z * z + d * (pt * pt), p)
  {
    CongSquare(px, x * z, p);
    CongSquare(py, y * z, p);
    CongSquare(pt, (x * y) * z, p);
    CongAdd(py * py, (y * z) * (y * z), px * px, (x * z) * (x * z), p);
    CongScale(d, pt * pt, ((x * y) * z) * ((x * y) * z), p);
    CongRefl(z * z, p);
    CongAdd(z * z, z * z, d * (pt * pt), d * (((x * y) * z) * ((x * y) * z)), p);
    var l, r := py * py - px * px, z * z + d * (pt * pt);
    var u, v := y * y - x * x, 1 + d * ((x * y) * (x * y));
    assert (y * z) * (y * z) - (x * z) * (x * z) == (z * z) * u by { Shuffle(y, z, y, z); Shuffle(x, z, x, z); }
    assert z * z + d * (((x * y) * z) * ((x * y) * z)) == (z * z) * v by {
      Shuffle(x * y, z, x * y, z);
      Swap(d, z * z, (x * y) * (x * y));
    }
    ScaledEquivalence(l, r, z * z, u, v, p) by { NonZeroProduct(z, z, p); }
  }

  lemma ScaledEquivalence(l: int, r: int, k: int, u: int, v: int, p: int)
    requires Prime(p) && !Cong(k, 0, p) && Cong(l, k * u, p) && Cong(r, k * v, p)
    ensures Cong(u, v, p) <==> Cong(l, r, p)
  {
    CongSym(l, k * u, p);
    CongSym(r, k * v, p);
    if Cong(u, v, p) {
      CongScale(k, u, v, p);
      CongTrans(l, k * u, k * v, p);
      CongTrans(l, k * v, r, p);
    }
    if Cong(l, r, p) {
      CongTrans(k * u, l, r, p);
      CongTrans(k * u, r, k * v, p);
      CancelLeft(k, u, v, p);
    }
  }

  /** A point satisfies the extended equations exactly when it represents a curve point, and
      then that point is (X/Z, Y/Z). */
  lemma ExtendedIsAffine(c: Curve, pt: Point)
    requires Good(c)
    ensures Extended(c, pt) <==> Represents(c, pt, ToAffine(c, pt)) && OnCurve(c, ToAffine(c, pt))
  {
    var p, z, a := c.p, pt.z, ToAffine(c, pt);
    if !Cong(z, 0, p) {
      TimesInverse(pt.x, z, p);
      TimesInverse(pt.y, z, p);
      // X Y is (xyz) z, so it is Z T exactly when T is xyz
      ScaledProduct(pt.x, pt.y, a.x, a.y, z, z, p);
      assert (a.x * a.y) * (z * z) == z * ((a.x * a.y) * z);
      CongRefl(z * pt.t, p);
      ScaledEquivalence(pt.x * pt.y, z * pt.t, z, (a.x * a.y) * z, pt.t, p);
      if Cong(pt.t, (a.x * a.y) * z, p) {
        CongSym(pt.t, (a.x * a.y) * z, p);
        CurveScaled(a.x, a.y, z, c.d, pt.x, pt.y, pt.t, p);
      } else if Cong((a.x * a.y) * z, pt.t, p) {
        CongSym((a.x * a.y) * z, pt.t, p);
      }
    }
  }

  /** The equations survive the addition. */
  lemma AddKeepsExtended(c: Curve, p1: Point, p2: Point)
    requires Good(c) && Extended(c, p1) && Extended(c, p2)
    ensures Extended(c, Add(c, p1, p2))
    ensures Represents(c, Add(c, p1, p2), Sum(c, ToAffine(c, p1), ToAffine(c, p2)))
  {
    var a, b, r := ToAffine(c, p1), ToAffine(c, p2), Add(c, p1, p2);
    ExtendedIsAffine(c, p1);
    ExtendedIsAffine(c, p2);
    AddRepresents(c, p1, p2, a, b);
    RepresentsIsExtended(c, r, Sum(c, a, b));
  }

  lemma RepresentsIsExtended(c: Curve, pt: Point, a: Affine)
    requires Prime(c.p) && Represents(c, pt, a) && OnCurve(c, a)
    ensures Extended(c, pt)
  {
    CurveScaled(a.x, a.y, pt.z, c.d, pt.x, pt.y, pt.t, c.p);
    ScaledProduct(pt.x, pt.y, a.x, a.y, pt.z, pt.z, c.p);
    assert (a.x * a.y) * (pt.z * pt.z) == pt.z * ((a.x * a.y) * pt.z);
    CongScale(pt.z, pt.t, (a.x * a.y) * pt.z, c.p);
    CongSym(pt.z * pt.t, pt.z * ((a.x * a.y) * pt.z), c.p);
    CongTrans(pt.x * pt.y, pt.z * ((a.x * a.y) * pt.z), pt.z * pt.t, c.p);
  }

  // ---------------------------------------------------- scalar multiplication

  /** The binary digits of `k`, most significant first; a single zero for k = 0. */
  function Bits(k: nat): seq<bool> {
    if k < 2 then [k == 1] else Bits(k / 2) + [k % 2 == 1]
  }

  /** The number that a prefix of the digits spells. */
  function Value(bits: seq<bool>): nat {
    if bits == [] then 0 else 2 * Value(bits[..|bits| - 1]) + if bits[|bits| - 1] then 1 else 0
  }

  lemma {:induction false} ValueOfBits(k: nat)
    ensures Value(Bits(k)) == k
  {
    if k < 2 {
      assert Bits(k)[..0] == [];
    } else {
      ValueOfBits(k / 2);
      assert Bits(k)[..|Bits(k)| - 1] == Bits(k / 2);
    }
  }

  lemma IdentityRepresentsNeutral(c: Curve)
    requires Good(c)
    ensures Represents(c, IDENTITY, NEUTRAL) && OnCurve(c, NEUTRAL)
  {
    Euclidean(1, 0, 1, c.p);
    CongRefl(0, c.p);
    CongRefl(1, c.p);
    NeutralSum(c, NEUTRAL);
  }

  lemma RepresentsSame(c: Curve, pt: Point, a: Affine, b: Affine)
    requires c.p > 0 && Represents(c, pt, a) && Same(c, a, b)
    ensures Represents(c, pt, b)
  {
    var p, z := c.p, pt.z;
    CongRefl(z, p);
    CongMul(a.x, b.x, z, z, p);
    CongMul(a.y, b.y, z, z, p);
    CongMul(a.x, b.x, a.y, b.y, p);
    CongMul(a.x * a.y, b.x * b.y, z, z, p);
    CongTrans(pt.x, a.x * z, b.x * z, p);
    CongTrans(pt.y, a.y * z, b.y * z, p);
    CongTrans(pt.t, (a.x * a.y) * z, (b.x * b.y) * z, p);
  }

  /** Adding representatives of two multiples represents their sum's multiple. */
  lemma AddMultiples(c: Curve, p1: Point, p2: Point, j: nat, k: nat, a: Affine)
    requires Good(c) && OnCurve(c, a) && Represents(c, p1, Times(c, j, a)) && Represents(c, p2, Times(c, k, a))
    ensures Represents(c, Add(c, p1, p2), Times(c, j + k, a))
  {
    var t, u, v := Times(c, j, a), Times(c, k, a), Times(c, j + k, a);
    TimesOnCurve(c, j, a);
    TimesOnCurve(c, k, a);
    AddRepresents(c, p1, p2, t, u);
    TimesAdds(c, j, k, a);
    CongSym(v.x, Sum(c, t, u).x, c.p);
    CongSym(v.y, Sum(c, t, u).y, c.p);
    RepresentsSame(c, Add(c, p1, p2), Sum(c, t, u), v);
  }

  lemma OnceIsSelf(c: Curve, a: Affine)
    requires c.p >= 2
    ensures Times(c, 1, a) == a
  {
    NeutralSum(c, a);
  }

  /** One digit of the loop. */
  lemma DigitStep(c: Curve, r: Point, point: Point, v: nat, bit: bool, a: Affine)
    requires Good(c) && OnCurve(c, a) && Represents(c, point, a) && Represents(c, r, Times(c, v, a))
    ensures bit ==> Represents(c, Add(c, Add(c, r, r), point), Times(c, 2 * v + 1, a))
    ensures !bit ==> Represents(c, Add(c, r, r), Times(c, 2 * v, a))
  {
    AddMultiples(c, r, r, v, v, a);
    if bit {
      OnceIsSelf(c, a);
      AddMultiples(c, Add(c, r, r), point, v + v, 1, a);
    }
  }

  /** Double-and-add computes the k-fold sum. */
  method ScalarMul(c: Curve, point: Point, k: nat) returns (result: Point)
    requires Good(c)
    ensures forall a :: OnCurve(c, a) && Represents(c, point, a) ==> Represents(c, result, Times(c, k, a))
    ensures Extended(c, point) ==> Extended(c, result)
  {
    result := IDENTITY;
    IdentityRepresentsNeutral(c);
    var bits := Bits(k);
    for i := 0 to |bits|
      invariant forall a :: OnCurve(c, a) && Represents(c, point, a) ==> Represents(c, result, Times(c, Value(bits[..i]), a))
    {
      ghost var before, v := result, Value(bits[..i]);
      result := Add(c, result, result);
      if bits[i] {
        result := Add(c, result, point);
      }
      assert bits[..i + 1][..i] == bits[..i];
      forall a | OnCurve(c, a) && Represents(c, point, a)
        ensures Represents(c, result, Times(c, Value(bits[..i + 1]), a))
      {
        DigitStep(c, before, point, v, bits[i], a);
      }
    }
    assert bits[..|bits|] == bits;
    ValueOfBits(k);
    if Extended(c, point) {
      ExtendedIsAffine(c, point);
      TimesOnCurve(c, k, ToAffine(c, point));
      RepresentsIsExtended(c, result, Times(c, k, ToAffine(c, point)));
    }
  }

  predicate IsIdentity(c: Curve, pt: Point)
    requires c.p > 0
  {
    pt.x % c.p == 0 && (pt.y - pt.z) % c.p == 0
  }

  /** The identity test depends only on the affine point that is represented. */
  lemma IdentityTestIsAffine(c: Curve, pt: Point, a: Affine)
    requires Good(c) && Represents(c, pt, a)
    ensures IsIdentity(c, pt) <==> Same(c, a, NEUTRAL)
  {
    var p, z := c.p, pt.z;
    assert IsIdentity(c, pt) <==> Cong(pt.x, 0, p) && Cong(pt.y, z, p);
    CongRefl(0, p);
    CongRefl(z, p);
    assert a.x * z == z * a.x && a.y * z == z * a.y;
    ScaledEquivalence(pt.x, 0, z, a.x, 0, p);
    ScaledEquivalence(pt.y, z, z, a.y, 1, p);
  }

  /** The cofactor test: true exactly when the eightfold sum of the affine point is (0, 1). */
  method SmallOrder(c: Curve, point: Point) returns (small: bool)
    requires Good(c) && Extended(c, point)
    ensures small <==> Same(c, Times(c, 8, ToAffine(c, point)), NEUTRAL)
  {
    var eight := ScalarMul(c, point, 8);
    small := IsIdentity(c, eight);
    ghost var a := ToAffine(c, point);
    ExtendedIsAffine(c, point);
    IdentityTestIsAffine(c, eight, Times(c, 8, a));
  }
}
