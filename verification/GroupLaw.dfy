/** The affine addition law is a commutative group law, and the multiples of a point. */
module GroupLaw {
  import opened Field
  import opened Edwards

  // ------------------------------------------- products of two or three points

  function Mixed(a: Affine): int { a.x * a.y }

  function Norm(a: Affine): int { a.x * a.x + a.y * a.y }

  function Gap(a: Affine): int { a.y * a.y - a.x * a.x }

  /** The numerators of the sum, and the same with one sign changed. */
  function SumX(a: Affine, b: Affine): int { a.x * b.y + b.x * a.y }

  function SumY(a: Affine, b: Affine): int { a.y * b.y + a.x * b.x }

  function DiffX(a: Affine, b: Affine): int { a.x * b.y - b.x * a.y }

  function DiffY(a: Affine, b: Affine): int { a.y * b.y - a.x * b.x }

  /** The first-order part of the numerator of (a + b) + e, and of what its denominators add to it. */
  function Level(a: Affine, b: Affine, e: Affine): int { SumX(a, b) * e.y + SumY(a, b) * e.x }

  function Tilt(a: Affine, b: Affine, e: Affine): int { SumY(a, b) * e.x - SumX(a, b) * e.y }

  lemma PairProducts(a: Affine, e: Affine)
    ensures Mixed(a) * Norm(e) - Mixed(e) * Norm(a) == DiffX(a, e) * DiffY(a, e)
    ensures Mixed(a) * Norm(e) + Mixed(e) * Norm(a) == SumX(a, e) * SumY(a, e)
  {
  }

  lemma PairGaps(a: Affine, e: Affine)
    ensures Mixed(a) * Gap(e) + Mixed(e) * Gap(a) == SumX(a, e) * DiffY(a, e)
    ensures Mixed(a) * Gap(e) - Mixed(e) * Gap(a) == SumY(a, e) * DiffX(a, e)
  {
  }

  lemma LevelSplits(a: Affine, b: Affine, e: Affine)
    ensures Level(a, b, e) == SumX(a, e) * b.y + SumY(a, e) * b.x == Level(e, b, a)
    ensures Level(a, b, e) == SumX(a, b) * e.y + SumY(a, b) * e.x && Tilt(a, b, e) == SumY(a, b) * e.x - SumX(a, b) * e.y
  {
  }

  lemma TiltSplits(a: Affine, b: Affine, e: Affine)
    ensures Tilt(a, b, e) == -(DiffX(a, e) * b.y) - DiffY(a, e) * b.x
    ensures Tilt(e, b, a) == DiffX(a, e) * b.y - DiffY(a, e) * b.x
    ensures Tilt(e, b, a) == DiffX(a, b) * e.y - DiffY(a, b) * e.x
  {
  }

  lemma OuterCollect(sx: int, sy: int, dx: int, dy: int, u: int, z: int, v: int, w: int)
    requires v + w == sx * dy && v - w == sy * dx
    ensures (sx * z + sy * u) * (dx * dy) + v * (-(dx * z) - dy * u) - w * (dx * z - dy * u) == 0
  {
    assert (sx * z) * (dx * dy) == (dx * z) * (sx * dy);
    assert (sy * u) * (dx * dy) == (dy * u) * (sy * dx);
    assert v * (-(dx * z) - dy * u) - w * (dx * z - dy * u) == -((dx * z) * (v + w)) - (dy * u) * (v - w);
  }

  lemma InnerCollect(sx: int, sy: int, dx: int, dy: int, ex: int, ey: int, v: int, w: int)
    requires v + w == sx * dy && v - w == sy * dx
    ensures w * (sx * ey + sy * ex) + (sx * sy) * (dx * ey - dy * ex) + v * (sy * ex - sx * ey) == 0
  {
    assert w * (sx * ey + sy * ex) + v * (sy * ex - sx * ey) == (v + w) * (sy * ex) - (v - w) * (sx * ey);
    assert (sx * dy) * (sy * ex) == (sx * sy) * (dy * ex);
    assert (sy * dx) * (sx * ey) == (sx * sy) * (dx * ey);
    assert (sx * sy) * (dx * ey - dy * ex) == (sx * sy) * (dx * ey) - (sx * sy) * (dy * ex);
  }

  lemma OuterIdentity(a: Affine, b: Affine, e: Affine)
    ensures Level(a, b, e) * (Mixed(a) * Norm(e) - Mixed(e) * Norm(a))
            + (Mixed(a) * Gap(e)) * Tilt(a, b, e) - (Mixed(e) * Gap(a)) * Tilt(e, b, a) == 0
  {
    hide *;
    PairProducts(a, e);
    PairGaps(a, e);
    LevelSplits(a, b, e);
    TiltSplits(a, b, e);
    OuterCollect(SumX(a, e), SumY(a, e), DiffX(a, e), DiffY(a, e), b.x, b.y, Mixed(a) * Gap(e), Mixed(e) * Gap(a));
  }

  lemma InnerIdentity(a: Affine, b: Affine, e: Affine)
    ensures (Mixed(b) * Gap(a)) * Level(a, b, e) + (Mixed(a) * Norm(b) + Mixed(b) * Norm(a)) * Tilt(e, b, a)
            + (Mixed(a) * Gap(b)) * Tilt(a, b, e) == 0
  {
    hide *;
    PairProducts(a, b);
    PairGaps(a, b);
    LevelSplits(a, b, e);
    TiltSplits(a, b, e);
    InnerCollect(SumX(a, b), SumY(a, b), DiffX(a, b), DiffY(a, b), e.x, e.y, Mixed(a) * Gap(b), Mixed(b) * Gap(a));
  }

  // ----------------------------------------- the two orders of adding three points

  /** (a + b) + e and (e + b) + a have numerators l + t k and l + t' k'. This is the difference of their cross products
      over the common factor d m2, where mi is the mixed product of a point, vi its norm up to sign, and ni is d mi^2. */
  function Imbalance(l: int, k: int, k': int, m1: int, m2: int, m3: int, v1: int, v2: int, v3: int, n1: int, n2: int, n3: int): int {
    l * (m1 * v3 - m3 * v1) + (l * m2) * (n1 - n3) + m1 * k - m3 * k'
    + n1 * ((m3 * v2 + m2 * v3) * k) - n3 * ((m1 * v2 + m2 * v1) * k') - (n2 * n3) * (m1 * k) + (n2 * n1) * (m3 * k')
  }

  function Numer(l: int, k: int, t: int): int { l + t * k }

  function Denom(t: int, q: int): int { 1 - t * t + q }

  /** On the curve ni is the gap si minus 1, and then the imbalance vanishes. */
  lemma Balanced(l: int, k: int, k': int, m1: int, m2: int, m3: int, v1: int, v2: int, v3: int, s1: int, s2: int, s3: int)
    requires l * (m1 * v3 - m3 * v1) + (m1 * s3) * k - (m3 * s1) * k' == 0
    requires (m2 * s1) * l + (m1 * v2 + m2 * v1) * k' + (m1 * s2) * k == 0
    requires (m2 * s3) * l + (m3 * v2 + m2 * v3) * k + (m3 * s2) * k' == 0
    ensures Imbalance(l, k, k', m1, m2, m3, v1, v2, v3, s1 - 1, s2 - 1, s3 - 1) == 0
  {
    var w, g, h, ka, kb, la := l * (m1 * v3 - m3 * v1), (m3 * v2 + m2 * v3) * k, (m1 * v2 + m2 * v1) * k', m1 * k, m3 * k', l * m2;
    assert w + s3 * ka - s1 * kb == 0;
    assert s1 * la + h + s2 * ka == 0;
    assert s3 * la + g + s2 * kb == 0;
    Substituted(w, g, h, ka, kb, la, s1, s2, s3);
  }

  lemma Substituted(w: int, g: int, h: int, ka: int, kb: int, la: int, s1: int, s2: int, s3: int)
    requires w + s3 * ka - s1 * kb == 0 && s1 * la + h + s2 * ka == 0 && s3 * la + g + s2 * kb == 0
    ensures w + la * ((s1 - 1) - (s3 - 1)) + ka - kb + (s1 - 1) * g - (s3 - 1) * h
            - ((s2 - 1) * (s3 - 1)) * ka + ((s2 - 1) * (s1 - 1)) * kb == 0
  {
  }

  lemma Expanded(l: int, k: int, k': int, t: int, t': int, q: int, q': int)
    ensures Numer(l, k, t) * Denom(t', q') - Numer(l, k', t') * Denom(t, q)
         == l * (q' - q) + l * (t * t) - l * (t' * t') + t * k - t' * k'
            + (t * q') * k - (t' * q) * k' - (t * (t' * t')) * k + (t' * (t * t)) * k'
  {
  }

  lemma Spread(a: int, w1: int, w2: int, w3: int, w4: int, w5: int, w6: int, w7: int, w8: int, w9: int)
    ensures a * w1 + a * w2 - a * w3 + a * w4 - a * w5 + a * w6 - a * w7 - a * w8 + a * w9
         == a * (w1 + (w2 - w3) + w4 - w5 + w6 - w7 - w8 + w9)
  {
  }

  lemma Out(a: int, x: int, y: int, l: int)
    ensures l * (a * (x * y)) == a * ((l * x) * y) && (a * (x * y)) * l == a * (x * (y * l)) == a * (y * (x * l))
  {
    Swap(l, a, x * y);
    Regroup(l, x, y);
    Regroup(x, y, l);
    Swap(x, y, l);
    assert (a * (x * y)) * l == a * ((x * y) * l);
  }

  lemma CommonPart(a: int, l: int, k: int, k': int, r: int, f: int, f': int, m1: int, m2: int, m3: int, n1: int, n2: int, n3: int)
    ensures l * (a * r) + l * (a * (m2 * n1)) - l * (a * (m2 * n3)) + (a * m1) * k - (a * m3) * k'
            + (a * (n1 * f')) * k - (a * (n3 * f)) * k' - (a * (m1 * (n2 * n3))) * k + (a * (m3 * (n2 * n1))) * k'
         == a * (l * r + (l * m2) * (n1 - n3) + m1 * k - m3 * k'
                 + n1 * (f' * k) - n3 * (f * k') - (n2 * n3) * (m1 * k) + (n2 * n1) * (m3 * k'))
  {
    var lm, nn, nn' := l * m2, n2 * n3, n2 * n1;
    Swap(l, a, r);
    Out(a, m2, n1, l);
    Out(a, m2, n3, l);
    Regroup(a, m1, k);
    Regroup(a, m3, k');
    Out(a, n1, f', k);
    Out(a, n3, f, k');
    Out(a, m1, nn, k);
    Out(a, m3, nn', k');
    Gather(a, l * r, lm, n1, n3, m1 * k, m3 * k', n1 * (f' * k), n3 * (f * k'), nn * (m1 * k), nn' * (m3 * k'));
  }

  lemma Gather(a: int, w: int, lm: int, n1: int, n3: int, w4: int, w5: int, w6: int, w7: int, w8: int, w9: int)
    ensures a * w + a * (lm * n1) - a * (lm * n3) + a * w4 - a * w5 + a * w6 - a * w7 - a * w8 + a * w9
         == a * (w + lm * (n1 - n3) + w4 - w5 + w6 - w7 - w8 + w9)
  {
    assert lm * n1 - lm * n3 == lm * (n1 - n3);
    Spread(a, w, lm * n1, lm * n3, w4, w5, w6, w7, w8, w9);
  }

  /** t is d m m2 and n is d m^2. */
  lemma FactorOut(d: int, m: int, m2: int, g: int)
    ensures d * (m * m2) == (d * m2) * m && (d * m2) * m2 == d * (m2 * m2)
    ensures (d * (m * m2)) * (d * (m * m2)) == (d * m2) * (m2 * (d * (m * m)))
    ensures (d * (m * m2)) * (d * (m * g)) == (d * m2) * ((d * (m * m)) * g)
  {
    var a, n := d * m2, d * (m * m);
    assert d * (m * m2) == a * m;
    assert m * a == d * (m * m2) && a * m == m2 * (d * m);
    assert (a * m) * (a * m) == a * (m * (a * m)) == a * (m2 * n) by { Swap(m, m2, d * m); Regroup(m, d, m); Swap(m, d, m); }
    assert (a * m) * (d * (m * g)) == a * (m * (d * (m * g))) == a * (n * g) by { Swap(m, d, m * g); Regroup(m, m, g); Regroup(d, m * m, g); }
  }

  lemma MixedFactor(a: int, m1: int, m2: int, n2: int, n3: int, t: int, s: int)
    requires t == a * m1 && s == a * (m2 * n3) && a * m2 == n2
    ensures t * s == a * (m1 * (n2 * n3))
  {
    Regroup(a, m2, n3);
    Regroup(a, m1, s);
  }

  lemma Remaining(d: int, m1: int, m2: int, m3: int, v1: int, v2: int, v3: int)
    ensures d * (m1 * (m3 * v2 + m2 * v3)) - d * (m3 * (m1 * v2 + m2 * v1)) == (d * m2) * (m1 * v3 - m3 * v1)
  {
    assert m1 * (m3 * v2 + m2 * v3) - m3 * (m1 * v2 + m2 * v1) == m2 * (m1 * v3 - m3 * v1);
    Regroup(d, m2, m1 * v3 - m3 * v1);
    var x, y := m1 * (m3 * v2 + m2 * v3), m3 * (m1 * v2 + m2 * v1);
    assert d * x - d * y == d * (x - y);
  }

  /** Over the integers the two orders differ by a multiple of the imbalance. */
  lemma OrdersDiffer(d: int, l: int, k: int, k': int, m1: int, m2: int, m3: int, v1: int, v2: int, v3: int)
    ensures Numer(l, k, d * (m1 * m2)) * Denom(d * (m3 * m2), d * (m1 * (m3 * v2 + m2 * v3)))
            - Numer(l, k', d * (m3 * m2)) * Denom(d * (m1 * m2), d * (m3 * (m1 * v2 + m2 * v1)))
         == (d * m2) * Imbalance(l, k, k', m1, m2, m3, v1, v2, v3, d * (m1 * m1), d * (m2 * m2), d * (m3 * m3))
  {
    var a, t, t', f, f' := d * m2, d * (m1 * m2), d * (m3 * m2), m1 * v2 + m2 * v1, m3 * v2 + m2 * v3;
    var n1, n2, n3 := d * (m1 * m1), d * (m2 * m2), d * (m3 * m3);
    FactorOut(d, m1, m2, f');
    FactorOut(d, m3, m2, f);
    MixedFactor(a, m1, m2, n2, n3, t, t' * t');
    MixedFactor(a, m3, m2, n2, n1, t', t * t);
    Remaining(d, m1, m2, m3, v1, v2, v3);
    Expanded(l, k, k', t, t', d * (m3 * f), d * (m1 * f'));
    CommonPart(a, l, k, k', m1 * v3 - m3 * v1, f, f', m1, m2, m3, n1, n2, n3);
  }

  // -------------------------------------------------------------- modulo p

  lemma BalanceCong(l: int, k: int, k': int, m1: int, m2: int, m3: int, v1: int, v2: int, v3: int,
                    n1: int, n2: int, n3: int, r1: int, r2: int, r3: int, p: int)
    requires p > 0 && Cong(n1, r1, p) && Cong(n2, r2, p) && Cong(n3, r3, p)
    ensures Cong(Imbalance(l, k, k', m1, m2, m3, v1, v2, v3, n1, n2, n3), Imbalance(l, k, k', m1, m2, m3, v1, v2, v3, r1, r2, r3), p)
  {
    var w, lm, ka, kb := l * (m1 * v3 - m3 * v1), l * m2, m1 * k, m3 * k';
    var g, h := (m3 * v2 + m2 * v3) * k, (m1 * v2 + m2 * v1) * k';
    CongRefl(w, p);
    CongRefl(ka, p);
    CongRefl(kb, p);
    CongRefl(g, p);
    CongRefl(h, p);
    CongAdd(n1, r1, n3, r3, p);
    CongScale(lm, n1 - n3, r1 - r3, p);
    CongAdd(w, w, lm * (n1 - n3), lm * (r1 - r3), p);
    CongAdd(w + lm * (n1 - n3), w + lm * (r1 - r3), ka, ka, p);
    CongAdd(w + lm * (n1 - n3) + ka, w + lm * (r1 - r3) + ka, kb, kb, p);
    CongMul(n1, r1, g, g, p);
    CongMul(n3, r3, h, h, p);
    CongMul(n2, r2, n3, r3, p);
    CongMul(n2, r2, n1, r1, p);
    CongMul(n2 * n3, r2 * r3, ka, ka, p);
    CongMul(n2 * n1, r2 * r1, kb, kb, p);
    var u, u' := w + lm * (n1 - n3) + ka - kb, w + lm * (r1 - r3) + ka - kb;
    CongAdd(u, u', n1 * g, r1 * g, p);
    CongAdd(u + n1 * g, u' + r1 * g, n3 * h, r3 * h, p);
    CongAdd(u + n1 * g - n3 * h, u' + r1 * g - r3 * h, (n2 * n3) * ka, (r2 * r3) * ka, p);
    CongAdd(u + n1 * g - n3 * h - (n2 * n3) * ka, u' + r1 * g - r3 * h - (r2 * r3) * ka, (n2 * n1) * kb, (r2 * r1) * kb, p);
  }

  /** Modulo p the two orders agree on the curve. */
  lemma OrdersAgree(d: int, l: int, k: int, k': int, m1: int, m2: int, m3: int, v1: int, v2: int, v3: int,
                    s1: int, s2: int, s3: int, p: int)
    requires p > 0 && Cong(s1, 1 + d * (m1 * m1), p) && Cong(s2, 1 + d * (m2 * m2), p) && Cong(s3, 1 + d * (m3 * m3), p)
    requires l * (m1 * v3 - m3 * v1) + (m1 * s3) * k - (m3 * s1) * k' == 0
    requires (m2 * s1) * l + (m1 * v2 + m2 * v1) * k' + (m1 * s2) * k == 0
    requires (m2 * s3) * l + (m3 * v2 + m2 * v3) * k + (m3 * s2) * k' == 0
    ensures Cong(Numer(l, k, d * (m1 * m2)) * Denom(d * (m3 * m2), d * (m1 * (m3 * v2 + m2 * v3))),
                 Numer(l, k', d * (m3 * m2)) * Denom(d * (m1 * m2), d * (m3 * (m1 * v2 + m2 * v1))), p)
  {
    var n1, n2, n3 := d * (m1 * m1), d * (m2 * m2), d * (m3 * m3);
    OrdersDiffer(d, l, k, k', m1, m2, m3, v1, v2, v3);
    Balanced(l, k, k', m1, m2, m3, v1, v2, v3, s1, s2, s3);
    hide *;
    MinusOne(s1, n1, p);
    MinusOne(s2, n2, p);
    MinusOne(s3, n3, p);
    BalanceCong(l, k, k', m1, m2, m3, v1, v2, v3, n1, n2, n3, s1 - 1, s2 - 1, s3 - 1, p);
    var b := Imbalance(l, k, k', m1, m2, m3, v1, v2, v3, n1, n2, n3);
    var c := Numer(l, k', d * (m3 * m2)) * Denom(d * (m1 * m2), d * (m3 * (m1 * v2 + m2 * v1)));
    CongScale(d * m2, b, 0, p);
    CongRefl(c, p);
    CongAdd((d * m2) * b, (d * m2) * 0, c, c, p);
  }

  lemma MinusOne(s: int, n: int, p: int)
    requires p > 0 && Cong(s, 1 + n, p)
    ensures Cong(n, s - 1, p)
  {
    CongSym(s, 1 + n, p);
    CongRefl(1, p);
    CongAdd(1 + n, s, 1, 1, p);
  }

  /** One coordinate of (a + b) + e, cleared of all denominators. */
  lemma OneSide(x: int, rx: int, ry: int, ex: int, ey: int, t: int, g: int, a: int, b: int, d: int, p: int)
    requires p > 0 && Cong(rx * (1 + t), a, p) && Cong(ry * (1 - t), b, p)
    requires g == d * ((rx * ry) * (ex * ey)) && Cong(x * (1 + g), rx * ey + ex * ry, p)
    ensures var den := Denom(t, d * ((ex * ey) * (a * b)));
            && Cong(((1 + t) * (1 - t)) * (1 + g), den, p)
            && Cong(x * den, Numer(a * ey + b * ex, b * ex - a * ey, t), p)
  {
    var j, den := (1 + t) * (1 - t), Denom(t, d * ((ex * ey) * (a * b)));
    ClearedBelow(rx, ry, ex, ey, t, a, b, d, p);
    ClearedAbove(rx, ry, ex, ey, t, a, b, p);
    // the denominator
    CongScale(x, j * (1 + g), den, p);
    CongSym(x * (j * (1 + g)), x * den, p);
    // the numerator
    CongScale(j, x * (1 + g), rx * ey + ex * ry, p);
    Swap(x, j, 1 + g);
    CongTrans(x * den, x * (j * (1 + g)), j * (rx * ey + ex * ry), p);
    CongTrans(x * den, j * (rx * ey + ex * ry), Numer(a * ey + b * ex, b * ex - a * ey, t), p);
  }

  lemma ClearedBelow(rx: int, ry: int, ex: int, ey: int, t: int, a: int, b: int, d: int, p: int)
    requires p > 0 && Cong(rx * (1 + t), a, p) && Cong(ry * (1 - t), b, p)
    ensures Cong(((1 + t) * (1 - t)) * (1 + d * ((rx * ry) * (ex * ey))), Denom(t, d * ((ex * ey) * (a * b))), p)
  {
    var aa, bb, m := rx * (1 + t), ry * (1 - t), ex * ey;
    CongMul(aa, a, bb, b, p);
    CongScale(m, aa * bb, a * b, p);
    CongScale(d, m * (aa * bb), m * (a * b), p);
    CongRefl(1 - t * t, p);
    CongAdd(1 - t * t, 1 - t * t, d * (m * (aa * bb)), d * (m * (a * b)), p);
    ClearedDenom(rx, ry, m, t, d);
  }

  lemma ClearedAbove(rx: int, ry: int, ex: int, ey: int, t: int, a: int, b: int, p: int)
    requires p > 0 && Cong(rx * (1 + t), a, p) && Cong(ry * (1 - t), b, p)
    ensures Cong(((1 + t) * (1 - t)) * (rx * ey + ex * ry), Numer(a * ey + b * ex, b * ex - a * ey, t), p)
  {
    hide *;
    var u, v := (1 - t) * ey, (1 + t) * ex;
    CongScale(u, rx * (1 + t), a, p);
    CongScale(v, ry * (1 - t), b, p);
    CongAdd(u * (rx * (1 + t)), u * a, v * (ry * (1 - t)), v * b, p);
    ClearedNumer(rx, ry, ex, ey, t);
    NumerSplits(ex, ey, t, a, b);
  }

  lemma NumerSplits(ex: int, ey: int, t: int, a: int, b: int)
    ensures ((1 - t) * ey) * a + ((1 + t) * ex) * b == Numer(a * ey + b * ex, b * ex - a * ey, t)
  {
  }

  lemma ClearedDenom(rx: int, ry: int, m: int, t: int, d: int)
    ensures ((1 + t) * (1 - t)) * (1 + d * ((rx * ry) * m))
         == 1 - t * t + d * (m * ((rx * (1 + t)) * (ry * (1 - t))))
  {
    var j := (1 + t) * (1 - t);
    assert j == 1 - t * t;
    Shuffle(rx, 1 + t, ry, 1 - t);
    Swap(j, d, (rx * ry) * m);
    assert j * ((rx * ry) * m) == m * ((rx * ry) * j) by { Swap(j, rx * ry, m); Swap(m, rx * ry, j); }
    assert j * (1 + d * ((rx * ry) * m)) == j + j * (d * ((rx * ry) * m));
  }

  lemma ClearedNumer(rx: int, ry: int, ex: int, ey: int, t: int)
    ensures ((1 + t) * (1 - t)) * (rx * ey + ex * ry)
         == ((1 - t) * ey) * (rx * (1 + t)) + ((1 + t) * ex) * (ry * (1 - t))
  {
    Shuffle(1 - t, ey, 1 + t, rx);
    Shuffle(1 + t, ex, 1 - t, ry);
    var j := (1 + t) * (1 - t);
    assert j * (rx * ey + ex * ry) == j * (rx * ey) + j * (ex * ry);
  }

  // ---------------------------------------------------------- associativity

  /** The y coordinate of a sum is the x coordinate with the second point's coordinates exchanged and the sign of d changed. */
  function Flip(a: Affine): Affine { Affine(a.y, a.x) }

  function Above(c: Curve, a: Affine, b: Affine, e: Affine): int { Numer(Level(a, b, e), Tilt(a, b, e), Delta(c, a, b)) }

  function Below(c: Curve, d: int, a: Affine, b: Affine, e: Affine): int {
    Denom(Delta(c, a, b), d * (Mixed(e) * (SumX(a, b) * SumY(a, b))))
  }

  lemma Flipped(a: Affine, b: Affine, e: Affine)
    ensures Mixed(Flip(e)) == Mixed(e) && Norm(Flip(e)) == Norm(e) && Gap(Flip(e)) == -Gap(e)
    ensures Level(a, b, Flip(e)) == Level(e, b, Flip(a)) && Tilt(Flip(e), b, a) == -Tilt(e, b, Flip(a))
  {
  }

  /** Both coordinates of (a + b) + e, cleared of denominators that are never zero. */
  lemma Coordinates(c: Curve, a: Affine, b: Affine, e: Affine)
    requires Good(c) && OnCurve(c, a) && OnCurve(c, b) && OnCurve(c, e)
    ensures var s := Sum(c, Sum(c, a, b), e);
            && Cong(s.x * Below(c, c.d, a, b, e), Above(c, a, b, e), c.p)
            && Cong(s.y * Below(c, -c.d, a, b, e), Above(c, a, b, Flip(e)), c.p)
    ensures !Cong(Below(c, c.d, a, b, e), 0, c.p) && !Cong(Below(c, -c.d, a, b, e), 0, c.p)
  {
    var p, t, r := c.p, Delta(c, a, b), Sum(c, a, b);
    var g, s := Delta(c, r, e), Sum(c, r, e);
    SumOnCurve(c, a, b);
    Complete(c, a, b);
    Complete(c, r, e);
    QuotientTimes(SumX(a, b), 1 + t, p);
    QuotientTimes(SumY(a, b), 1 - t, p);
    QuotientTimes(SumX(r, e), 1 + g, p);
    QuotientTimes(SumY(r, e), 1 - g, p);
    assert (-c.d) * ((r.x * r.y) * (e.y * e.x)) == -g;
    OneSide(s.x, r.x, r.y, e.x, e.y, t, g, SumX(a, b), SumY(a, b), c.d, p);
    OneSide(s.y, r.x, r.y, e.y, e.x, t, -g, SumX(a, b), SumY(a, b), -c.d, p);
    NonZeroProduct(1 + t, 1 - t, p);
    StaysNonZero((1 + t) * (1 - t), 1 + g, Below(c, c.d, a, b, e), p);
    StaysNonZero((1 + t) * (1 - t), 1 - g, Below(c, -c.d, a, b, e), p);
  }

  lemma StaysNonZero(j: int, g: int, den: int, p: int)
    requires Prime(p) && !Cong(j, 0, p) && !Cong(g, 0, p) && Cong(j * g, den, p)
    ensures !Cong(den, 0, p)
  {
    NonZeroProduct(j, g, p);
    if Cong(den, 0, p) { CongTrans(j * g, den, 0, p); }
  }

  lemma CurveGap(c: Curve, a: Affine)
    requires c.p > 0 && OnCurve(c, a)
    ensures Cong(Gap(a), 1 + c.d * (Mixed(a) * Mixed(a)), c.p)
  {
  }

  lemma CrossX(c: Curve, a: Affine, b: Affine, e: Affine)
    requires c.p > 0 && OnCurve(c, a) && OnCurve(c, b) && OnCurve(c, e)
    ensures Cong(Above(c, a, b, e) * Below(c, c.d, e, b, a), Above(c, e, b, a) * Below(c, c.d, a, b, e), c.p)
  {
    OuterIdentity(a, b, e);
    InnerIdentity(a, b, e);
    InnerIdentity(e, b, a);
    LevelSplits(a, b, e);
    PairProducts(a, b);
    PairProducts(e, b);
    CurveGap(c, a);
    CurveGap(c, b);
    CurveGap(c, e);
    hide Level, Tilt, Norm, Gap, SumX, SumY, Numer, Denom;
    OrdersAgree(c.d, Level(a, b, e), Tilt(a, b, e), Tilt(e, b, a), Mixed(a), Mixed(b), Mixed(e),
                Norm(a), Norm(b), Norm(e), Gap(a), Gap(b), Gap(e), c.p);
  }

  lemma Negated(d: int, m: int, m1: int, m2: int, u1: int, u2: int)
    ensures m1 * (-u2) + m2 * (-u1) == -(m1 * u2 + m2 * u1)
    ensures d * (m * (m1 * (-u2) + m2 * (-u1))) == (-d) * (m * (m1 * u2 + m2 * u1))
  {
    var f := m1 * u2 + m2 * u1;
    assert m1 * (-u2) + m2 * (-u1) == -f;
    assert m * (-f) == -(m * f);
  }

  lemma NegatedOuter(l: int, m1: int, m3: int, u1: int, u3: int, s1: int, s3: int, k: int, k': int)
    requires l * (m1 * u3 - m3 * u1) + (m1 * (-s3)) * k - (m3 * s1) * (-k') == 0
    ensures l * (m1 * (-u3) - m3 * (-u1)) + (m1 * s3) * k - (m3 * s1) * k' == 0
  {
    var f := m1 * u3 - m3 * u1;
    assert m1 * (-u3) - m3 * (-u1) == -f;
    assert l * (-f) == -(l * f) && (m1 * (-s3)) * k == -((m1 * s3) * k) && (m3 * s1) * (-k') == -((m3 * s1) * k');
  }

  /** The identities behind the y coordinate. */
  lemma FlippedIdentities(a: Affine, b: Affine, e: Affine)
    ensures Level(a, b, Flip(e)) * (Mixed(a) * (-Norm(e)) - Mixed(e) * (-Norm(a)))
            + (Mixed(a) * Gap(e)) * Tilt(a, b, Flip(e)) - (Mixed(e) * Gap(a)) * Tilt(e, b, Flip(a)) == 0
    ensures (Mixed(b) * Gap(a)) * Level(a, b, Flip(e)) + (Mixed(a) * (-Norm(b)) + Mixed(b) * (-Norm(a))) * Tilt(e, b, Flip(a))
            + (Mixed(a) * Gap(b)) * Tilt(a, b, Flip(e)) == 0
  {
    hide *;
    OuterIdentity(a, b, Flip(e));
    InnerIdentity(a, b, Flip(e));
    Flipped(a, b, e);
    NegatedOuter(Level(a, b, Flip(e)), Mixed(a), Mixed(e), Norm(a), Norm(e), Gap(a), Gap(e), Tilt(a, b, Flip(e)), Tilt(e, b, Flip(a)));
    Negated(0, 0, Mixed(a), Mixed(b), Norm(a), Norm(b));
    var f, k' := Mixed(a) * Norm(b) + Mixed(b) * Norm(a), Tilt(e, b, Flip(a));
    assert f * (-k') == (-f) * k';
  }

  lemma NegatedBelow(c: Curve, a: Affine, b: Affine, e: Affine)
    ensures Below(c, -c.d, a, b, e) == Denom(Delta(c, a, b), c.d * (Mixed(e) * (Mixed(a) * (-Norm(b)) + Mixed(b) * (-Norm(a)))))
  {
    PairProducts(a, b);
    hide Mixed, Norm, SumX, SumY, Denom, Delta;
    Negated(c.d, Mixed(e), Mixed(a), Mixed(b), Norm(a), Norm(b));
  }

  lemma DeltaIsMixed(c: Curve, a: Affine, b: Affine)
    ensures Delta(c, a, b) == c.d * (Mixed(a) * Mixed(b))
  {
  }

  lemma CrossY(c: Curve, a: Affine, b: Affine, e: Affine)
    requires c.p > 0 && OnCurve(c, a) && OnCurve(c, b) && OnCurve(c, e)
    ensures Cong(Above(c, a, b, Flip(e)) * Below(c, -c.d, e, b, a), Above(c, e, b, Flip(a)) * Below(c, -c.d, a, b, e), c.p)
  {
    hide Level, Tilt, Norm, Gap, SumX, SumY, Numer, Denom, Flip, Below, Delta, Mixed;
    FlippedIdentities(a, b, e);
    FlippedIdentities(e, b, a);
    Flipped(a, b, e);
    NegatedBelow(c, a, b, e);
    NegatedBelow(c, e, b, a);
    DeltaIsMixed(c, a, b);
    DeltaIsMixed(c, e, b);
    CurveGap(c, a);
    CurveGap(c, b);
    CurveGap(c, e);
    OrdersAgree(c.d, Level(a, b, Flip(e)), Tilt(a, b, Flip(e)), Tilt(e, b, Flip(a)), Mixed(a), Mixed(b), Mixed(e),
                -Norm(a), -Norm(b), -Norm(e), Gap(a), Gap(b), Gap(e), c.p);
  }

  lemma EqualQuotients(x: int, x': int, den: int, den': int, num: int, num': int, p: int)
    requires Prime(p) && !Cong(den, 0, p) && !Cong(den', 0, p)
    requires Cong(x * den, num, p) && Cong(x' * den', num', p) && Cong(num * den', num' * den, p)
    ensures Cong(x, x', p)
  {
    assert p > 0;
    hide Cong, Prime;
    CongScale(den', x * den, num, p);
    CongScale(den, x' * den', num', p);
    CommonDenominator(x, den, den');
    CommonDenominator(x', den', den);
    var left, right, m, m' := (den * den') * x, (den * den') * x', num * den', num' * den;
    assert Cong(left, m, p) && Cong(right, m', p);
    CongSym(right, m', p);
    CongTrans(left, m, m', p);
    CongTrans(left, m', right, p);
    NonZeroProduct(den, den', p);
    CancelLeft(den * den', x, x', p);
  }

  lemma CommonDenominator(x: int, den: int, other: int)
    ensures other * (x * den) == (den * other) * x == (other * den) * x
  {
  }

  lemma Commutative(c: Curve, a: Affine, b: Affine)
    requires c.p >= 2
    ensures Sum(c, a, b) == Sum(c, b, a)
  {
    assert Delta(c, a, b) == Delta(c, b, a);
  }

  /** The sum of three curve points does not depend on the order in which it is taken. */
  lemma Associative(c: Curve, a: Affine, b: Affine, e: Affine)
    requires Good(c) && OnCurve(c, a) && OnCurve(c, b) && OnCurve(c, e)
    ensures Same(c, Sum(c, Sum(c, a, b), e), Sum(c, a, Sum(c, b, e)))
  {
    var s, s' := Sum(c, Sum(c, a, b), e), Sum(c, Sum(c, e, b), a);
    Coordinates(c, a, b, e);
    Coordinates(c, e, b, a);
    CrossX(c, a, b, e);
    CrossY(c, a, b, e);
    EqualQuotients(s.x, s'.x, Below(c, c.d, a, b, e), Below(c, c.d, e, b, a), Above(c, a, b, e), Above(c, e, b, a), c.p);
    EqualQuotients(s.y, s'.y, Below(c, -c.d, a, b, e), Below(c, -c.d, e, b, a),
                   Above(c, a, b, Flip(e)), Above(c, e, b, Flip(a)), c.p);
    Commutative(c, e, b);
    Commutative(c, Sum(c, b, e), a);
  }

  // ------------------------------------------------ inverses and multiples

  /** (-x, y) is the inverse of (x, y). */
  lemma InverseSum(c: Curve, a: Affine)
    requires Good(c) && OnCurve(c, a)
    ensures OnCurve(c, Affine(-a.x, a.y)) && Same(c, Sum(c, a, Affine(-a.x, a.y)), NEUTRAL)
  {
    var p, b := c.p, Affine(-a.x, a.y);
    assert (-a.x) * a.y == -(a.x * a.y) && (-a.x) * (-a.x) == a.x * a.x;
    assert (-(a.x * a.y)) * (-(a.x * a.y)) == (a.x * a.y) * (a.x * a.y);
    Complete(c, a, b);
    var n, q, g := SumY(a, b), 1 - Delta(c, a, b), Sum(c, a, b);
    assert (a.x * a.y) * (-(a.x * a.y)) == -((a.x * a.y) * (a.x * a.y));
    assert n == a.y * a.y - a.x * a.x && q == 1 + c.d * ((a.x * a.y) * (a.x * a.y));
    assert g.x == 0;
    CongRefl(0, p);
    QuotientTimes(n, q, p);
    CongTrans(g.y * q, n, q, p);
    assert q * g.y == g.y * q && q * 1 == q;
    CancelLeft(q, g.y, 1, p);
  }

  lemma SameRefl(c: Curve, a: Affine)
    requires c.p > 0
    ensures Same(c, a, a)
  {
    CongRefl(a.x, c.p);
    CongRefl(a.y, c.p);
  }

  lemma SameTrans(c: Curve, a: Affine, b: Affine, e: Affine)
    requires c.p > 0 && Same(c, a, b) && Same(c, b, e)
    ensures Same(c, a, e)
  {
    CongTrans(a.x, b.x, e.x, c.p);
    CongTrans(a.y, b.y, e.y, c.p);
  }

  /** The k-fold sum of a point. */
  function Times(c: Curve, k: nat, a: Affine): Affine
    requires c.p >= 2
  {
    if k == 0 then NEUTRAL else Sum(c, Times(c, k - 1, a), a)
  }

  lemma {:induction false} TimesOnCurve(c: Curve, k: nat, a: Affine)
    requires Good(c) && OnCurve(c, a)
    ensures OnCurve(c, Times(c, k, a))
  {
    if k == 0 {
      NeutralSum(c, a);
    } else {
      TimesOnCurve(c, k - 1, a);
      SumOnCurve(c, Times(c, k - 1, a), a);
    }
  }

  lemma {:induction false} TimesRespectsSame(c: Curve, k: nat, a: Affine, b: Affine)
    requires c.p >= 2 && Same(c, a, b)
    ensures Same(c, Times(c, k, a), Times(c, k, b))
  {
    if k == 0 {
      SameRefl(c, NEUTRAL);
    } else {
      TimesRespectsSame(c, k - 1, a, b);
      SumRespectsSame(c, Times(c, k - 1, a), Times(c, k - 1, b), a, b);
    }
  }

  /** Multiples add up: [j + k]a = [j]a + [k]a. */
  lemma {:induction false} TimesAdds(c: Curve, j: nat, k: nat, a: Affine)
    requires Good(c) && OnCurve(c, a)
    ensures Same(c, Times(c, j + k, a), Sum(c, Times(c, j, a), Times(c, k, a)))
    decreases k
  {
    var tj, tk := Times(c, j, a), Times(c, k, a);
    if k == 0 {
      Commutative(c, tj, NEUTRAL);
      NeutralSum(c, tj);
      SameRefl(c, tj);
    } else {
      var t := Times(c, k - 1, a);
      TimesAdds(c, j, k - 1, a);
      SameRefl(c, a);
      SumRespectsSame(c, Times(c, j + k - 1, a), Sum(c, tj, t), a, a);
      TimesOnCurve(c, j, a);
      TimesOnCurve(c, k - 1, a);
      Associative(c, tj, t, a);
      SameTrans(c, Times(c, j + k, a), Sum(c, Sum(c, tj, t), a), Sum(c, tj, tk));
    }
  }
}
