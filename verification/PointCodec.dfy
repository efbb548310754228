/** Decoding of 32-byte point encodings: the square root by exponentiation, and the exact
    correspondence between accepted encodings and curve points (section 5.1.3 of RFC 8032). */
module PointCodec {
  import opened Field
  import opened Edwards
  import opened GroupLaw
  import opened Ed25519

  type byte = n: int | 0 <= n < 256

  datatype Decoded = Decoded(point: Point) | NonCanonical | NotOnCurve

  const Y_BITS: nat := 255
  const BYTES: nat := 32

  /** The weight of the sign bit, 2^255. */
  function SignUnit(): int { Pow(2, Y_BITS) }

  // ------------------------------------------------------ little-endian bytes

  function FromBytes(b: seq<byte>): nat {
    if b == [] then 0 else b[0] + 256 * FromBytes(b[1..])
  }

  function ToBytes(n: nat, len: nat): (b: seq<byte>)
    ensures |b| == len
  {
    if len == 0 then [] else [n % 256] + ToBytes(n / 256, len - 1)
  }

  lemma {:induction false} BytesRoundTrip(b: seq<byte>)
    ensures ToBytes(FromBytes(b), |b|) == b
  {
    if b != [] {
      BytesRoundTrip(b[1..]);
      Euclidean(FromBytes(b), FromBytes(b[1..]), b[0], 256);
    }
  }

  lemma {:induction false} ValueRoundTrip(n: nat, len: nat)
    requires n < Pow(256, len)
    ensures FromBytes(ToBytes(n, len)) == n
  {
    if len > 0 {
      assert n / 256 < Pow(256, len - 1);
      ValueRoundTrip(n / 256, len - 1);
      assert ToBytes(n, len)[1..] == ToBytes(n / 256, len - 1);
    }
  }

  /** The last byte carries the top eight bits. */
  lemma {:induction false} SplitTopByte(b: seq<byte>)
    requires b != []
    ensures var n := |b| - 1;
            FromBytes(b) == FromBytes(b[..n]) + b[n] * Pow(256, n) && FromBytes(b[..n]) < Pow(256, n)
  {
    var n := |b| - 1;
    if n > 0 {
      SplitTopByte(b[1..]);
      assert b[1..][..n - 1] == b[..n][1..];
      assert 256 * (b[n] * Pow(256, n - 1)) == b[n] * Pow(256, n);
    }
  }

  lemma PowersOfTwo(n: nat)
    requires n + 1 == BYTES
    ensures SignUnit() == 128 * Pow(256, n) && Pow(256, n) > 0 && Pow(256, BYTES) == 2 * SignUnit()
  {
    assert Pow(2, 8) == 256 && Pow(2, 7) == 128 by {
      assert Pow(2, 4) == 16 by { assert Pow(2, 2) == 4; }
    }
    PowMul(2, 8, n);
    PowAdd(2, 7, 8 * n);
    PowPositive(n);
  }

  lemma {:induction false} PowPositive(n: nat)
    ensures Pow(256, n) > 0
  {
    if n > 0 { PowPositive(n - 1); }
  }

  // ------------------------------------------------------ encodings of points

  /** The 255 low bits are the y coordinate and the top bit is the sign of x. */
  function YOf(enc: seq<byte>): nat
    requires |enc| == 32
  {
    PowersOfTwo(31);
    FromBytes(enc) % SignUnit()
  }

  function SignOf(enc: seq<byte>): nat
    requires |enc| == 32
  {
    enc[31] / 128
  }

  lemma DivideTop(low: int, q: int, r: int, k: int)
    requires 0 <= low < k && 0 <= r < 128
    ensures low + (128 * q + r) * k == q * (128 * k) + (low + r * k)
    ensures 0 <= low + r * k < 128 * k
  {
    assert r * k >= 0 && (127 - r) * k >= 0;
  }

  lemma EncodingParts(enc: seq<byte>)
    requires |enc| == 32
    ensures FromBytes(enc) == YOf(enc) + SignOf(enc) * SignUnit() && SignOf(enc) < 2
    ensures YOf(enc) < SignUnit()
  {
    var k, low, top := Pow(256, 31), FromBytes(enc[..31]), enc[31];
    PowersOfTwo(31);
    SplitTopByte(enc);
    assert top == 128 * (top / 128) + top % 128;
    DivideTop(low, top / 128, top % 128, k);
    Euclidean(FromBytes(enc), top / 128, low + (top % 128) * k, SignUnit());
  }

  /** `enc` is an encoding of the curve point (x, y). */
  predicate DecodesTo(c: Curve, enc: seq<byte>, x: int, y: int)
    requires |enc| == 32 && c.p > 0
  {
    && y == YOf(enc) && y < c.p
    && 0 <= x < c.p && x % 2 == SignOf(enc)
    && OnCurve(c, Affine(x, y))
  }

  function Encode(x: int, y: int): seq<byte>
    requires y >= 0
  {
    PowersOfTwo(31);
    ToBytes(y + (x % 2) * SignUnit(), BYTES)
  }

  /** A decoded point re-encodes to the bytes it came from. */
  lemma DecodeThenEncode(c: Curve, enc: seq<byte>, x: int, y: int)
    requires |enc| == 32 && c.p > 0 && DecodesTo(c, enc, x, y)
    ensures Encode(x, y) == enc
  {
    EncodingParts(enc);
    BytesRoundTrip(enc);
  }

  lemma EncodedParts(x: int, y: int)
    requires 0 <= y < SignUnit()
    ensures YOf(Encode(x, y)) == y && SignOf(Encode(x, y)) == x % 2
  {
    var s, enc := x % 2, Encode(x, y);
    PowersOfTwo(31);
    assert s * SignUnit() <= SignUnit() by { assert s == 0 || s == 1; }
    ValueRoundTrip(y + s * SignUnit(), BYTES);
    EncodingParts(enc);
    UniqueParts(y, s, YOf(enc), SignOf(enc), SignUnit());
  }

  /** Every curve point has an encoding. */
  lemma EncodeThenDecode(c: Curve, x: int, y: int)
    requires 0 < c.p <= SignUnit() && 0 <= x < c.p && 0 <= y < c.p && OnCurve(c, Affine(x, y))
    ensures DecodesTo(c, Encode(x, y), x, y)
  {
    EncodedParts(x, y);
  }

  lemma UniqueParts(a: int, s: int, a': int, s': int, k: int)
    requires 0 <= a < k && 0 <= a' < k && a + s * k == a' + s' * k
    ensures a == a' && s == s'
  {
    Euclidean(a + s * k, s, a, k);
    Euclidean(a + s * k, s', a', k);
  }

  /** Different accepted encodings decode to different points. */
  lemma DecodingIsInjective(c: Curve, enc: seq<byte>, enc': seq<byte>, x: int, y: int)
    requires c.p > 0 && |enc| == 32 && |enc'| == 32
    requires DecodesTo(c, enc, x, y) && DecodesTo(c, enc', x, y)
    ensures enc == enc'
  {
    DecodeThenEncode(c, enc, x, y);
    DecodeThenEncode(c, enc', x, y);
  }

  /** One encoding decodes to one point. */
  lemma DecodingIsUnique(c: Curve, enc: seq<byte>, x: int, y: int, x': int, y': int)
    requires Good(c) && |enc| == 32
    requires DecodesTo(c, enc, x, y) && DecodesTo(c, enc, x', y')
    ensures x == x' && y == y'
  {
    OneRootOfSign(c, x, x', y);
  }

  lemma OneRootOfSign(c: Curve, x: int, x': int, y: int)
    requires Good(c) && 0 <= x < c.p && 0 <= x' < c.p && x % 2 == x' % 2
    requires OnCurve(c, Affine(x, y)) && OnCurve(c, Affine(x', y))
    ensures x == x'
  {
    RootsAgreeUpToSign(c, x, x', y);
    SameParity(x, x', c.p);
  }

  lemma SameParity(x: int, x': int, p: int)
    requires p > 0 && p % 2 == 1 && 0 <= x < p && 0 <= x' < p && x % 2 == x' % 2
    requires Cong(x, x', p) || Cong(x, -x', p)
    ensures x == x'
  {
    if Cong(x, x', p) {
      CongUnique(x, x', p);
    } else {
      // x + x' is a multiple of p below 2p, and it is even
      var s := x + x';
      if s < p {
        CongUnique(s, 0, p);
      } else {
        CongOf(s - p, 0, Quot(x, -x', p) - 1, p);
        CongUnique(s - p, 0, p);
      }
    }
  }

  lemma RootForm(d: int, x: int, y: int)
    ensures (d * y * y + 1) * (x * x) == d * ((x * y) * (x * y)) + x * x
  {
    Shuffle(x, y, x, y);
    assert d * y * y == d * (y * y);
    Regroup(d, y * y, x * x);
  }

  lemma Rearranged(xx: int, yy: int, w: int, p: int)
    requires p > 0
    ensures Cong(yy - xx, 1 + w, p) <==> Cong(w + xx, yy - 1, p)
  {
    if Cong(yy - xx, 1 + w, p) { CongOf(w + xx, yy - 1, -Quot(yy - xx, 1 + w, p), p); }
    if Cong(w + xx, yy - 1, p) { CongOf(yy - xx, 1 + w, -Quot(w + xx, yy - 1, p), p); }
  }

  /** u = y^2 - 1 and v = d y^2 + 1: a curve point satisfies v x^2 = u, and v is never zero. */
  lemma CurveAsRoot(c: Curve, x: int, y: int)
    requires c.p > 0
    ensures OnCurve(c, Affine(x, y)) <==> Cong((c.d * y * y + 1) * (x * x), y * y - 1, c.p)
  {
    RootForm(c.d, x, y);
    Rearranged(x * x, y * y, c.d * ((x * y) * (x * y)), c.p);
  }

  lemma MinusOneNotZero(p: int)
    requires p >= 2
    ensures !Cong(-1, 0, p) && !Cong(0, -1, p)
  {
    Euclidean(-1, -1, p - 1, p);
    Euclidean(1, 0, 1, p);
  }

  lemma DenominatorNonZero(c: Curve, y: int)
    requires Good(c)
    ensures !Cong(c.d * y * y + 1, 0, c.p)
  {
    var p, m := c.p, (c.p - 1) / 4;
    if Cong(c.d * y * y + 1, 0, p) {
      // then d y^2 = -1 = i^2, so d would be a square
      var i := Pow(2, m);
      RootOfMinusOne(p, m);
      assert c.d * y * y + 1 == c.d * (y * y) - -1;
      CongSym(i * i, -1, p);
      CongTrans(c.d * (y * y), -1, i * i, p);
      MinusOneNotZero(p);
      if Cong(y, 0, p) {
        ZeroProduct(y, y, p);
        ZeroProduct(c.d, y * y, p);
        CongSym(c.d * (y * y), 0, p);
        CongTrans(0, c.d * (y * y), -1, p);
      }
      QuotientIsRoot(c.d, y, i, p);
    }
  }

  lemma RootsAgreeUpToSign(c: Curve, x: int, x': int, y: int)
    requires Good(c) && OnCurve(c, Affine(x, y)) && OnCurve(c, Affine(x', y))
    ensures Cong(x, x', c.p) || Cong(x, -x', c.p)
  {
    var p, u, v := c.p, y * y - 1, c.d * y * y + 1;
    CurveAsRoot(c, x, y);
    CurveAsRoot(c, x', y);
    DenominatorNonZero(c, y);
    CongSym(v * (x' * x'), u, p);
    CongTrans(v * (x * x), u, v * (x' * x'), p);
    CancelLeft(v, x * x, x' * x', p);
    assert x * x - x' * x' == (x - x') * (x + x');
    Euclid(x - x', x + x', p);
  }

  // ------------------------------------------------------------- square root

  function ModPow(a: int, n: nat, p: int): int
    requires p > 0
  {
    Pow(a, n) % p
  }

  /** v x^2 for the candidate x = u v^3 (u v^7)^((p-5)/8) is u (u v^7)^((p-1)/4). */
  lemma CandidateSquared(u: int, v: int, e: nat, m: nat)
    requires m == 2 * e + 1
    ensures var w := u * Pow(v, 7);
            var x := u * Pow(v, 3) * Pow(w, e);
            v * (x * x) == u * Pow(w, m)
  {
    var w, a := u * Pow(v, 7), u * Pow(v, 3);
    var t := Pow(w, e);
    PowAdd(w, e, e);
    assert Pow(w, m) == w * (t * t);
    Shuffle(a, t, a, t);
    assert (a * t) * (a * t) == (a * a) * (t * t);
    assert v * ((a * a) * (t * t)) == (v * (a * a)) * (t * t) by { Regroup(v, a * a, t * t); }
    assert v * (a * a) == u * w by { SeventhPower(u, v); }
    assert (u * w) * (t * t) == u * (w * (t * t)) by { Regroup(u, w, t * t); }
  }

  lemma SeventhPower(u: int, v: int)
    ensures v * ((u * Pow(v, 3)) * (u * Pow(v, 3))) == u * (u * Pow(v, 7))
  {
    PowAdd(v, 3, 3);
    var c := Pow(v, 3);
    assert Pow(v, 7) == v * (c * c);
    Shuffle(u, c, u, c);
    assert v * ((u * u) * (c * c)) == (u * u) * (v * (c * c)) by { Swap(v, u * u, c * c); }
    Regroup(u, u, v * (c * c));
  }

  lemma ModProducts(u: int, v: int, e: nat, p: int)
    requires p > 0
    ensures Cong((u * ModPow(v, 3, p) % p) * ModPow(u * ModPow(v, 7, p) % p, e, p) % p,
                 u * Pow(v, 3) * Pow(u * Pow(v, 7), e), p)
  {
    var a, w := u * ModPow(v, 3, p), u * ModPow(v, 7, p);
    CongRefl(Pow(v, 3), p);
    CongScale(u, ModPow(v, 3, p), Pow(v, 3), p);
    CongRefl(a, p);
    CongTrans(a % p, a, u * Pow(v, 3), p);
    CongRefl(Pow(v, 7), p);
    CongScale(u, ModPow(v, 7, p), Pow(v, 7), p);
    CongRefl(w, p);
    CongTrans(w % p, w, u * Pow(v, 7), p);
    PowCong(w % p, u * Pow(v, 7), e, p);
    CongRefl(Pow(w % p, e), p);
    CongTrans(ModPow(w % p, e, p), Pow(w % p, e), Pow(u * Pow(v, 7), e), p);
    CongMul(a % p, u * Pow(v, 3), ModPow(w % p, e, p), Pow(u * Pow(v, 7), e), p);
    var r := (a % p) * ModPow(w % p, e, p);
    CongRefl(r, p);
    CongTrans(r % p, r, u * Pow(v, 3) * Pow(u * Pow(v, 7), e), p);
  }

  /** If v x^2 = u has a solution and u, v are not zero, then w = u v^7 is a square. */
  lemma RootGivesSquare(u: int, v: int, x: int, p: int)
    requires p > 0 && Cong(v * (x * x), u, p)
    ensures Square(u * Pow(v, 7), p)
  {
    var c := Pow(v, 3);
    var r := (v * c) * x;
    PowAdd(v, 3, 3);
    assert Pow(v, 7) == v * (c * c);
    CongRefl(Pow(v, 7), p);
    CongMul(v * (x * x), u, Pow(v, 7), Pow(v, 7), p);
    assert (v * (x * x)) * (v * (c * c)) == r * r by {
      Shuffle(v * c, x, v * c, x);
      Shuffle(v, c, v, c);
      Shuffle(v, x * x, v, c * c);
      Regroup(v * v, c * c, x * x);
      Regroup(v * v, x * x, c * c);
    }
  }

  /** The four cases of the candidate: q = w^((p-1)/4) is 1, -1, or a square root of -1, and in
      the last case there is no root at all. */
  lemma CandidateCases(u: int, v: int, q: int, m: nat, p: int)
    requires Prime(p) && p == 4 * m + 1 && !Cong(u, 0, p) && !Cong(v, 0, p)
    requires q == Pow(u * Pow(v, 7), m)
    ensures Cong(q, 1, p) || Cong(q, -1, p) || forall x :: !Cong(v * (x * x), u, p)
    ensures Cong(q, 1, p) || Cong(q, -1, p) ==> !Cong(q * q, -1, p)
    ensures Cong(q * q, 1, p) || Cong(q * q, -1, p)
  {
    var w := u * Pow(v, 7);
    PowNonZero(v, 7, p);
    NonZeroProduct(u, Pow(v, 7), p);
    PowAdd(w, m, m);
    assert 2 * m == (p - 1) / 2;
    Fermat(w, p);
    PowAdd(w, 2 * m, 2 * m);
    RootsOfOne(q * q, p);
    OneIsNotMinusOne(q * q, p);
    if Cong(q, 1, p) { CongSquare(q, 1, p); }
    if Cong(q, -1, p) { CongSquare(q, -1, p); }
    if Cong(q * q, 1, p) {
      RootsOfOne(q, p);
    } else {
      forall x ensures !Cong(v * (x * x), u, p) {
        if Cong(v * (x * x), u, p) {
          RootGivesSquare(u, v, x, p);
          SquarePower(w, p);
        }
      }
    }
  }

  lemma OneIsNotMinusOne(r: int, p: int)
    requires p > 2
    ensures !(Cong(r, 1, p) && Cong(r, -1, p))
  {
    if Cong(r, 1, p) && Cong(r, -1, p) {
      CongSym(r, 1, p);
      CongTrans(1, r, -1, p);
      Euclidean(2, 0, 2, p);
    }
  }

  // --------------------------------------------------------------- decoding

  /** The outcome of the square-root step: x is a root of v x^2 = u, or there is none. */
  method SquareRoot(u: int, v: int, p: int) returns (x: int, ok: bool)
    requires Prime(p) && p % 8 == 5 && 0 <= u < p && !Cong(v, 0, p)
    ensures ok ==> 0 <= x < p && Cong(v * (x * x), u, p)
    ensures ok <==> exists x' :: Cong(v * (x' * x'), u, p)
  {
    var e := (p - 5) / 8;
    ghost var m := 2 * e + 1;
    ghost var q := Pow(u * Pow(v, 7), m);
    x := (u * ModPow(v, 3, p) % p) * ModPow(u * ModPow(v, 7, p) % p, e, p) % p;
    ghost var x0 := x;
    RootCandidate(u, v, e, x, p);
    ModProductOf(v, x, p);
    var vx2 := v * x * x % p;
    CandidateVerdict(u, v, q, x0, vx2, m, p);
    if vx2 == (p - u) % p {
      var i := ModPow(2, (p - 1) / 4, p);
      x := x * i % p;
      RotatedRoot(u, v, x0, m, p);
      ok := true;
    } else if vx2 != u {
      ok := false;
    } else {
      CongMod(v * (x * x), u, p);
      Euclidean(u, 0, u, p);
      ok := true;
    }
  }

  lemma ModProductOf(v: int, x: int, p: int)
    requires p > 0
    ensures v * x * x % p == v * (x * x) % p
  {
    assert v * x * x == v * (x * x);
  }

  lemma RootCandidate(u: int, v: int, e: nat, x: int, p: int)
    requires p > 0 && x == (u * ModPow(v, 3, p) % p) * ModPow(u * ModPow(v, 7, p) % p, e, p) % p
    ensures 0 <= x < p && Cong(v * (x * x), u * Pow(u * Pow(v, 7), 2 * e + 1), p)
  {
    var x' := u * Pow(v, 3) * Pow(u * Pow(v, 7), e);
    ModProducts(u, v, e, p);
    CandidateSquared(u, v, e, 2 * e + 1);
    CongSquare(x, x', p);
    CongScale(v, x * x, x' * x', p);
  }

  /** Which of the three branches the candidate takes. */
  lemma CandidateVerdict(u: int, v: int, q: int, x: int, vx2: int, m: nat, p: int)
    requires Prime(p) && p == 4 * m + 1 && 0 <= u < p && !Cong(v, 0, p)
    requires q == Pow(u * Pow(v, 7), m) && Cong(v * (x * x), u * q, p) && vx2 == v * (x * x) % p
    ensures vx2 == (p - u) % p <==> Cong(v * (x * x), -u, p)
    ensures vx2 == u <==> Cong(v * (x * x), u, p)
    ensures vx2 != u && vx2 != (p - u) % p ==> forall x' :: !Cong(v * (x' * x'), u, p)
  {
    var s := v * (x * x);
    CongMod(s, u, p);
    Euclidean(u, 0, u, p);
    CongMod(s, -u, p);
    CongOf(p - u, -u, 1, p);
    CongMod(p - u, -u, p);
    if !Cong(u, 0, p) {
      CandidateCases(u, v, q, m, p);
      if Cong(q, 1, p) { CongScale(u, q, 1, p); CongTrans(s, u * q, u, p); }
      if Cong(q, -1, p) { CongScale(u, q, -1, p); CongTrans(s, u * q, -u, p); }
    } else {
      ZeroProduct(u, q, p);
      CongSym(u, 0, p);
      CongTrans(s, u * q, 0, p);
      CongTrans(s, 0, u, p);
    }
  }

  lemma RotatedRoot(u: int, v: int, x: int, m: nat, p: int)
    requires Prime(p) && p % 8 == 5 && p == 4 * m + 1 && Cong(v * (x * x), -u, p)
    ensures var r := x * ModPow(2, m, p) % p; Cong(v * (r * r), u, p)
  {
    var i, i' := Pow(2, m), ModPow(2, m, p);
    var r := x * i' % p;
    RootOfMinusOne(p, m);
    CongRefl(i, p);
    CongSquare(i', i, p);
    CongTrans(i' * i', i * i, -1, p);
    CongRefl(x * i', p);
    CongSquare(r, x * i', p);
    CongScale(v, r * r, (x * i') * (x * i'), p);
    CongMul(v * (x * x), -u, i' * i', -1, p);
    assert v * ((x * i') * (x * i')) == (v * (x * x)) * (i' * i') by {
      Shuffle(x, i', x, i');
      Regroup(v, x * x, i' * i');
    }
    CongTrans(v * (r * r), v * ((x * i') * (x * i')), u, p);
  }

  /** Decodes 32 bytes. The encoding is accepted exactly when it encodes a curve point, it is
      off the curve exactly when no x fits its y, and non-canonical otherwise. */
  method Decompress(c: Curve, enc: seq<byte>) returns (r: Decoded)
    requires Good(c) && |enc| == 32
    ensures r.Decoded? ==>
              && DecodesTo(c, enc, r.point.x, r.point.y)
              && Extended(c, r.point) && Represents(c, r.point, Affine(r.point.x, r.point.y))
    ensures r.Decoded? <==> exists x, y :: DecodesTo(c, enc, x, y)
    ensures r.NotOnCurve? <==> YOf(enc) < c.p && forall x :: !OnCurve(c, Affine(x, YOf(enc)))
  {
    var p := c.p;
    var y := YOf(enc);
    var signBit := SignOf(enc);
    EncodingParts(enc);
    if y >= p {
      return NonCanonical;
    }
    var u := (y * y - 1) % p;
    var v := (c.d * y * y + 1) % p;
    ReducedRoot(c, y, u, v);
    var x, ok := SquareRoot(u, v, p);
    if !ok {
      return NotOnCurve;
    }
    assert OnCurve(c, Affine(x, y));
    if x == 0 && signBit == 1 {
      ZeroHasOneSign(c, enc);
      return NonCanonical;
    }
    if x % 2 != signBit {
      NegatedRoot(c, x, y);
      x := p - x;
    }
    assert DecodesTo(c, enc, x, y);
    r := Decoded(Point(x, y, 1, x * y % p));
    AffineIsExtended(c, x, y);
  }

  lemma ReducedRoot(c: Curve, y: int, u: int, v: int)
    requires Good(c) && u == (y * y - 1) % c.p && v == (c.d * y * y + 1) % c.p
    ensures !Cong(v, 0, c.p)
    ensures forall x :: OnCurve(c, Affine(x, y)) <==> Cong(v * (x * x), u, c.p)
  {
    var p, u', v' := c.p, y * y - 1, c.d * y * y + 1;
    DenominatorNonZero(c, y);
    CongRefl(u', p);
    CongRefl(v', p);
    if Cong(v, 0, p) { CongTrans(v', v, 0, p); }
    forall x ensures OnCurve(c, Affine(x, y)) <==> Cong(v * (x * x), u, p) {
      CurveAsRoot(c, x, y);
      CongRefl(x * x, p);
      CongMul(v, v', x * x, x * x, p);
      CongMod(v * (x * x), v' * (x * x), p);
      CongMod(u, u', p);
      CongMod(v * (x * x), u, p);
      CongMod(v' * (x * x), u', p);
    }
  }

  lemma NegatedRoot(c: Curve, x: int, y: int)
    requires Good(c) && 0 < x < c.p && OnCurve(c, Affine(x, y))
    ensures OnCurve(c, Affine(c.p - x, y)) && (c.p - x) % 2 != x % 2
  {
    var p, n, v := c.p, c.p - x, c.d * y * y + 1;
    CurveAsRoot(c, x, y);
    CurveAsRoot(c, n, y);
    NegatedSquare(x, p);
    CongScale(v, n * n, x * x, p);
    CongTrans(v * (n * n), v * (x * x), y * y - 1, p);
  }

  lemma NegatedSquare(x: int, p: int)
    requires p > 0
    ensures Cong((p - x) * (p - x), x * x, p)
  {
    CongOf(p - x, -x, 1, p);
    CongSquare(p - x, -x, p);
    assert (-x) * (-x) == x * x;
  }

  /** If x = 0 fits y, no odd x does. */
  lemma ZeroHasOneSign(c: Curve, enc: seq<byte>)
    requires Good(c) && |enc| == 32 && SignOf(enc) == 1 && OnCurve(c, Affine(0, YOf(enc)))
    ensures forall x, y :: !DecodesTo(c, enc, x, y)
  {
    forall x, y ensures !DecodesTo(c, enc, x, y) {
      if DecodesTo(c, enc, x, y) {
        RootsAgreeUpToSign(c, x, 0, y);
        CongUnique(x, 0, c.p);
      }
    }
  }

  lemma AffineIsExtended(c: Curve, x: int, y: int)
    requires Good(c) && OnCurve(c, Affine(x, y))
    ensures var pt := Point(x, y, 1, x * y % c.p); Represents(c, pt, Affine(x, y)) && Extended(c, pt)
  {
    Euclidean(1, 0, 1, c.p);
    CongRefl(x, c.p);
    CongRefl(y, c.p);
    CongRefl(x * y, c.p);
    RepresentsIsExtended(c, Point(x, y, 1, x * y % c.p), Affine(x, y));
  }

  // ------------------------------------------------------ the strict checks

  /** `enc` encodes a curve point that the cofactor does not take to the neutral element. */
  ghost predicate UsablePoint(c: Curve, enc: seq<byte>)
    requires c.p >= 2
  {
    |enc| == 32 && exists x, y :: DecodesTo(c, enc, x, y) && !Same(c, Times(c, 8, Affine(x, y)), NEUTRAL)
  }

  datatype Verdict = Accepted
                   | SignatureLength | PublicKeyLength | NonCanonicalS
                   | RejectedR(why: PointFault) | RejectedA(why: PointFault)
                   | SignatureInvalid

  datatype PointFault = BadEncoding | OffCurve | LowOrder

  /** Why an encoding is refused: no x fits its y, it decodes to a point of small order, or it is no canonical encoding. */
  ghost predicate IsFault(c: Curve, enc: seq<byte>, fault: PointFault)
    requires c.p > 0 && |enc| == 32
  {
    match fault
    case OffCurve => YOf(enc) < c.p && forall x :: !OnCurve(c, Affine(x, YOf(enc)))
    case LowOrder => exists x, y :: DecodesTo(c, enc, x, y)
    case BadEncoding => !(exists x, y :: DecodesTo(c, enc, x, y)) && !(YOf(enc) < c.p && forall x :: !OnCurve(c, Affine(x, YOf(enc))))
  }

  /** Both encodings carried by the signature and the key are usable. */
  ghost predicate UsablePair(c: Curve, publicKey: seq<byte>, sig: seq<byte>)
    requires c.p >= 2
  {
    |sig| == 64 && UsablePoint(c, sig[..32]) && UsablePoint(c, publicKey)
  }

  /** The checks in their order; `groupEquation` is the verdict of the group-equation check. */
  method Verify(c: Curve, order: nat, publicKey: seq<byte>, sig: seq<byte>, groupEquation: bool) returns (v: Verdict)
    requires Good(c)
    ensures v.Accepted? <==> UsablePair(c, publicKey, sig) && FromBytes(sig[32..]) < order && groupEquation
    ensures v.SignatureLength? <==> |sig| != 64
    ensures v.PublicKeyLength? <==> |sig| == 64 && |publicKey| != 32
    ensures v.NonCanonicalS? <==> |sig| == 64 && |publicKey| == 32 && FromBytes(sig[32..]) >= order
    ensures v.RejectedR? <==>
              |sig| == 64 && |publicKey| == 32 && FromBytes(sig[32..]) < order && !UsablePoint(c, sig[..32])
    ensures v.RejectedR? ==> IsFault(c, sig[..32], v.why)
    ensures v.RejectedA? <==>
              && |sig| == 64 && |publicKey| == 32 && FromBytes(sig[32..]) < order
              && UsablePoint(c, sig[..32]) && !UsablePoint(c, publicKey)
    ensures v.RejectedA? ==> IsFault(c, publicKey, v.why)
  {
    if |sig| != 64 {
      return SignatureLength;
    }
    if |publicKey| != 32 {
      return PublicKeyLength;
    }
    if FromBytes(sig[32..]) >= order {
      return NonCanonicalS;
    }
    var faultR, okR := CheckPoint(c, sig[..32]);
    if !okR {
      return RejectedR(faultR);
    }
    var faultA, okA := CheckPoint(c, publicKey);
    if !okA {
      return RejectedA(faultA);
    }
    v := if groupEquation then Accepted else SignatureInvalid;
  }

  method CheckPoint(c: Curve, enc: seq<byte>) returns (fault: PointFault, ok: bool)
    requires Good(c) && |enc| == 32
    ensures ok <==> UsablePoint(c, enc)
    ensures !ok ==> IsFault(c, enc, fault)
  {
    var r := Decompress(c, enc);
    match r
    case NonCanonical => fault, ok := BadEncoding, false;
    case NotOnCurve => fault, ok := OffCurve, false;
    case Decoded(pt) =>
      var small := SmallOrder(c, pt);
      fault, ok := LowOrder, !small;
      SmallOrderOfEncoding(c, enc, pt, small);
  }

  lemma SmallOrderOfEncoding(c: Curve, enc: seq<byte>, pt: Point, small: bool)
    requires Good(c) && |enc| == 32 && DecodesTo(c, enc, pt.x, pt.y)
    requires Extended(c, pt) && Represents(c, pt, Affine(pt.x, pt.y))
    requires small <==> Same(c, Times(c, 8, ToAffine(c, pt)), NEUTRAL)
    ensures !small <==> UsablePoint(c, enc)
  {
    ExtendedIsAffine(c, pt);
    var a, b := Affine(pt.x, pt.y), ToAffine(c, pt);
    if small {
      SmallOrderIsAffine(c, pt, a, b);
    } else if Same(c, Times(c, 8, a), NEUTRAL) {
      SmallOrderIsAffine(c, pt, b, a);
    }
    if UsablePoint(c, enc) {
      var x, y :| DecodesTo(c, enc, x, y) && !Same(c, Times(c, 8, Affine(x, y)), NEUTRAL);
      DecodingIsUnique(c, enc, x, y, pt.x, pt.y);
    }
  }

  lemma SmallOrderIsAffine(c: Curve, pt: Point, a: Affine, b: Affine)
    requires Prime(c.p) && Represents(c, pt, a) && Represents(c, pt, b)
    requires Same(c, Times(c, 8, b), NEUTRAL)
    ensures Same(c, Times(c, 8, a), NEUTRAL)
  {
    RepresentedIsUnique(c, pt, a, b);
    TimesRespectsSame(c, 8, a, b);
    SameTrans(c, Times(c, 8, a), Times(c, 8, b), NEUTRAL);
  }

  lemma RepresentedIsUnique(c: Curve, pt: Point, a: Affine, b: Affine)
    requires Prime(c.p) && Represents(c, pt, a) && Represents(c, pt, b)
    ensures Same(c, a, b)
  {
    var p, z := c.p, pt.z;
    CongSym(pt.x, a.x * z, p);
    CongSym(pt.y, a.y * z, p);
    CongTrans(a.x * z, pt.x, b.x * z, p);
    CongTrans(a.y * z, pt.y, b.y * z, p);
    assert a.x * z == z * a.x && b.x * z == z * b.x && a.y * z == z * a.y && b.y * z == z * b.y;
    CancelLeft(z, a.x, b.x, p);
    CancelLeft(z, a.y, b.y, p);
  }
}
