/** Strict unpadded base64url: the accumulator loop of the decoder accepts exactly the canonical
    encodings (sections 3.5 and 5 of RFC 4648). */
module Base64Url {

  type byte = n: int | 0 <= n < 256
  type sextet = n: int | 0 <= n < 64

  datatype Decoded = Bytes(value: seq<byte>) | NonCanonical | WrongLength

  const UPPER: string := "ABCDEFGHIJKLMNOPQRSTUVWXYZ"
  const LOWER: string := "abcdefghijklmnopqrstuvwxyz"
  const DIGITS: string := "0123456789"
  const ALPHABET: string := UPPER + LOWER + DIGITS + "-_"

  predicate InAlphabet(ch: char) {
    'A' <= ch <= 'Z' || 'a' <= ch <= 'z' || '0' <= ch <= '9' || ch == '-' || ch == '_'
  }

  predicate Charset(t: string) {
    forall i :: 0 <= i < |t| ==> InAlphabet(t[i])
  }

  /** The position of a character in the alphabet. */
  function ValueOf(ch: char): (v: sextet)
    requires InAlphabet(ch)
  {
    if 'A' <= ch <= 'Z' then ch as int - 'A' as int
    else if 'a' <= ch <= 'z' then ch as int - 'a' as int + 26
    else if '0' <= ch <= '9' then ch as int - '0' as int + 52
    else if ch == '-' then 62 else 63
  }

  lemma AlphabetAt(v: sextet)
    ensures |ALPHABET| == 64
    ensures v < 26 ==> ALPHABET[v] == 'A' + v as char
    ensures 26 <= v < 52 ==> ALPHABET[v] == 'a' + (v - 26) as char
    ensures 52 <= v < 62 ==> ALPHABET[v] == '0' + (v - 52) as char
    ensures ALPHABET[62] == '-' && ALPHABET[63] == '_'
  {
    if v < 26 {
      assert ALPHABET[v] == UPPER[v];
    } else if v < 52 {
      assert ALPHABET[v] == LOWER[v - 26];
    } else if v < 62 {
      assert ALPHABET[v] == DIGITS[v - 52];
    }
  }

  /** The character at a position of the alphabet. */
  function CharOf(v: sextet): (ch: char)
    ensures InAlphabet(ch) && ValueOf(ch) == v
    ensures |ALPHABET| == 64 && ALPHABET[v] == ch
  {
    AlphabetAt(v);
    if v < 26 then 'A' + v as char
    else if v < 52 then 'a' + (v - 26) as char
    else if v < 62 then '0' + (v - 52) as char
    else if v == 62 then '-' else '_'
  }

  // ------------------------------------------------- the encoder of RFC 4648

  /** Groups of three bytes become four sextets; a rest of one or two bytes becomes two or three
      sextets whose unused low bits are zero. */
  function Sextets(b: seq<byte>): seq<sextet> {
    if |b| == 0 then []
    else if |b| == 1 then [b[0] / 4, b[0] % 4 * 16]
    else if |b| == 2 then [b[0] / 4, b[0] % 4 * 16 + b[1] / 16, b[1] % 16 * 4]
    else [b[0] / 4, b[0] % 4 * 16 + b[1] / 16, b[1] % 16 * 4 + b[2] / 64, b[2] % 64] + Sextets(b[3..])
  }

  function Encode(b: seq<byte>): (t: string)
    ensures Charset(t) && Values(t) == Sextets(b)
  {
    var s := Sextets(b);
    seq(|s|, i requires 0 <= i < |s| => CharOf(s[i]))
  }

  function Values(t: string): (v: seq<sextet>)
    requires Charset(t)
    ensures |v| == |t|
  {
    seq(|t|, i requires 0 <= i < |t| => ValueOf(t[i]))
  }

  // ------------------------------------------ both sides as big-endian numbers

  function Pow2(n: nat): (p: int)
    ensures p > 0
  {
    if n == 0 then 1 else 2 * Pow2(n - 1)
  }

  /** The big-endian number with these digits of `bits` bits each. */
  function Radix(bits: nat, d: seq<int>): int {
    if d == [] then 0 else Radix(bits, d[..|d| - 1]) * Pow2(bits) + d[|d| - 1]
  }

  lemma {:induction false} Pow2Add(m: nat, n: nat)
    ensures Pow2(m + n) == Pow2(m) * Pow2(n)
  {
    if m > 0 { Pow2Add(m - 1, n); }
  }

  lemma SmallPowers()
    ensures Pow2(2) == 4 && Pow2(4) == 16 && Pow2(6) == 64 && Pow2(8) == 256
  {
  }

  lemma Unique(q: int, r: int, q': int, r': int, p: int)
    requires 0 <= r < p && 0 <= r' < p && q * p + r == q' * p + r'
    ensures q == q' && r == r'
  {
    assert (q - q') * p == r' - r;
    assert q - q' >= 1 ==> (q - q' - 1) * p >= 0;
    assert q - q' <= -1 ==> (q - q' + 1) * p <= 0;
  }

  lemma {:induction false} RadixInjective(bits: nat, a: seq<int>, b: seq<int>)
    requires |a| == |b| && Radix(bits, a) == Radix(bits, b)
    requires forall i :: 0 <= i < |a| ==> 0 <= a[i] < Pow2(bits) && 0 <= b[i] < Pow2(bits)
    ensures a == b
  {
    if a != [] {
      var n := |a| - 1;
      Unique(Radix(bits, a[..n]), a[n], Radix(bits, b[..n]), b[n], Pow2(bits));
      RadixInjective(bits, a[..n], b[..n]);
      assert a == a[..n] + [a[n]] && b == b[..n] + [b[n]];
    }
  }

  lemma RadixLast(bits: nat, d: seq<int>, x: int)
    ensures Radix(bits, d + [x]) == Radix(bits, d) * Pow2(bits) + x
  {
    assert (d + [x])[..|d + [x]| - 1] == d;
  }

  lemma Shift(a: int, r: int, x: int, p: int, q: int, pq: int, whole: int, rest: int)
    requires pq == q * p && rest == r * q + x && whole == (a * p + r) * q + x
    ensures whole == a * pq + rest
  {
    ShiftedSum(a, p, r, q);
  }

  /** A row of |b| digits shifts what stands before it by their `width` bits in all. */
  lemma {:induction false} RadixConcat(bits: nat, a: seq<int>, b: seq<int>, width: nat)
    requires width == bits * |b|
    ensures Radix(bits, a + b) == Radix(bits, a) * Pow2(width) + Radix(bits, b)
    decreases |b|
  {
    if b == [] {
      assert a + b == a && width == 0;
    } else {
      var n := |b| - 1;
      var front, x := b[..n], b[n];
      assert b == front + [x] && a + b == (a + front) + [x];
      assert width - bits == bits * n;
      RadixConcat(bits, a, front, width - bits);
      RadixLast(bits, front, x);
      RadixLast(bits, a + front, x);
      Pow2Add(bits, width - bits);
      Shift(Radix(bits, a), Radix(bits, front), x, Pow2(width - bits), Pow2(bits), Pow2(width), Radix(bits, a + b), Radix(bits, b));
    }
  }

  lemma ShiftedSum(a: int, p: int, r: int, q: int)
    ensures (a * p + r) * q == a * (q * p) + r * q
  {
  }

  /** `s` is a shortest row of sextets for `b`, and its spare low bits are zero. */
  ghost predicate Spells(s: seq<sextet>, b: seq<byte>) {
    && 8 * |b| <= 6 * |s| < 8 * |b| + 6
    && Radix(6, s) == Radix(8, b) * Pow2(6 * |s| - 8 * |b|)
  }

  lemma RadixOfThree(d: seq<int>, bits: nat)
    ensures |d| == 1 ==> Radix(bits, d) == d[0]
    ensures |d| == 2 ==> Radix(bits, d) == d[0] * Pow2(bits) + d[1]
    ensures |d| == 3 ==> Radix(bits, d) == (d[0] * Pow2(bits) + d[1]) * Pow2(bits) + d[2]
  {
    if |d| == 1 { assert d[..0] == []; }
    if |d| == 2 { assert d[..1] == [d[0]] && [d[0]][..0] == []; }
    if |d| == 3 { assert d[..2] == [d[0], d[1]] && d[..2][..1] == [d[0]] && [d[0]][..0] == []; }
  }

  lemma FullGroup(b: seq<byte>, s: seq<sextet>)
    requires |b| == 3 && s == Sextets(b)
    ensures |s| == 4 && Radix(6, s) == Radix(8, b)
  {
    assert Sextets(b[3..]) == [];
    RadixOfThree(b, 8);
    RadixOfThree(s[..3], 6);
    SmallPowers();
  }

  lemma ShortGroup(b: seq<byte>)
    requires |b| < 3
    ensures Spells(Sextets(b), b)
  {
    SmallPowers();
    RadixOfThree(b, 8);
    RadixOfThree(Sextets(b), 6);
  }

  /** A leading value worth the same in both radixes keeps two rows equal up to the spare factor. */
  lemma JoinValues(lead: int, p: int, q: int, k: int, r: int, c: int)
    requires p == q * k && r == c * k
    ensures lead * p + r == (lead * q + c) * k
  {
    ShiftedSum(lead, q, c, k);
    assert k * q == q * k;
  }

  lemma JoinGroups(h: seq<sextet>, a: seq<byte>, r: seq<sextet>, c: seq<byte>)
    requires |a| == 3 && |h| == 4 && Radix(6, h) == Radix(8, a) && Spells(r, c)
    ensures Spells(h + r, a + c)
  {
    var e, f := 6 * |r|, 8 * |c|;
    RadixConcat(6, h, r, e);
    RadixConcat(8, a, c, f);
    Pow2Add(f, e - f);
    JoinValues(Radix(6, h), Pow2(e), Pow2(f), Pow2(e - f), Radix(6, r), Radix(8, c));
  }

  /** The encoder spells the bytes with the shortest row and zero spare bits. */
  lemma {:induction false} EncodeSpells(b: seq<byte>)
    ensures Spells(Sextets(b), b)
  {
    if |b| < 3 {
      ShortGroup(b);
    } else {
      var h, c := Sextets(b[..3]), b[3..];
      EncodeSpells(c);
      FullGroup(b[..3], h);
      JoinGroups(h, b[..3], Sextets(c), c);
      assert Sextets(b[..3][3..]) == [];
      assert Sextets(b) == h + Sextets(c) && b == b[..3] + c;
    }
  }

  lemma SpellsDeterminesSextets(s: seq<sextet>, t: seq<sextet>, b: seq<byte>)
    requires Spells(s, b) && Spells(t, b)
    ensures s == t
  {
    SmallPowers();
    RadixInjective(6, s, t);
  }

  lemma SpellsDeterminesBytes(s: seq<sextet>, a: seq<byte>, b: seq<byte>)
    requires Spells(s, a) && Spells(s, b)
    ensures a == b
  {
    SmallPowers();
    var p := Pow2(6 * |s| - 8 * |a|);
    Unique(Radix(8, a), 0, Radix(8, b), 0, p);
    RadixInjective(8, a, b);
  }

  lemma ValuesInjective(s: string, t: string)
    requires Charset(s) && Charset(t) && Values(s) == Values(t)
    ensures s == t
  {
    forall i | 0 <= i < |s| ensures s[i] == t[i] {
      assert CharOf(Values(s)[i]) == s[i] && CharOf(Values(t)[i]) == t[i];
    }
  }

  /** The canonical texts are exactly the encodings. */
  lemma CanonicalIffEncoding(t: string, b: seq<byte>)
    requires Charset(t)
    ensures Spells(Values(t), b) <==> t == Encode(b)
  {
    EncodeSpells(b);
    if Spells(Values(t), b) {
      SpellsDeterminesSextets(Values(t), Values(Encode(b)), b);
      ValuesInjective(t, Encode(b));
    }
  }

  /** Different bytes have different encodings. */
  lemma EncodeInjective(a: seq<byte>, b: seq<byte>)
    requires Encode(a) == Encode(b)
    ensures a == b
  {
    EncodeSpells(a);
    EncodeSpells(b);
    SpellsDeterminesBytes(Values(Encode(a)), a, b);
  }

  // ---------------------------------------------------------------- decoder

  /** The charset, the undecodable length, the spare bits, and last the byte count are checked
      in this order. The accumulator keeps every bit read so far. */
  method DecodeStrict(text: string, length: nat) returns (r: Decoded)
    ensures r.Bytes? ==> text == Encode(r.value) && |r.value| == length && r.value != []
    ensures r.Bytes? <==> exists b: seq<byte> :: b != [] && text == Encode(b) && |b| == length
    ensures r.WrongLength? <==> exists b: seq<byte> :: b != [] && text == Encode(b) && |b| != length
  {
    if text == "" || !Charset(text) {
      EmptyOrForeign(text);
      return NonCanonical;
    }
    if |text| % 4 == 1 {
      NoEncodingHasLength1Mod4(text);
      return NonCanonical;
    }
    var acc, nbits := 0, 0;
    var out: seq<byte> := [];
    for i := 0 to |text|
      invariant nbits == 6 * i - 8 * |out| && 0 <= nbits < 8
      invariant acc >= 0 && acc == Radix(6, Values(text)[..i])
      invariant acc / Pow2(nbits) == Radix(8, out)
    {
      ReadSextet(Values(text), i, acc, nbits);
      acc := acc * 64 + ValueOf(text[i]);
      nbits := nbits + 6;
      if nbits >= 8 {
        nbits := nbits - 8;
        AppendByte(acc, nbits, out);
        out := out + [acc / Pow2(nbits) % 256];
      }
    }
    assert Values(text)[..|text|] == Values(text);
    if nbits != 0 && acc % Pow2(nbits) != 0 {
      SpareBitsSet(text, out, nbits);
      return NonCanonical;
    }
    assert nbits == 0 ==> Pow2(nbits) == 1;
    SpareBitsClear(text, out, acc, nbits);
    if |out| != length {
      return WrongLength;
    }
    return Bytes(out);
  }

  lemma ReadSextet(v: seq<sextet>, i: nat, acc: int, nbits: nat)
    requires i < |v| && acc >= 0 && acc == Radix(6, v[..i])
    ensures acc * 64 + v[i] == Radix(6, v[..i + 1])
    ensures (acc * 64 + v[i]) / Pow2(nbits + 6) == acc / Pow2(nbits)
  {
    assert v[..i + 1][..i] == v[..i];
    SmallPowers();
    DropSix(acc, v[i], nbits);
  }

  lemma AppendByte(acc: int, nbits: nat, out: seq<byte>)
    requires acc >= 0 && acc / Pow2(nbits + 8) == Radix(8, out)
    ensures acc / Pow2(nbits) == Radix(8, out + [acc / Pow2(nbits) % 256])
  {
    var o := out + [acc / Pow2(nbits) % 256];
    assert o[..|o| - 1] == out;
    SmallPowers();
    DropEight(acc, nbits);
  }

  lemma DropSix(acc: int, v: sextet, nbits: nat)
    requires acc >= 0
    ensures (acc * 64 + v) / Pow2(nbits + 6) == acc / Pow2(nbits)
  {
    SmallPowers();
    Pow2Add(nbits, 6);
    var p := Pow2(nbits);
    var q, r := acc / p, acc % p;
    assert acc * 64 + v == q * (p * 64) + (r * 64 + v) by {
      assert acc == q * p + r;
      assert (q * p) * 64 == q * (p * 64);
    }
    Quotient(acc * 64 + v, q, r * 64 + v, p * 64);
  }

  lemma DropEight(acc: int, nbits: nat)
    requires acc >= 0
    ensures acc / Pow2(nbits) == (acc / Pow2(nbits + 8)) * 256 + acc / Pow2(nbits) % 256
  {
    SmallPowers();
    Pow2Add(nbits, 8);
    var p := Pow2(nbits);
    var a := acc / p;
    var q, r := a / 256, a % 256;
    Regroup(q, r, acc % p, p);
    Quotient(acc, q, r * p + acc % p, p * 256);
  }

  lemma Regroup(q: int, r: int, s: int, p: int)
    requires 0 <= r < 256 && 0 <= s < p
    ensures (q * 256 + r) * p + s == q * (p * 256) + (r * p + s)
    ensures 0 <= r * p + s < p * 256
  {
    assert 0 <= r * p;
    assert (255 - r) * p >= 0;
  }

  lemma Quotient(n: int, q: int, r: int, p: int)
    requires 0 <= r < p && n == q * p + r
    ensures n / p == q && n % p == r
  {
    Unique(n / p, n % p, q, r, p);
  }

  lemma SpareBitsClear(text: string, out: seq<byte>, acc: int, nbits: nat)
    requires Charset(text) && text != [] && |text| % 4 != 1
    requires nbits == 6 * |text| - 8 * |out| && nbits < 8
    requires acc == Radix(6, Values(text)) && acc / Pow2(nbits) == Radix(8, out)
    requires acc % Pow2(nbits) == 0
    ensures out != [] && text == Encode(out)
    ensures forall b: seq<byte> :: text == Encode(b) ==> b == out
  {
    SpareCount(|text|, |out|, nbits);
    assert Pow2(0) == 1;
    ExactQuotient(acc, Pow2(nbits));
    CanonicalIffEncoding(text, out);
    OnlyEncodingOf(text, out);
  }

  /** Six spare bits would need a length that is 1 modulo 4. */
  lemma SpareCount(chars: nat, bytes: nat, nbits: int)
    requires nbits == 6 * chars - 8 * bytes && 0 <= nbits < 8 && chars % 4 != 1
    ensures nbits < 6
  {
  }

  lemma ExactQuotient(n: int, p: int)
    requires p > 0 && n % p == 0
    ensures n == (n / p) * p
  {
  }

  lemma OnlyEncodingOf(text: string, out: seq<byte>)
    requires text == Encode(out)
    ensures forall b: seq<byte> :: text == Encode(b) ==> b == out
  {
    forall b: seq<byte> | text == Encode(b) ensures b == out {
      EncodeInjective(b, out);
    }
  }

  lemma SpareBitsSet(text: string, out: seq<byte>, nbits: nat)
    requires Charset(text) && |text| % 4 != 1
    requires nbits == 6 * |text| - 8 * |out| && nbits < 8
    requires Radix(6, Values(text)) % Pow2(nbits) != 0
    ensures forall b: seq<byte> :: text != Encode(b)
  {
    forall b: seq<byte> ensures text != Encode(b) {
      if text == Encode(b) {
        EncodeSpells(b);
        assert |b| == |out|;
        Quotient(Radix(6, Values(text)), Radix(8, b), 0, Pow2(nbits));
      }
    }
  }

  lemma NoEncodingHasLength1Mod4(text: string)
    requires |text| % 4 == 1
    ensures forall b: seq<byte> :: text != Encode(b)
  {
    forall b: seq<byte> ensures text != Encode(b) {
      EncodeSpells(b);
    }
  }

  lemma EmptyOrForeign(text: string)
    requires text == "" || !Charset(text)
    ensures forall b: seq<byte> :: b != [] ==> text != Encode(b)
  {
    forall b: seq<byte> | b != [] ensures text != Encode(b) {
      EncodeSpells(b);
    }
  }
}
