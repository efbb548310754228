/** What the families exchange: address and id grammars, signed documents, and notification intents.
    Signatures and digests are ideal constructors, so equal digests mean equal inputs. */
module FedSchema {
  import opened Options
  import R = Retry

  // ------------------------------------------------------------------ grammars

  predicate Lower(c: char) { 'a' <= c <= 'z' }
  predicate DigitChar(c: char) { '0' <= c <= '9' }
  predicate Hex(c: char) { DigitChar(c) || 'a' <= c <= 'f' }

  predicate IsFamily(s: string) {
    1 <= |s| <= 32 && forall c :: c in s ==> Lower(c) || DigitChar(c) || c == '-'
  }

  predicate IsAgent(s: string) {
    1 <= |s| <= 32 && forall c :: c in s ==> Lower(c) || DigitChar(c) || c == '-' || c == '_'
  }

  predicate IsUuid(s: string) {
    && |s| == 36
    && forall i :: 0 <= i < 36 ==> if i == 8 || i == 13 || i == 18 || i == 23 then s[i] == '-' else Hex(s[i])
  }

  predicate IsAckType(s: string) { s == "received" || s == "applied" }

  predicate IsEventType(s: string) { s == "message" || s == "reply" }

  predicate IsKeyId(s: string) {
    && 1 <= |s| <= 64
    && forall c :: c in s ==> Lower(c) || 'A' <= c <= 'Z' || DigitChar(c) || c == '.' || c == '_' || c == '-'
  }

  const TIMESTAMP_SHAPE := "dddd-dd-ddTdd:dd:ddZ"

  function DigitValue(c: char): int { c as int - '0' as int }

  function TwoAt(s: string, i: nat): int
    requires i + 1 < |s|
  {
    DigitValue(s[i]) * 10 + DigitValue(s[i + 1])
  }

  function ReadStamp(s: string): R.Stamp
    requires |s| == 20
  {
    R.Stamp(TwoAt(s, 0) * 100 + TwoAt(s, 2), TwoAt(s, 5), TwoAt(s, 8), TwoAt(s, 11), TwoAt(s, 14), TwoAt(s, 17), 0)
  }

  predicate FitsShape(s: string, i: nat)
    requires i < |s| == 20
  {
    if TIMESTAMP_SHAPE[i] == 'd' then DigitChar(s[i]) else s[i] == TIMESTAMP_SHAPE[i]
  }

  /** The characters from i on have the fixed-width form, and the whole names a date and time that exist. */
  predicate TimestampFrom(s: string, i: nat)
    requires i <= |s| == 20
    decreases |s| - i
  {
    if i == |s| then R.Valid(ReadStamp(s)) else FitsShape(s, i) && TimestampFrom(s, i + 1)
  }

  predicate IsTimestamp(s: string) { |s| == 20 && TimestampFrom(s, 0) }

  lemma {:induction false} TimestampIff(s: string, i: nat)
    requires i <= |s| == 20
    ensures TimestampFrom(s, i) <==> R.Valid(ReadStamp(s)) && forall j :: i <= j < 20 ==> FitsShape(s, j)
    decreases 20 - i
  {
    if i < 20 { TimestampIff(s, i + 1); }
  }

  lemma DigitReads(n: int)
    requires 0 <= n < 10
    ensures DigitChar(R.Digit(n)) && DigitValue(R.Digit(n)) == n
  {
  }

  lemma TwoReads(n: int)
    requires 0 <= n < 100
    ensures DigitChar(R.Two(n)[0]) && DigitChar(R.Two(n)[1]) && |R.Two(n)| == 2 && TwoAt(R.Two(n), 0) == n
  {
    DigitReads(n / 10);
    DigitReads(n % 10);
    assert R.Digit(n) == R.Digit(n % 10);
  }

  /** The twenty characters of a stamp's text, part by part. */
  lemma IsoParts(s: R.Stamp)
    requires R.Valid(s)
    ensures var t, y, z := R.Iso(s), R.Two(s.year / 100), R.Two(s.year % 100);
            && |t| == 20 && t[0] == y[0] && t[1] == y[1] && t[2] == z[0] && t[3] == z[1] && t[4] == '-'
            && t[5] == R.Two(s.month)[0] && t[6] == R.Two(s.month)[1] && t[7] == '-'
            && t[8] == R.Two(s.day)[0] && t[9] == R.Two(s.day)[1] && t[10] == 'T'
            && t[11] == R.Two(s.hour)[0] && t[12] == R.Two(s.hour)[1] && t[13] == ':'
            && t[14] == R.Two(s.minute)[0] && t[15] == R.Two(s.minute)[1] && t[16] == ':'
            && t[17] == R.Two(s.second)[0] && t[18] == R.Two(s.second)[1] && t[19] == 'Z'
  {
  }

  /** The text a node writes for a moment passes the schema and reads back as that second. */
  lemma IsoIsTimestamp(s: R.Stamp)
    requires R.Valid(s)
    ensures IsTimestamp(R.Iso(s)) && ReadStamp(R.Iso(s)) == s.(micro := 0)
  {
    IsoParts(s);
    TwoReads(s.year / 100);
    TwoReads(s.year % 100);
    TwoReads(s.month);
    TwoReads(s.day);
    TwoReads(s.hour);
    TwoReads(s.minute);
    TwoReads(s.second);
    TimestampIff(R.Iso(s), 0);
  }

  // ---------------------------------------------------------- grammars as patterns

  /** The characters from lo to hi. */
  datatype Range = Range(lo: char, hi: char)

  /** A character class repeated at least `min` and at most `max` times; a pattern is a row of these. */
  datatype Piece = Piece(chars: seq<Range>, min: nat, max: nat)

  predicate InClass(c: char, rs: seq<Range>) { exists i :: 0 <= i < |rs| && rs[i].lo <= c <= rs[i].hi }

  predicate AllInClass(s: string, rs: seq<Range>) { forall i :: 0 <= i < |s| ==> InClass(s[i], rs) }

  /** The whole text matches the pattern. */
  predicate Matches(ps: seq<Piece>, s: string) {
    if ps == [] then s == ""
    else exists k :: ps[0].min <= k <= ps[0].max && k <= |s| && AllInClass(s[..k], ps[0].chars) && Matches(ps[1..], s[k..])
  }

  const LOWER := Range('a', 'z')
  const UPPER := Range('A', 'Z')
  const DIGITS := Range('0', '9')
  const DASH := Range('-', '-')
  const FAMILY_RE := [Piece([LOWER, DIGITS, DASH], 1, 32)]
  const AGENT_RE := [Piece([LOWER, DIGITS, Range('_', '_'), DASH], 1, 32)]
  const KEY_ID_RE := [Piece([UPPER, LOWER, DIGITS, Range('.', '.'), Range('_', '_'), DASH], 1, 64)]

  function HexPiece(n: nat): Piece { Piece([DIGITS, Range('a', 'f')], n, n) }

  function DigitPiece(n: nat): Piece { Piece([DIGITS], n, n) }

  function One(c: char): Piece { Piece([Range(c, c)], 1, 1) }

  const UUID_RE := [HexPiece(8), One('-'), HexPiece(4), One('-'), HexPiece(4), One('-'), HexPiece(4), One('-'), HexPiece(12)]
  const TIMESTAMP_RE := [DigitPiece(4), One('-'), DigitPiece(2), One('-'), DigitPiece(2), One('T'), DigitPiece(2), One(':'),
                         DigitPiece(2), One(':'), DigitPiece(2), One('Z')]

  /** A single piece matches by length and class. */
  lemma OnePiece(p: Piece, s: string)
    ensures Matches([p], s) <==> p.min <= |s| <= p.max && AllInClass(s, p.chars)
  {
    assert s[..|s|] == s && s[|s|..] == "";
    assert [p][1..] == [];
    assert forall k :: 0 <= k <= |s| && s[k..] == "" ==> k == |s|;
  }

  /** A first piece of fixed length takes that many characters. */
  lemma FixedPiece(ps: seq<Piece>, s: string)
    requires |ps| > 0 && ps[0].min == ps[0].max
    ensures Matches(ps, s) <==> ps[0].min <= |s| && AllInClass(s[..ps[0].min], ps[0].chars) && Matches(ps[1..], s[ps[0].min..])
  {
  }

  /** The class at each position of a pattern of fixed length. */
  function ClassAt(ps: seq<Piece>, i: nat): seq<Range> {
    if ps == [] then [] else if i < ps[0].min then ps[0].chars else ClassAt(ps[1..], i - ps[0].min)
  }

  function Width(ps: seq<Piece>): nat { if ps == [] then 0 else ps[0].min + Width(ps[1..]) }

  lemma {:induction false} FixedPattern(ps: seq<Piece>, s: string)
    requires forall i :: 0 <= i < |ps| ==> ps[i].min == ps[i].max
    ensures Matches(ps, s) <==> |s| == Width(ps) && forall i :: 0 <= i < |s| ==> InClass(s[i], ClassAt(ps, i))
    decreases |ps|
  {
    if ps != [] {
      var m := ps[0].min;
      FixedPiece(ps, s);
      if m <= |s| {
        var t := s[m..];
        FixedPattern(ps[1..], t);
        assert forall i :: 0 <= i < m ==> s[..m][i] == s[i] && ClassAt(ps, i) == ps[0].chars;
        assert forall i :: 0 <= i < |t| ==> t[i] == s[m + i] && ClassAt(ps, m + i) == ClassAt(ps[1..], i);
        assert forall i :: m <= i < |s| ==> s[i] == t[i - m];
      }
    }
  }

  lemma ClassOfName(c: char)
    ensures InClass(c, FAMILY_RE[0].chars) <==> Lower(c) || DigitChar(c) || c == '-'
    ensures InClass(c, AGENT_RE[0].chars) <==> Lower(c) || DigitChar(c) || c == '-' || c == '_'
  {
    var f, a := FAMILY_RE[0].chars, AGENT_RE[0].chars;
    assert f[0] == LOWER && f[1] == DIGITS && f[2] == DASH;
    assert a[0] == LOWER && a[1] == DIGITS && a[2] == Range('_', '_') && a[3] == DASH;
  }

  lemma ClassOfKeyId(c: char)
    ensures InClass(c, KEY_ID_RE[0].chars) <==> Lower(c) || 'A' <= c <= 'Z' || DigitChar(c) || c == '.' || c == '_' || c == '-'
  {
    var k := KEY_ID_RE[0].chars;
    assert k[0] == UPPER && k[1] == LOWER && k[2] == DIGITS && k[3] == Range('.', '.') && k[4] == Range('_', '_') && k[5] == DASH;
  }

  /** The names are the texts their patterns match. */
  lemma NamesMatch(s: string)
    ensures IsFamily(s) <==> Matches(FAMILY_RE, s)
    ensures IsAgent(s) <==> Matches(AGENT_RE, s)
    ensures IsKeyId(s) <==> Matches(KEY_ID_RE, s)
  {
    OnePiece(FAMILY_RE[0], s);
    OnePiece(AGENT_RE[0], s);
    OnePiece(KEY_ID_RE[0], s);
    forall i | 0 <= i < |s|
      ensures InClass(s[i], FAMILY_RE[0].chars) <==> Lower(s[i]) || DigitChar(s[i]) || s[i] == '-'
      ensures InClass(s[i], AGENT_RE[0].chars) <==> Lower(s[i]) || DigitChar(s[i]) || s[i] == '-' || s[i] == '_'
      ensures InClass(s[i], KEY_ID_RE[0].chars) <==>
                Lower(s[i]) || 'A' <= s[i] <= 'Z' || DigitChar(s[i]) || s[i] == '.' || s[i] == '_' || s[i] == '-'
    {
      ClassOfName(s[i]);
      ClassOfKeyId(s[i]);
    }
    hide InClass;
  }

  lemma PieceClasses(c: char, n: nat, d: char)
    ensures InClass(c, HexPiece(n).chars) <==> Hex(c)
    ensures InClass(c, DigitPiece(n).chars) <==> DigitChar(c)
    ensures InClass(c, One(d).chars) <==> c == d
  {
    assert HexPiece(n).chars[0] == DIGITS && HexPiece(n).chars[1] == Range('a', 'f');
    assert DigitPiece(n).chars[0] == DIGITS && One(d).chars[0] == Range(d, d);
  }

  /** A separator and a piece before the rest of a pattern of fixed length. */
  function Then(sep: char, p: Piece, rest: seq<Piece>): seq<Piece> { [One(sep), p] + rest }

  lemma ThenAt(sep: char, p: Piece, rest: seq<Piece>, i: nat)
    ensures Width(Then(sep, p, rest)) == 1 + p.min + Width(rest)
    ensures ClassAt(Then(sep, p, rest), i) ==
            if i == 0 then One(sep).chars else if i <= p.min then p.chars else ClassAt(rest, i - 1 - p.min)
  {
    assert Then(sep, p, rest)[1..] == [p] + rest && ([p] + rest)[1..] == rest;
  }

  lemma FirstAt(p: Piece, rest: seq<Piece>, i: nat)
    ensures Width([p] + rest) == p.min + Width(rest)
    ensures ClassAt([p] + rest, i) == if i < p.min then p.chars else ClassAt(rest, i - p.min)
  {
    assert ([p] + rest)[1..] == rest;
  }

  function Back(i: nat, n: nat): nat { if i < n then 0 else i - n }

  lemma UuidClass(i: nat)
    ensures Width(UUID_RE) == 36
    ensures i < 36 ==>
              ClassAt(UUID_RE, i) == if i == 8 || i == 13 || i == 18 || i == 23 then One('-').chars else HexPiece(8).chars
  {
    var four := HexPiece(4);
    var p4 := Then('-', HexPiece(12), []);
    var p3 := Then('-', four, p4);
    var p2 := Then('-', four, p3);
    var p1 := Then('-', four, p2);
    assert UUID_RE == [HexPiece(8)] + p1;
    assert Width([]) == 0;
    hide ClassAt, Width, Then;
    FirstAt(HexPiece(8), p1, i);
    ThenAt('-', four, p2, Back(i, 8));
    ThenAt('-', four, p3, Back(i, 13));
    ThenAt('-', four, p4, Back(i, 18));
    ThenAt('-', HexPiece(12), [], Back(i, 23));
  }

  /** An event id is the text of a UUID in lower case. */
  lemma UuidMatches(s: string)
    ensures IsUuid(s) <==> Matches(UUID_RE, s)
  {
    hide InClass, ClassAt, Width, Matches;
    FixedUuid(s);
    UuidClass(0);
    forall i | 0 <= i < |s| && |s| == 36
      ensures InClass(s[i], ClassAt(UUID_RE, i)) <==> if i == 8 || i == 13 || i == 18 || i == 23 then s[i] == '-' else Hex(s[i])
    {
      UuidClass(i);
      PieceClasses(s[i], 8, '-');
    }
  }

  function ClockPieces(): seq<Piece> {
    Then('T', DigitPiece(2), Then(':', DigitPiece(2), Then(':', DigitPiece(2), [One('Z')] + [])))
  }

  lemma ClockClass(i: nat)
    ensures Width(ClockPieces()) == 10
    ensures i < 10 ==> ClassAt(ClockPieces(), i) ==
                       if i == 0 then One('T').chars else if i == 3 || i == 6 then One(':').chars
                       else if i == 9 then One('Z').chars else DigitPiece(2).chars
  {
    var two := DigitPiece(2);
    var p3 := [One('Z')] + [];
    var p2 := Then(':', two, p3);
    var p1 := Then(':', two, p2);
    assert Width([]) == 0;
    hide ClassAt, Width, Then;
    ThenAt('T', two, p1, i);
    ThenAt(':', two, p2, Back(i, 3));
    ThenAt(':', two, p3, Back(i, 6));
    FirstAt(One('Z'), [], Back(i, 9));
  }

  lemma TimestampPieces()
    ensures TIMESTAMP_RE == [DigitPiece(4)] + Then('-', DigitPiece(2), Then('-', DigitPiece(2), ClockPieces()))
  {
    hide DigitPiece, One;
  }

  lemma TimestampClass(i: nat)
    ensures Width(TIMESTAMP_RE) == 20
    ensures i < 20 ==> ClassAt(TIMESTAMP_RE, i) ==
                       if i == 4 || i == 7 then One('-').chars else if i == 10 then One('T').chars
                       else if i == 13 || i == 16 then One(':').chars else if i == 19 then One('Z').chars else DigitPiece(2).chars
  {
    hide ClassAt, Width, Then, TIMESTAMP_RE, ClockPieces;
    var two := DigitPiece(2);
    var p1 := Then('-', two, ClockPieces());
    TimestampPieces();
    FirstAt(DigitPiece(4), Then('-', two, p1), i);
    ThenAt('-', two, p1, Back(i, 4));
    ThenAt('-', two, ClockPieces(), Back(i, 7));
    ClockClass(Back(i, 10));
  }

  lemma TimestampChar(s: string, i: nat)
    requires i < |s| == 20
    ensures InClass(s[i], ClassAt(TIMESTAMP_RE, i)) <==> FitsShape(s, i)
  {
    TimestampClass(i);
    hide ClassAt, Width, InClass;
    PieceClasses(s[i], 2, if i == 10 then 'T' else if i == 19 then 'Z' else if i == 4 || i == 7 then '-' else ':');
  }

  /** A timestamp is a text of the pattern whose numbers name a second that exists. */
  lemma TimestampMatches(s: string)
    ensures IsTimestamp(s) <==> Matches(TIMESTAMP_RE, s) && |s| == 20 && R.Valid(ReadStamp(s))
  {
    hide InClass, ClassAt, Width, Matches, R.Valid, ReadStamp, FitsShape, TimestampFrom, TIMESTAMP_RE;
    FixedTimestamp(s);
    TimestampClass(0);
    if |s| == 20 {
      TimestampIff(s, 0);
      forall i: nat | i < |s| { TimestampChar(s, i); }
    }
  }

  lemma FixedUuid(s: string)
    ensures Matches(UUID_RE, s) <==> |s| == Width(UUID_RE) && forall i :: 0 <= i < |s| ==> InClass(s[i], ClassAt(UUID_RE, i))
  {
    hide InClass, ClassAt, Width, Matches;
    assert forall i :: 0 <= i < |UUID_RE| ==> UUID_RE[i].min == UUID_RE[i].max;
    FixedPattern(UUID_RE, s);
  }

  lemma FixedTimestamp(s: string)
    ensures Matches(TIMESTAMP_RE, s) <==>
              |s| == Width(TIMESTAMP_RE) && forall i :: 0 <= i < |s| ==> InClass(s[i], ClassAt(TIMESTAMP_RE, i))
  {
    hide InClass, ClassAt, Width, Matches;
    assert forall i :: 0 <= i < |TIMESTAMP_RE| ==> TIMESTAMP_RE[i].min == TIMESTAMP_RE[i].max;
    FixedPattern(TIMESTAMP_RE, s);
  }

  const TEXT_LIMIT := 8192
  const REQUEST_BODY_LIMIT := 16384

  // ----------------------------------------------------------------- addresses

  datatype Addr = Addr(agent: string, family: string)

  predicate ValidAddr(a: Addr) { IsAgent(a.agent) && IsFamily(a.family) }

  function AddressText(a: Addr): string { a.agent + ("@" + a.family) }

  function CountAt(s: string): nat {
    if s == "" then 0 else (if s[0] == '@' then 1 else 0) + CountAt(s[1..])
  }

  function BeforeAt(s: string): string {
    if s == "" || s[0] == '@' then "" else [s[0]] + BeforeAt(s[1..])
  }

  function AfterAt(s: string): string {
    if s == "" then "" else if s[0] == '@' then s[1..] else AfterAt(s[1..])
  }

  function ParseAddress(s: string): Option<Addr> {
    if CountAt(s) != 1 then None
    else
      var a := Addr(BeforeAt(s), AfterAt(s));
      if !ValidAddr(a) || |s| > 65 then None else Some(a)
  }

  lemma {:induction false} SplitOfJoin(agent: string, family: string)
    requires '@' !in agent
    ensures BeforeAt(agent + ("@" + family)) == agent && AfterAt(agent + ("@" + family)) == family
    ensures CountAt(agent + ("@" + family)) == 1 + CountAt(family)
    decreases |agent|
  {
    var s := agent + ("@" + family);
    if agent == "" {
      assert s[1..] == family;
    } else {
      assert s[1..] == agent[1..] + ("@" + family);
      SplitOfJoin(agent[1..], family);
    }
  }

  lemma {:induction false} JoinOfSplit(s: string)
    requires CountAt(s) >= 1
    ensures s == BeforeAt(s) + ("@" + AfterAt(s))
    decreases |s|
  {
    if s[0] != '@' {
      JoinOfSplit(s[1..]);
      assert s == [s[0]] + s[1..];
    } else {
      assert s == "@" + s[1..];
    }
  }

  lemma {:induction false} NoAt(s: string)
    requires '@' !in s
    ensures CountAt(s) == 0
    decreases |s|
  {
    if s != "" { NoAt(s[1..]); }
  }

  /** Parsing accepts exactly the texts of grammar-valid addresses, and inverts them. */
  lemma ParseAddressIff(s: string, a: Addr)
    ensures ParseAddress(s) == Some(a) <==> s == AddressText(a) && ValidAddr(a)
  {
    if ParseAddress(s) == Some(a) {
      JoinOfSplit(s);
    }
    if s == AddressText(a) && ValidAddr(a) {
      assert '@' !in a.agent && '@' !in a.family;
      SplitOfJoin(a.agent, a.family);
      NoAt(a.family);
    }
  }

  // ------------------------------------------------------------------- intents

  /** A name-based UUID as an ideal constructor. */
  datatype Intent = Uuid5(name: string)

  function Join(parts: seq<string>): string {
    if parts == [] then "" else if |parts| == 1 then parts[0] else parts[0] + (":" + Join(parts[1..]))
  }

  function StableIntent(parts: seq<string>): Intent { Uuid5("atalk-fed-notify:" + Join(parts)) }

  predicate ColonFree(s: string) { ':' !in s }

  predicate AllColonFree(parts: seq<string>) { forall i :: 0 <= i < |parts| ==> ColonFree(parts[i]) }

  lemma {:induction false} FirstPart(a: string, x: string, b: string, y: string)
    requires ColonFree(a) && ColonFree(b) && a + (":" + x) == b + (":" + y)
    ensures a == b && x == y
    decreases |a|
  {
    var s := a + (":" + x);
    var t := b + (":" + y);
    assert a == "" ==> s[0] == ':';
    assert b == "" ==> t[0] == ':';
    assert a != "" ==> s[0] == a[0] && a[0] in a;
    assert b != "" ==> t[0] == b[0] && b[0] in b;
    if a == "" {
      assert x == s[1..] && y == t[1..];
    } else {
      assert s[1..] == a[1..] + (":" + x) && t[1..] == b[1..] + (":" + y);
      FirstPart(a[1..], x, b[1..], y);
      assert a == [a[0]] + a[1..] && b == [b[0]] + b[1..];
    }
  }

  lemma JoinHasColon(parts: seq<string>)
    requires |parts| > 1
    ensures !ColonFree(Join(parts))
  {
    assert Join(parts)[|parts[0]|] == ':';
  }

  /** Joining with ":" is injective on parts without one. */
  lemma {:induction false} JoinInjective(p: seq<string>, q: seq<string>)
    requires AllColonFree(p) && AllColonFree(q) && p != [] && q != [] && Join(p) == Join(q)
    ensures p == q
    decreases |p|
  {
    if |p| == 1 && |q| > 1 {
      JoinHasColon(q);
    } else if |p| > 1 && |q| == 1 {
      JoinHasColon(p);
    } else if |p| > 1 {
      FirstPart(p[0], Join(p[1..]), q[0], Join(q[1..]));
      JoinInjective(p[1..], q[1..]);
      assert p == [p[0]] + p[1..] && q == [q[0]] + q[1..];
    }
  }

  datatype ReceiptKey = ReceiptKey(eventId: string, agent: Addr, ackType: string)

  predicate ValidKey(k: ReceiptKey) { IsUuid(k.eventId) && ValidAddr(k.agent) && IsAckType(k.ackType) }

  function SendFailedIntent(eventId: string): Intent { StableIntent(["send_failed", eventId]) }

  function ReceiptIntent(k: ReceiptKey): Intent {
    StableIntent(["receipt", k.eventId, AddressText(k.agent), k.ackType])
  }

  function ReceiptFailedIntent(k: ReceiptKey): Intent {
    StableIntent(["receipt_send_failed", k.eventId, AddressText(k.agent), k.ackType])
  }

  lemma UuidColonFree(s: string)
    requires IsUuid(s)
    ensures ColonFree(s)
  {
  }

  lemma AddressColonFree(a: Addr)
    requires ValidAddr(a)
    ensures ColonFree(AddressText(a))
  {
  }

  lemma StableInjective(p: seq<string>, q: seq<string>)
    requires AllColonFree(p) && AllColonFree(q) && p != [] && q != [] && StableIntent(p) == StableIntent(q)
    ensures p == q
  {
    var prefix := "atalk-fed-notify:";
    assert (prefix + Join(p))[|prefix|..] == Join(p) && (prefix + Join(q))[|prefix|..] == Join(q);
    JoinInjective(p, q);
  }

  lemma SendFailedInjective(a: string, b: string)
    requires IsUuid(a) && IsUuid(b) && SendFailedIntent(a) == SendFailedIntent(b)
    ensures a == b
  {
    UuidColonFree(a);
    UuidColonFree(b);
    var p, q := ["send_failed", a], ["send_failed", b];
    StableInjective(p, q);
    assert p[1] == q[1];
  }

  lemma ReceiptPartsColonFree(kind: string, k: ReceiptKey)
    requires ColonFree(kind) && ValidKey(k)
    ensures AllColonFree([kind, k.eventId, AddressText(k.agent), k.ackType])
  {
    UuidColonFree(k.eventId);
    AddressColonFree(k.agent);
  }

  lemma ReceiptPartsInjective(x: string, y: string, k: ReceiptKey, j: ReceiptKey)
    requires ColonFree(x) && ColonFree(y) && ValidKey(k) && ValidKey(j)
    requires StableIntent([x, k.eventId, AddressText(k.agent), k.ackType])
          == StableIntent([y, j.eventId, AddressText(j.agent), j.ackType])
    ensures x == y && k == j
  {
    ReceiptPartsColonFree(x, k);
    ReceiptPartsColonFree(y, j);
    var p, q := [x, k.eventId, AddressText(k.agent), k.ackType], [y, j.eventId, AddressText(j.agent), j.ackType];
    StableInjective(p, q);
    assert p[0] == q[0] && p[1] == q[1] && p[2] == q[2] && p[3] == q[3];
    ParseAddressIff(AddressText(k.agent), k.agent);
    ParseAddressIff(AddressText(j.agent), j.agent);
  }

  /** On grammar-valid parts the three kinds of intent never coincide, and each is injective. */
  lemma IntentsAreDistinct(e: string, d: string, k: ReceiptKey, j: ReceiptKey)
    requires IsUuid(e) && IsUuid(d) && ValidKey(k) && ValidKey(j)
    ensures SendFailedIntent(e) == SendFailedIntent(d) ==> e == d
    ensures ReceiptIntent(k) == ReceiptIntent(j) ==> k == j
    ensures ReceiptFailedIntent(k) == ReceiptFailedIntent(j) ==> k == j
    ensures SendFailedIntent(e) != ReceiptIntent(k) && SendFailedIntent(e) != ReceiptFailedIntent(k)
    ensures ReceiptIntent(k) != ReceiptFailedIntent(j)
  {
    if SendFailedIntent(e) == SendFailedIntent(d) { SendFailedInjective(e, d); }
    if ReceiptIntent(k) == ReceiptIntent(j) { ReceiptPartsInjective("receipt", "receipt", k, j); }
    if ReceiptFailedIntent(k) == ReceiptFailedIntent(j) {
      ReceiptPartsInjective("receipt_send_failed", "receipt_send_failed", k, j);
    }
    var s := ["send_failed", e];
    UuidColonFree(e);
    ReceiptPartsColonFree("receipt", k);
    ReceiptPartsColonFree("receipt_send_failed", k);
    if SendFailedIntent(e) == ReceiptIntent(k) {
      StableInjective(s, ["receipt", k.eventId, AddressText(k.agent), k.ackType]);
    }
    if SendFailedIntent(e) == ReceiptFailedIntent(k) {
      StableInjective(s, ["receipt_send_failed", k.eventId, AddressText(k.agent), k.ackType]);
    }
    if ReceiptIntent(k) == ReceiptFailedIntent(j) {
      ReceiptPartsInjective("receipt", "receipt_send_failed", k, j);
    }
  }

  // ----------------------------------------------------------------- documents

  /** The signed event; text stands for its UTF-8 octets. */
  datatype FedEvent = FedEvent(eventId: string, kind: string, source: Addr, target: Addr, createdAt: string,
                               text: string, inReplyTo: Option<string>)

  datatype SignedEvent = SignedEvent(origin: string, keyId: string, event: FedEvent)

  datatype Receipt = Receipt(eventId: string, origin: string, sigHash: Digest, agent: Addr, ackType: string, at: string)

  datatype SignedReceipt = SignedReceipt(issuer: string, keyId: string, receipt: Receipt)

  datatype Doc = EventDoc(event: SignedEvent) | ReceiptDoc(receipt: SignedReceipt)

  datatype Key = Key(id: nat)

  /** A signature names its key and document; a dishonest signer may make several (tag). */
  datatype Signature = Sig(key: Key, doc: Doc, tag: nat)

  datatype Digest = Sha256(of: Signature)

  datatype Envelope = EventEnvelope(event: SignedEvent, sig: Signature) | ReceiptEnvelope(receipt: SignedReceipt, sig: Signature)

  predicate Verifies(key: Key, doc: Doc, sig: Signature) { sig.key == key && sig.doc == doc }

  function IssuerOf(d: Doc): string {
    match d case EventDoc(e) => e.origin case ReceiptDoc(r) => r.issuer
  }

  /** The schema's checks on an event; which one fails first only changes the error category. */
  predicate ValidEvent(s: SignedEvent) {
    var ev := s.event;
    && IsFamily(s.origin) && IsKeyId(s.keyId) && IsUuid(ev.eventId) && IsEventType(ev.kind)
    && ValidAddr(ev.source) && ev.source.family == s.origin && ValidAddr(ev.target) && IsTimestamp(ev.createdAt)
    && |ev.text| <= TEXT_LIMIT
    && (ev.inReplyTo.Some? ==> ev.kind == "reply" && IsUuid(ev.inReplyTo.value))
  }

  predicate ValidReceipt(s: SignedReceipt) {
    var rc := s.receipt;
    && IsFamily(s.issuer) && IsKeyId(s.keyId) && IsUuid(rc.eventId) && IsFamily(rc.origin)
    && ValidAddr(rc.agent) && IsAckType(rc.ackType) && IsTimestamp(rc.at)
  }

  // ----------------------------------------------------------------- body sizes

  /** Octets a text takes between the quotes of canonical JSON. */
  function Escaped(text: string): nat {
    if text == "" then 0
    else
      var c := text[0];
      (if c == '"' || c == '\\' || c == '\n' || c == '\r' || c == '\t' || c == 8 as char || c == 12 as char then 2
       else if c < ' ' then 6 else 1) + Escaped(text[1..])
  }

  function Member(name: string, value: nat): nat { |name| + 3 + value }

  function Quoted(s: string): nat { Escaped(s) + 2 }

  const SIG_LENGTH := 86
  const HASH_LENGTH := 64

  /** The canonical envelope without the octets of the escaped text. */
  function EventOverhead(s: SignedEvent): nat {
    var ev := s.event;
    var body := 2 + Member("created_at", Quoted(ev.createdAt)) + 1 + Member("event_id", Quoted(ev.eventId))
                + (if ev.inReplyTo.Some? then 1 + Member("in_reply_to", Quoted(ev.inReplyTo.value)) else 0)
                + 1 + Member("payload", 2 + Member("text", 2))
                + 1 + Member("source", Quoted(AddressText(ev.source))) + 1 + Member("target", Quoted(AddressText(ev.target)))
                + 1 + Member("type", Quoted(ev.kind));
    2 + Member("event", body) + 1 + Member("key_id", Quoted(s.keyId)) + 1 + Member("kind", Quoted("federation.event.v0"))
    + 1 + Member("origin", Quoted(s.origin)) + 1 + Member("sig", 2 + SIG_LENGTH)
  }

  function ReceiptSize(s: SignedReceipt): nat {
    var rc := s.receipt;
    var body := 2 + Member("ack_type", Quoted(rc.ackType)) + 1 + Member("agent", Quoted(AddressText(rc.agent)))
                + 1 + Member("at", Quoted(rc.at)) + 1 + Member("event_id", Quoted(rc.eventId))
                + 1 + Member("origin", Quoted(rc.origin)) + 1 + Member("origin_event_sig_hash", 2 + HASH_LENGTH);
    2 + Member("issuer", Quoted(s.issuer)) + 1 + Member("key_id", Quoted(s.keyId)) + 1 + Member("kind", Quoted("federation.receipt.v0"))
    + 1 + Member("receipt", body) + 1 + Member("sig", 2 + SIG_LENGTH)
  }

  /** The canonical body of an envelope, in octets. */
  function BodySize(env: Envelope): nat {
    match env
    case EventEnvelope(s, _) => EventOverhead(s) + Escaped(s.event.text)
    case ReceiptEnvelope(s, _) => ReceiptSize(s)
  }

  lemma {:induction false} EscapedBounds(text: string)
    ensures |text| <= Escaped(text) <= 6 * |text|
    decreases |text|
  {
    if text != "" { EscapedBounds(text[1..]); }
  }

  /** No valid receipt is too large, and an event is too large only through its escaped text. */
  lemma OnlyEscapesOverflow(s: SignedEvent, r: SignedReceipt, sig: Signature)
    requires ValidEvent(s) && ValidReceipt(r)
    ensures BodySize(ReceiptEnvelope(r, sig)) <= REQUEST_BODY_LIMIT
    ensures BodySize(EventEnvelope(s, sig)) > REQUEST_BODY_LIMIT ==> Escaped(s.event.text) > |s.event.text| + 7000
  {
    hide EventOverhead, ReceiptSize, ValidReceipt, Escaped, IsFamily, IsKeyId, IsUuid, IsTimestamp, ValidAddr, IsEventType;
    EventOverheadBound(s);
    ReceiptSizeBound(r);
  }

  predicate Simple(s: string) { forall i :: 0 <= i < |s| ==> s[i] >= ' ' && s[i] != '"' && s[i] != '\\' }

  /** Texts of the grammars need no escapes. */
  lemma {:induction false} SimpleIsPlain(s: string)
    requires Simple(s)
    ensures Escaped(s) == |s|
    decreases |s|
  {
    if s != "" { SimpleIsPlain(s[1..]); }
  }

  lemma FamilyIsPlain(s: string)
    requires IsFamily(s)
    ensures Escaped(s) == |s| <= 32
  {
    assert forall i :: 0 <= i < |s| ==> s[i] in s;
    SimpleIsPlain(s);
  }

  lemma KeyIdIsPlain(s: string)
    requires IsKeyId(s)
    ensures Escaped(s) == |s| <= 64
  {
    assert forall i :: 0 <= i < |s| ==> s[i] in s;
    SimpleIsPlain(s);
  }

  lemma UuidIsPlain(s: string)
    requires IsUuid(s)
    ensures Escaped(s) == |s| == 36
  {
    SimpleIsPlain(s);
  }

  lemma PlainWords()
    ensures Simple("message") && Simple("reply") && Simple("received") && Simple("applied")
    ensures Simple("federation.event.v0") && Simple("federation.receipt.v0")
  {
  }

  lemma WordIsPlain(s: string)
    requires IsEventType(s) || IsAckType(s)
    ensures Escaped(s) == |s| <= 8
  {
    hide Escaped, Simple;
    PlainWords();
    if s == "message" {
      SimpleIsPlain("message");
    } else if s == "reply" {
      SimpleIsPlain("reply");
    } else if s == "received" {
      SimpleIsPlain("received");
    } else {
      SimpleIsPlain("applied");
    }
  }

  lemma AddressIsPlain(a: Addr)
    requires ValidAddr(a)
    ensures Escaped(AddressText(a)) == |AddressText(a)| <= 65
  {
    assert forall i :: 0 <= i < |a.agent| ==> a.agent[i] in a.agent;
    assert forall i :: 0 <= i < |a.family| ==> a.family[i] in a.family;
    SimpleIsPlain(AddressText(a));
  }

  lemma TimestampIsPlain(s: string)
    requires IsTimestamp(s)
    ensures Escaped(s) == |s| == 20
  {
    TimestampIff(s, 0);
    forall i | 0 <= i < |s| ensures s[i] >= ' ' && s[i] != '"' && s[i] != '\\' { assert FitsShape(s, i); }
    SimpleIsPlain(s);
  }

  lemma EventOverheadBound(s: SignedEvent)
    requires ValidEvent(s)
    ensures EventOverhead(s) <= 700
  {
    var ev := s.event;
    TimestampIsPlain(ev.createdAt);
    UuidIsPlain(ev.eventId);
    if ev.inReplyTo.Some? { UuidIsPlain(ev.inReplyTo.value); }
    AddressIsPlain(ev.source);
    AddressIsPlain(ev.target);
    WordIsPlain(ev.kind);
    KeyIdIsPlain(s.keyId);
    PlainWords();
    SimpleIsPlain("federation.event.v0");
    FamilyIsPlain(s.origin);
    hide Escaped, IsTimestamp, AddressText, IsFamily, IsKeyId, IsUuid, IsEventType, ValidAddr, ValidEvent, Simple;
  }

  lemma ReceiptSizeBound(r: SignedReceipt)
    requires ValidReceipt(r)
    ensures ReceiptSize(r) <= 700
  {
    var rc := r.receipt;
    WordIsPlain(rc.ackType);
    AddressIsPlain(rc.agent);
    TimestampIsPlain(rc.at);
    UuidIsPlain(rc.eventId);
    FamilyIsPlain(rc.origin);
    FamilyIsPlain(r.issuer);
    KeyIdIsPlain(r.keyId);
    PlainWords();
    SimpleIsPlain("federation.receipt.v0");
    hide Escaped, IsTimestamp, AddressText, IsFamily, IsKeyId, IsUuid, IsAckType, ValidAddr, ValidReceipt, Simple;
  }

  function Controls(n: nat): string { if n == 0 then "" else [1 as char] + Controls(n - 1) }

  lemma {:induction false} ControlsEscape(n: nat)
    ensures |Controls(n)| == n && Escaped(Controls(n)) == 6 * n
    decreases n
  {
    if n > 0 {
      ControlsEscape(n - 1);
      assert Controls(n)[1..] == Controls(n - 1);
    }
  }

  /** Composing checks the schema only: with a text of control characters the same event passes it
      and is too large for every inbox. */
  lemma ValidButTooLarge(s: SignedEvent, sig: Signature)
    requires ValidEvent(s)
    ensures var t := s.(event := s.event.(text := Controls(TEXT_LIMIT)));
            ValidEvent(t) && BodySize(EventEnvelope(t, sig)) > REQUEST_BODY_LIMIT
  {
    ControlsEscape(TEXT_LIMIT);
  }
}
