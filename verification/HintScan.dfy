/** The push scan of pending notifications: keyset pages, a budget per cycle, a persisting cursor. */
module HintScan {
  import opened Options
  import opened TextOrder

  /** The columns the scan orders by; the intent id is the primary key. */
  datatype Key = Key(createdAt: string, intentId: string)

  datatype Row = Row(createdAt: string, agent: Option<string>, hintSent: bool, acked: bool)

  type Table = map<string, Row>

  const PAGE := 100
  const BUDGET := 5000

  predicate Less(a: Key, b: Key) {
    Before(a.createdAt, b.createdAt) || (a.createdAt == b.createdAt && Before(a.intentId, b.intentId))
  }

  lemma LessTransitive(a: Key, b: Key, c: Key)
    requires Less(a, b) && Less(b, c)
    ensures Less(a, c)
  {
    if Before(a.createdAt, b.createdAt) && Before(b.createdAt, c.createdAt) {
      Transitive(a.createdAt, b.createdAt, c.createdAt);
    } else if a.createdAt == b.createdAt == c.createdAt {
      Transitive(a.intentId, b.intentId, c.intentId);
    }
  }

  lemma LessTotal(a: Key, b: Key)
    ensures a == b || Less(a, b) || Less(b, a)
  {
    Total(a.createdAt, b.createdAt);
    Total(a.intentId, b.intentId);
  }

  lemma LessIrreflexive(a: Key)
    ensures !Less(a, a)
  {
    Irreflexive(a.createdAt);
    Irreflexive(a.intentId);
  }

  lemma LessAsymmetric(a: Key, b: Key)
    requires Less(a, b)
    ensures !Less(b, a) && a != b
  {
    LessIrreflexive(a);
    if Less(b, a) { LessTransitive(a, b, a); }
  }

  predicate Beyond(cursor: Option<Key>, k: Key) {
    cursor.None? || Less(cursor.value, k)
  }

  function Ahead(pending: set<Key>, cursor: Option<Key>): set<Key> {
    set k | k in pending && Beyond(cursor, k)
  }

  /** Agent rows not yet hinted and not acknowledged. */
  function Pending(t: Table): set<Key> {
    set id | id in t && t[id].agent.Some? && !t[id].hintSent && !t[id].acked :: Key(t[id].createdAt, id)
  }

  function Min(a: nat, b: nat): nat { if a < b then a else b }

  predicate Increasing(s: seq<Key>) {
    forall i, j :: 0 <= i < j < |s| ==> Less(s[i], s[j])
  }

  /** s is exactly the first min(n, all) keys of a set, in order: no key is skipped for a later one. */
  ghost predicate FirstOf(s: seq<Key>, keys: set<Key>, n: nat) {
    && Increasing(s)
    && (forall k :: k in s ==> k in keys)
    && |s| == Min(n, |keys|)
    && (forall k, j :: k in keys && k !in s && j in s ==> Less(j, k))
  }

  lemma {:induction false} LeastExists(keys: set<Key>) returns (least: Key)
    requires keys != {}
    ensures least in keys && forall k :: k in keys ==> k == least || Less(least, k)
    decreases |keys|
  {
    var x :| x in keys;
    if keys == {x} {
      least := x;
    } else {
      var y := LeastExists(keys - {x});
      LessTotal(x, y);
      if Less(x, y) {
        least := x;
        forall k | k in keys ensures k == least || Less(least, k) {
          if k != x && k != y { LessTransitive(x, y, k); }
        }
      } else {
        least := y;
      }
    }
  }

  /** The ordered, limited query behind one page. */
  method SelectPage(pending: set<Key>, after: Option<Key>, limit: nat) returns (page: seq<Key>)
    ensures FirstOf(page, Ahead(pending, after), limit)
  {
    var all := Ahead(pending, after);
    var rest := all;
    page := [];
    while |page| < limit && rest != {}
      invariant Increasing(page) && rest <= all && |page| + |rest| == |all| && |page| <= limit
      invariant forall k :: k in all <==> k in rest || k in page
      invariant forall j, k :: j in page && k in rest ==> Less(j, k)
      decreases |rest|
    {
      ghost var some := LeastExists(rest);
      var least :| least in rest && forall k :: k in rest ==> k == least || Less(least, k);
      LessIrreflexive(least);
      assert least !in page;
      page := page + [least];
      rest := rest - {least};
    }
  }

  // -------------------------------------------------------------------- cycles

  /** What one cycle leaves in the cursor: the last key examined, or the start again once a scan ran out. */
  function NextCursor(pending: set<Key>, cursor: Option<Key>, examined: seq<Key>): Option<Key> {
    if |Ahead(pending, cursor)| < BUDGET || examined == [] then None else Some(examined[|examined| - 1])
  }

  function Marked(t: Table, ids: set<string>): Table {
    map id | id in t :: if id in ids then t[id].(hintSent := true) else t[id]
  }

  /** The row's mark is set when its recipient takes the hint. */
  function MarkOne(t: Table, id: string, live: set<string>): Table {
    if id in live && id in t then t[id := t[id].(hintSent := true)] else t
  }

  function MarkAll(t: Table, s: seq<Key>, live: set<string>): Table {
    if s == [] then t else MarkOne(MarkAll(t, s[..|s| - 1], live), s[|s| - 1].intentId, live)
  }

  function Hints(s: seq<Key>, live: set<string>): nat {
    if s == [] then 0 else Hints(s[..|s| - 1], live) + if s[|s| - 1].intentId in live then 1 else 0
  }

  lemma {:induction false} MarkAllSplit(t: Table, a: seq<Key>, b: seq<Key>, live: set<string>)
    ensures MarkAll(t, a + b, live) == MarkAll(MarkAll(t, a, live), b, live)
    ensures Hints(a + b, live) == Hints(a, live) + Hints(b, live)
    decreases |b|
  {
    if b == [] {
      assert a + b == a;
    } else {
      assert (a + b)[..|a + b| - 1] == a + b[..|b| - 1];
      MarkAllSplit(t, a, b[..|b| - 1], live);
    }
  }

  /** The intents among the examined keys whose recipient took the hint. */
  function Accepted(examined: seq<Key>, live: set<string>): set<string> {
    set id | id in live && exists k :: k in examined && k.intentId == id
  }

  lemma {:induction false} MarkAllIs(t: Table, s: seq<Key>, live: set<string>)
    ensures MarkAll(t, s, live) == Marked(t, Accepted(s, live))
    decreases |s|
  {
    if s == [] {
      assert Accepted(s, live) == {};
    } else {
      var r, last := s[..|s| - 1], s[|s| - 1];
      MarkAllIs(t, r, live);
      assert s == r + [last];
      assert Accepted(s, live) == Accepted(r, live) + (if last.intentId in live then {last.intentId} else {});
    }
  }

  lemma IncreasingDistinct(s: seq<Key>)
    requires Increasing(s)
    ensures forall i, j :: 0 <= i < j < |s| ==> s[i] != s[j]
  {
    forall i, j | 0 <= i < j < |s| ensures s[i] != s[j] { LessAsymmetric(s[i], s[j]); }
  }

  lemma {:induction false} IncreasingSize(s: seq<Key>)
    requires Increasing(s)
    ensures |set k | k in s| == |s|
    decreases |s|
  {
    if s == [] {
      assert (set k | k in s) == {};
    } else {
      var r := s[..|s| - 1];
      IncreasingSize(r);
      IncreasingDistinct(s);
      var last := s[|s| - 1];
      assert last !in r;
      assert s == r + [last];
      assert (set k | k in s) == (set k | k in r) + {last};
    }
  }

  /** Beyond the last key examined lie exactly the keys the scan has not reached. */
  lemma AheadOfLast(pending: set<Key>, cursor: Option<Key>, s: seq<Key>, n: nat)
    requires FirstOf(s, Ahead(pending, cursor), n) && s != []
    ensures Ahead(pending, Some(s[|s| - 1])) == Ahead(pending, cursor) - (set k | k in s)
    ensures |Ahead(pending, Some(s[|s| - 1]))| == |Ahead(pending, cursor)| - |s|
  {
    var last := s[|s| - 1];
    assert last in s && Beyond(cursor, last);
    forall k | k in s ensures !Less(last, k) {
      LessIrreflexive(last);
      if k != last { LessAsymmetric(k, last); }
    }
    forall k | k in pending && Less(last, k) ensures k in Ahead(pending, cursor) {
      if cursor.Some? { LessTransitive(cursor.value, last, k); }
    }
    var seen := set k | k in s;
    assert Ahead(pending, Some(last)) == Ahead(pending, cursor) - seen;
    assert seen <= Ahead(pending, cursor);
    IncreasingSize(s);
  }

  /** A page after a full scan of n keys extends it. */
  lemma PagesJoin(pending: set<Key>, cursor: Option<Key>, s: seq<Key>, n: nat, page: seq<Key>, m: nat)
    requires FirstOf(s, Ahead(pending, cursor), n) && |s| == n && s != []
    requires FirstOf(page, Ahead(pending, Some(s[|s| - 1])), m)
    ensures FirstOf(s + page, Ahead(pending, cursor), n + m)
  {
    AheadOfLast(pending, cursor, s, n);
    var all, t := Ahead(pending, cursor), s + page;
    forall i, j | 0 <= i < j < |t| ensures Less(t[i], t[j]) {
      if i < |s| <= j {
        assert page[j - |s|] in page;
        assert page[j - |s|] in all - (set k | k in s);
      }
    }
  }

  lemma MarksBehind(t: Table, ids: set<string>, after: Option<Key>)
    requires forall id :: id in ids && id in t ==> !Beyond(after, Key(t[id].createdAt, id))
    ensures Ahead(Pending(Marked(t, ids)), after) == Ahead(Pending(t), after)
  {
    var m := Marked(t, ids);
    forall k ensures k in Ahead(Pending(m), after) <==> k in Ahead(Pending(t), after) {
      if k in Ahead(Pending(t), after) {
        assert k.intentId in t && Key(t[k.intentId].createdAt, k.intentId) == k;
        assert m[k.intentId] == t[k.intentId];
      }
      if k in Ahead(Pending(m), after) {
        assert k.intentId in m && Key(m[k.intentId].createdAt, k.intentId) == k;
        assert Key(t[k.intentId].createdAt, k.intentId) == k;
      }
    }
  }

  /** The cursor after a scan: its last key, or where it started. */
  function Reached(start: Option<Key>, examined: seq<Key>): Option<Key> {
    if examined == [] then start else Some(examined[|examined| - 1])
  }

  lemma PendingKey(t: Table, k: Key)
    requires k in Pending(t)
    ensures k.intentId in t && t[k.intentId].createdAt == k.createdAt
  {
  }

  /** Hints marked on the way do not change what lies ahead. */
  lemma MarksStayBehind(t: Table, start: Option<Key>, examined: seq<Key>, n: nat, live: set<string>)
    requires FirstOf(examined, Ahead(Pending(t), start), n)
    ensures var after := Reached(start, examined);
            Ahead(Pending(MarkAll(t, examined, live)), after) == Ahead(Pending(t), after)
  {
    var after := Reached(start, examined);
    forall id | id in Accepted(examined, live) && id in t ensures !Beyond(after, Key(t[id].createdAt, id)) {
      var k :| k in examined && k.intentId == id;
      PendingKey(t, k);
      LessIrreflexive(k);
      if k != after.value {
        LessAsymmetric(k, after.value);
      }
    }
    MarkAllIs(t, examined, live);
    MarksBehind(t, Accepted(examined, live), after);
  }

  lemma ScanStep(pending: set<Key>, start: Option<Key>, examined: seq<Key>, page: seq<Key>, m: nat)
    requires FirstOf(examined, Ahead(pending, start), |examined|)
    requires FirstOf(page, Ahead(pending, Reached(start, examined)), m)
    ensures FirstOf(examined + page, Ahead(pending, start), |examined| + |page|)
    ensures |page| < m ==> |Ahead(pending, start)| == |examined| + |page|
    ensures |Ahead(pending, start)| >= |examined| + |page|
  {
    if examined == [] {
      assert examined + page == page;
    } else {
      AheadOfLast(pending, start, examined, |examined|);
      PagesJoin(pending, start, examined, |examined|, page, m);
    }
  }

  /** A row for an agent that is neither hinted nor acknowledged, beyond the cursor in the order of time and then id. */
  predicate Awaits(t: Table, cursor: Option<Key>, id: string) {
    && id in t && t[id].agent != None && !t[id].hintSent && !t[id].acked
    && (cursor == None || Before(cursor.value.createdAt, t[id].createdAt)
        || (cursor.value.createdAt == t[id].createdAt && Before(cursor.value.intentId, id)))
  }

  /** What a cycle does, row by row: it examines the first 5000 rows that await, or all of them, in order; marks those whose
      recipient takes the hint and nothing else; counts them; and leaves the cursor at the last row, or at the start when it
      came to the end. */
  ghost predicate CycleDone(t: Table, cursor: Option<Key>, live: set<string>, examined: seq<Key>, t': Table, cursor': Option<Key>, hinted: nat) {
    && (forall k :: k in examined ==> Awaits(t, cursor, k.intentId) && k.createdAt == t[k.intentId].createdAt)
    && (forall i, j :: 0 <= i < j < |examined| ==> Less(examined[i], examined[j]))
    && |examined| <= 5000
    && (forall id :: Awaits(t, cursor, id) ==>
          Key(t[id].createdAt, id) in examined || (|examined| == 5000 && Less(examined[4999], Key(t[id].createdAt, id))))
    && t'.Keys == t.Keys
    && (forall id :: id in t ==>
          && t'[id].(hintSent := t[id].hintSent) == t[id]
          && (t'[id].hintSent <==> t[id].hintSent || (id in live && Key(t[id].createdAt, id) in examined)))
    && hinted == |set k | k in examined && k.intentId in live|
    && cursor' == if |examined| < 5000 then None else Some(examined[4999])
  }

  lemma {:induction false} HintsCount(s: seq<Key>, live: set<string>)
    requires Increasing(s)
    ensures Hints(s, live) == |set k | k in s && k.intentId in live|
    decreases |s|
  {
    if s == [] {
      assert (set k | k in s && k.intentId in live) == {};
    } else {
      var r, last := s[..|s| - 1], s[|s| - 1];
      HintsCount(r, live);
      IncreasingDistinct(s);
      assert last !in r && s == r + [last];
      TakenNext(r, last, live);
    }
  }

  lemma TakenNext(r: seq<Key>, last: Key, live: set<string>)
    requires last !in r
    ensures |set k | k in r + [last] && k.intentId in live|
         == |set k | k in r && k.intentId in live| + if last.intentId in live then 1 else 0
  {
    assert (set k | k in r + [last] && k.intentId in live)
        == (set k | k in r && k.intentId in live) + (if last.intentId in live then {last} else {});
  }

  lemma AwaitsIsAhead(t: Table, cursor: Option<Key>, id: string)
    ensures Awaits(t, cursor, id) <==> id in t && Key(t[id].createdAt, id) in Ahead(Pending(t), cursor)
  {
  }

  lemma CycleExactly(t: Table, cursor: Option<Key>, live: set<string>, examined: seq<Key>)
    requires FirstOf(examined, Ahead(Pending(t), cursor), BUDGET)
    ensures CycleDone(t, cursor, live, examined, MarkAll(t, examined, live), NextCursor(Pending(t), cursor, examined), Hints(examined, live))
  {
    MarkAllIs(t, examined, live);
    HintsCount(examined, live);
    forall k | k in examined ensures Awaits(t, cursor, k.intentId) && k.createdAt == t[k.intentId].createdAt {
      PendingKey(t, k);
      AwaitsIsAhead(t, cursor, k.intentId);
    }
    forall id | Awaits(t, cursor, id)
      ensures Key(t[id].createdAt, id) in examined || (|examined| == 5000 && Less(examined[4999], Key(t[id].createdAt, id)))
    {
      AwaitsIsAhead(t, cursor, id);
      if Key(t[id].createdAt, id) !in examined { NearRowIsExamined(Pending(t), cursor, Key(t[id].createdAt, id), examined); }
    }
    var t' := MarkAll(t, examined, live);
    forall id | id in t
      ensures t'[id].hintSent <==> t[id].hintSent || (id in live && Key(t[id].createdAt, id) in examined)
    {
      if k :| k in examined && k.intentId == id { PendingKey(t, k); }
    }
  }

  class Worker {
    var table: Table
    var hintCursor: Option<Key>

    constructor (table: Table)
      ensures this.table == table && hintCursor == None
    {
      this.table := table;
      hintCursor := None;
    }

    /** Push the rows of one page. */
    method HintPage(page: seq<Key>, live: set<string>) returns (hinted: nat)
      modifies this`table
      ensures table == MarkAll(old(table), page, live)
      ensures hinted == Hints(page, live)
    {
      hinted := 0;
      for i := 0 to |page|
        invariant table == MarkAll(old(table), page[..i], live)
        invariant hinted == Hints(page[..i], live)
      {
        assert page[..i + 1][..i] == page[..i];
        var id := page[i].intentId;
        if id in live {
          if id in table {
            table := table[id := table[id].(hintSent := true)];
          }
          hinted := hinted + 1;
        }
      }
      assert page[..|page|] == page;
    }

    /** The pages of one cycle, until the budget or the rows run out. */
    method Scan(live: set<string>) returns (hinted: nat, ghost examined: seq<Key>)
      modifies this
      ensures FirstOf(examined, Ahead(Pending(old(table)), old(hintCursor)), BUDGET)
      ensures hintCursor == NextCursor(Pending(old(table)), old(hintCursor), examined)
      ensures table == MarkAll(old(table), examined, live)
      ensures hinted == Hints(examined, live)
    {
      ghost var before, start := table, hintCursor;
      hinted, examined := 0, [];
      var after, scanned := hintCursor, 0;
      while scanned < BUDGET
        invariant scanned == |examined| <= BUDGET && scanned % PAGE == 0
        invariant FirstOf(examined, Ahead(Pending(before), start), scanned)
        invariant after == Reached(start, examined) && hintCursor == after
        invariant table == MarkAll(before, examined, live)
        invariant hinted == Hints(examined, live)
        decreases BUDGET - scanned
      {
        MarksStayBehind(before, start, examined, scanned, live);
        var page := SelectPage(Pending(table), after, PAGE);
        ScanStep(Pending(before), start, examined, page, PAGE);
        if page == [] {
          hintCursor := None;
          break;
        }
        var more := HintPage(page, live);
        MarkAllSplit(before, examined, page, live);
        hinted := hinted + more;
        examined := examined + page;
        scanned := scanned + |page|;
        after := Some(page[|page| - 1]);
        hintCursor := after;
        if |page| < PAGE {
          hintCursor := None;
          break;
        }
      }
    }

    /** One cycle. live holds the intents whose recipient's queue takes the hint. */
    method HintNotifications(live: set<string>) returns (hinted: nat, ghost examined: seq<Key>)
      modifies this
      ensures FirstOf(examined, Ahead(Pending(old(table)), old(hintCursor)), BUDGET)
      ensures hintCursor == NextCursor(Pending(old(table)), old(hintCursor), examined)
      ensures CycleDone(old(table), old(hintCursor), live, examined, table, hintCursor, hinted)
    {
      hinted, examined := Scan(live);
      CycleExactly(old(table), old(hintCursor), live, examined);
    }
  }

  // ------------------------------------------------------------------ fairness

  /** Pending keys between the cursor and r, and pending keys below r. */
  function RankAhead(pending: set<Key>, cursor: Option<Key>, r: Key): nat {
    |set k | k in Ahead(pending, cursor) && Less(k, r)|
  }

  /** An upper bound on the cycles until r is examined: to the end of the current sweep, then from the start. */
  function Wait(pending: set<Key>, cursor: Option<Key>, r: Key): nat {
    if Beyond(cursor, r) then RankAhead(pending, cursor, r) / BUDGET + 1
    else |Ahead(pending, cursor)| / BUDGET + 1 + RankAhead(pending, None, r) / BUDGET + 1
  }

  lemma SubsetSize(a: set<Key>, b: set<Key>)
    requires a <= b
    ensures |a| <= |b|
  {
    if a != b {
      assert b == a + (b - a);
      assert |a + (b - a)| == |a| + |b - a|;
    }
  }

  /** Rows that leave the pending set never lengthen the wait of one that stays. */
  lemma WaitShrinks(pending: set<Key>, fewer: set<Key>, cursor: Option<Key>, r: Key)
    requires fewer <= pending
    ensures Wait(fewer, cursor, r) <= Wait(pending, cursor, r)
  {
    SubsetSize(Ahead(fewer, cursor), Ahead(pending, cursor));
    SubsetSize(set k | k in Ahead(fewer, cursor) && Less(k, r), set k | k in Ahead(pending, cursor) && Less(k, r));
    SubsetSize(set k | k in Ahead(fewer, None) && Less(k, r), set k | k in Ahead(pending, None) && Less(k, r));
  }

  /** A row ahead of the cursor is examined this cycle when fewer than a budget of rows lie before it. */
  lemma NearRowIsExamined(pending: set<Key>, cursor: Option<Key>, r: Key, examined: seq<Key>)
    requires r in Ahead(pending, cursor) && FirstOf(examined, Ahead(pending, cursor), BUDGET)
    requires r !in examined
    ensures |examined| == BUDGET && examined != []
    ensures Less(examined[BUDGET - 1], r)
    ensures RankAhead(pending, Some(examined[BUDGET - 1]), r) + BUDGET <= RankAhead(pending, cursor, r)
  {
    var all, seen := Ahead(pending, cursor), set k | k in examined;
    IncreasingSize(examined);
    if |all| <= BUDGET {
      FullScan(all, seen);
    }
    AheadOfLast(pending, cursor, examined, BUDGET);
    var last := examined[BUDGET - 1];
    assert last in examined;
    var near, rest := set k | k in all && Less(k, r), set k | k in Ahead(pending, Some(last)) && Less(k, r);
    assert rest + seen <= near;
    SubsetSize(rest + seen, near);
    assert rest !! seen;
    assert |rest + seen| == |rest| + |seen|;
  }

  lemma FullScan(all: set<Key>, seen: set<Key>)
    requires seen <= all && |seen| == |all|
    ensures seen == all
  {
    var rest := all - seen;
    assert all == seen + rest;
    assert |all| == |seen| + |rest|;
  }

  /** Each cycle examines a pending row or brings its turn one cycle nearer. */
  lemma CycleProgress(pending: set<Key>, cursor: Option<Key>, r: Key, examined: seq<Key>)
    requires r in pending && FirstOf(examined, Ahead(pending, cursor), BUDGET)
    ensures r in examined || Wait(pending, NextCursor(pending, cursor, examined), r) < Wait(pending, cursor, r)
  {
    var next := NextCursor(pending, cursor, examined);
    if r !in examined {
      if Beyond(cursor, r) {
        NearRowIsExamined(pending, cursor, r, examined);
      } else if |Ahead(pending, cursor)| >= BUDGET {
        AheadOfLast(pending, cursor, examined, BUDGET);
        var last := examined[|examined| - 1];
        assert last in examined;
        if Less(last, r) { LessTransitive(cursor.value, last, r); }
      }
    }
  }

  /** The worst wait over N pending rows. */
  lemma WaitBound(pending: set<Key>, cursor: Option<Key>, r: Key)
    requires r in pending
    ensures 1 <= Wait(pending, cursor, r) <= (|pending| - 1) / BUDGET + 2
    ensures Wait(pending, cursor, r) <= 2 * (|pending| / BUDGET) + 2
  {
    var below := set k | k in Ahead(pending, None) && Less(k, r);
    LessIrreflexive(r);
    if Beyond(cursor, r) {
      var near := set k | k in Ahead(pending, cursor) && Less(k, r);
      assert near <= pending - {r};
      SubsetSize(near, pending - {r});
    } else {
      var ahead := Ahead(pending, cursor);
      forall k | k in ahead ensures !Less(k, r) {
        if Less(k, r) { LessTransitive(cursor.value, k, r); }
      }
      assert ahead !! below && ahead + below <= pending - {r};
      SubsetSize(ahead + below, pending - {r});
      assert |ahead + below| == |ahead| + |below|;
    }
  }

  /** Cycles in a row: rows may leave the pending set in between, none may join. */
  ghost predicate Cycles(pendings: seq<set<Key>>, cursors: seq<Option<Key>>, scans: seq<seq<Key>>) {
    && |pendings| == |scans| && |cursors| == |scans| + 1
    && (forall i :: 0 <= i < |scans| ==> FirstOf(scans[i], Ahead(pendings[i], cursors[i]), BUDGET))
    && (forall i :: 0 <= i < |scans| ==> cursors[i + 1] == NextCursor(pendings[i], cursors[i], scans[i]))
    && (forall i :: 0 < i < |pendings| ==> pendings[i] <= pendings[i - 1])
  }

  lemma {:induction false} FairFrom(pendings: seq<set<Key>>, cursors: seq<Option<Key>>, scans: seq<seq<Key>>, r: Key, i: nat)
    requires Cycles(pendings, cursors, scans) && i < |scans|
    requires forall j :: i <= j < |pendings| ==> r in pendings[j]
    requires i + Wait(pendings[i], cursors[i], r) <= |scans|
    ensures exists j :: i <= j < i + Wait(pendings[i], cursors[i], r) && r in scans[j]
    decreases |scans| - i
  {
    CycleProgress(pendings[i], cursors[i], r, scans[i]);
    if r !in scans[i] {
      WaitBound(pendings[i], cursors[i + 1], r);
      WaitShrinks(pendings[i], pendings[i + 1], cursors[i + 1], r);
      FairFrom(pendings, cursors, scans, r, i + 1);
    }
  }

  /** Fairness: from any cursor and whatever rows leave in between, a row that stays pending
      is examined within 2 * (N / 5000) + 2 cycles. */
  lemma EveryRowIsExamined(pendings: seq<set<Key>>, cursors: seq<Option<Key>>, scans: seq<seq<Key>>, r: Key)
    requires Cycles(pendings, cursors, scans) && scans != []
    requires forall j :: 0 <= j < |pendings| ==> r in pendings[j]
    requires |scans| >= 2 * (|pendings[0]| / BUDGET) + 2
    ensures exists j :: 0 <= j < 2 * (|pendings[0]| / BUDGET) + 2 && r in scans[j]
  {
    WaitBound(pendings[0], cursors[0], r);
    FairFrom(pendings, cursors, scans, r, 0);
  }
}
