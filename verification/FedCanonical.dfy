/** The canonical bytes of documents and bodies (RFC 8785 on objects and strings): no text has two readings, so what is
    signed or hashed determines the document, and body sizes are lengths of these texts. */
module FedCanonical {
  import opened Options
  import opened FedSchema
  import opened TextOrder

  datatype Tree = Leaf(text: string) | Object(members: seq<Pair>)

  datatype Pair = Pair(key: string, tree: Tree)

  // ------------------------------------------------------------------- writing

  function HexChar(n: nat): char
    requires n < 16
  {
    if n < 10 then '0' + n as char else 'a' + (n - 10) as char
  }

  /** One character between quotes. */
  function Unit(c: char): string {
    if c == '"' then "\\\"" else if c == '\\' then "\\\\"
    else if c == 8 as char then "\\b" else if c == 12 as char then "\\f"
    else if c == '\n' then "\\n" else if c == '\r' then "\\r" else if c == '\t' then "\\t"
    else if c < ' ' then "\\u00" + [HexChar(c as int / 16), HexChar(c as int % 16)]
    else [c]
  }

  function Escape(s: string): string { if s == "" then "" else Unit(s[0]) + Escape(s[1..]) }

  function Quote(s: string): string { "\"" + (Escape(s) + "\"") }

  function Render(t: Tree): string {
    match t
    case Leaf(s) => Quote(s)
    case Object(ms) => "{" + (RenderMembers(ms) + "}")
  }

  function RenderMembers(ms: seq<Pair>): string {
    if ms == [] then "" else RenderPair(ms[0]) + (if |ms| == 1 then "" else "," + RenderMembers(ms[1..]))
  }

  function RenderPair(m: Pair): string { Quote(m.key) + (":" + Render(m.tree)) }

  // ------------------------------------------------------------ one reading only

  lemma UnitIsCode(c: char, d: char, x: string, y: string)
    requires Unit(c) + x == Unit(d) + y
    ensures c == d && x == y
  {
    var s, t := Unit(c) + x, Unit(d) + y;
    assert s[0] == Unit(c)[0] && t[0] == Unit(d)[0];
    assert |Unit(c)| > 1 ==> s[1] == Unit(c)[1];
    assert |Unit(d)| > 1 ==> t[1] == Unit(d)[1];
    if |Unit(c)| == 6 && |Unit(d)| == 6 {
      assert s[4] == Unit(c)[4] && s[5] == Unit(c)[5] && t[4] == Unit(d)[4] && t[5] == Unit(d)[5];
    }
    assert c == d;
    assert x == s[|Unit(c)|..] && y == t[|Unit(d)|..];
  }

  lemma EscapeStarts(s: string, x: string)
    ensures (Escape(s) + ("\"" + x))[0] == '"' <==> s == ""
    ensures s == "" ==> (Escape(s) + ("\"" + x))[1..] == x
    ensures s != "" ==> Escape(s) + ("\"" + x) == Unit(s[0]) + (Escape(s[1..]) + ("\"" + x))
  {
    hide Unit;
    if s != "" {
      UnitStarts(s[0]);
      Associates(Unit(s[0]), Escape(s[1..]), "\"" + x);
    }
  }

  lemma Associates(u: string, r: string, end: string)
    requires u != ""
    ensures (u + r) + end == u + (r + end) && ((u + r) + end)[0] == u[0]
  {
  }

  lemma UnitStarts(c: char)
    ensures Unit(c) != "" && Unit(c)[0] != '"'
  {
  }

  lemma {:induction false} EscapeIsCode(a: string, b: string, x: string, y: string)
    requires Escape(a) + ("\"" + x) == Escape(b) + ("\"" + y)
    ensures a == b && x == y
    decreases |a|
  {
    hide Unit, Escape;
    EscapeStarts(a, x);
    EscapeStarts(b, y);
    if a != "" {
      UnitIsCode(a[0], b[0], Escape(a[1..]) + ("\"" + x), Escape(b[1..]) + ("\"" + y));
      EscapeIsCode(a[1..], b[1..], x, y);
      assert a == [a[0]] + a[1..] && b == [b[0]] + b[1..];
    }
  }

  lemma QuoteIsCode(a: string, b: string, x: string, y: string)
    requires Quote(a) + x == Quote(b) + y
    ensures a == b && x == y
  {
    hide Escape;
    var s, t := Quote(a) + x, Quote(b) + y;
    assert s[1..] == Escape(a) + ("\"" + x) && t[1..] == Escape(b) + ("\"" + y);
    EscapeIsCode(a, b, x, y);
  }

  lemma RenderStarts(t: Tree, x: string)
    ensures (Render(t) + x)[0] == if t.Leaf? then '"' else '{'
    ensures t.Object? ==> (Render(t) + x)[1..] == RenderMembers(t.members) + ("}" + x)
  {
  }

  /** A canonical text ends where it says: followed by whatever, it reads as one tree only. */
  lemma {:induction false} RenderIsCode(t: Tree, u: Tree, x: string, y: string)
    requires Render(t) + x == Render(u) + y
    ensures t == u && x == y
    decreases t, 1
  {
    RenderStarts(t, x);
    RenderStarts(u, y);
    hide Quote, RenderMembers;
    if t.Leaf? {
      QuoteIsCode(t.text, u.text, x, y);
    } else {
      MembersAreCode(t.members, u.members, x, y);
    }
  }

  /** What follows the first member and its object. */
  function Tail(ms: seq<Pair>, x: string): string
    requires ms != []
  {
    (if |ms| == 1 then "" else "," + RenderMembers(ms[1..])) + ("}" + x)
  }

  lemma MembersStart(ms: seq<Pair>, x: string)
    ensures (RenderMembers(ms) + ("}" + x))[0] == '}' <==> ms == []
    ensures ms == [] ==> (RenderMembers(ms) + ("}" + x))[1..] == x
    ensures ms != [] ==>
              RenderMembers(ms) + ("}" + x) == Quote(ms[0].key) + (":" + (Render(ms[0].tree) + Tail(ms, x)))
  {
    if ms != [] {
      QuoteStarts(ms[0].key);
      hide Quote, Render;
      Regroup(Quote(ms[0].key), Render(ms[0].tree), if |ms| == 1 then "" else "," + RenderMembers(ms[1..]), "}" + x);
    }
  }

  lemma QuoteStarts(s: string)
    ensures Quote(s) != "" && Quote(s)[0] == '"'
  {
  }

  lemma Regroup(q: string, r: string, rest: string, end: string)
    ensures ((q + (":" + r)) + rest) + end == q + (":" + (r + (rest + end)))
  {
    assert (":" + r) + (rest + end) == ":" + (r + (rest + end));
    assert ((q + (":" + r)) + rest) + end == (q + (":" + r)) + (rest + end) == q + ((":" + r) + (rest + end));
  }

  lemma TailStarts(ms: seq<Pair>, x: string)
    requires ms != []
    ensures Tail(ms, x)[0] == '}' <==> |ms| == 1
    ensures |ms| == 1 ==> Tail(ms, x)[1..] == x
    ensures |ms| > 1 ==> Tail(ms, x)[1..] == RenderMembers(ms[1..]) + ("}" + x)
  {
  }

  lemma {:induction false} MembersAreCode(ms: seq<Pair>, ns: seq<Pair>, x: string, y: string)
    requires RenderMembers(ms) + ("}" + x) == RenderMembers(ns) + ("}" + y)
    ensures ms == ns && x == y
    decreases ms, 0
  {
    hide Quote, Render, RenderMembers, Tail;
    MembersStart(ms, x);
    MembersStart(ns, y);
    if ms != [] {
      var p, q := Render(ms[0].tree) + Tail(ms, x), Render(ns[0].tree) + Tail(ns, y);
      QuoteIsCode(ms[0].key, ns[0].key, ":" + p, ":" + q);
      assert (":" + p)[1..] == p && (":" + q)[1..] == q;
      RenderIsCode(ms[0].tree, ns[0].tree, Tail(ms, x), Tail(ns, y));
      TailStarts(ms, x);
      TailStarts(ns, y);
      if |ms| > 1 { MembersAreCode(ms[1..], ns[1..], x, y); }
      assert ms == [ms[0]] + ms[1..] && ns == [ns[0]] + ns[1..];
    }
  }

  // ----------------------------------------------------------------- documents

  function EventMembers(ev: FedEvent): seq<Pair> {
    [Pair("created_at", Leaf(ev.createdAt)), Pair("event_id", Leaf(ev.eventId))]
    + (if ev.inReplyTo.Some? then [Pair("in_reply_to", Leaf(ev.inReplyTo.value))] else [])
    + [Pair("payload", Object([Pair("text", Leaf(ev.text))])), Pair("source", Leaf(AddressText(ev.source))),
       Pair("target", Leaf(AddressText(ev.target))), Pair("type", Leaf(ev.kind))]
  }

  /** The digest is written as the hexadecimal text `hash`. */
  function ReceiptMembers(rc: Receipt, hash: string): seq<Pair> {
    [Pair("ack_type", Leaf(rc.ackType)), Pair("agent", Leaf(AddressText(rc.agent))), Pair("at", Leaf(rc.at)),
     Pair("event_id", Leaf(rc.eventId)), Pair("origin", Leaf(rc.origin)), Pair("origin_event_sig_hash", Leaf(hash))]
  }

  function Members(d: Doc, hash: string): seq<Pair> {
    match d
    case EventDoc(s) =>
      [Pair("event", Object(EventMembers(s.event))), Pair("key_id", Leaf(s.keyId)), Pair("kind", Leaf("federation.event.v0")),
       Pair("origin", Leaf(s.origin))]
    case ReceiptDoc(s) =>
      [Pair("issuer", Leaf(s.issuer)), Pair("key_id", Leaf(s.keyId)), Pair("kind", Leaf("federation.receipt.v0")),
       Pair("receipt", Object(ReceiptMembers(s.receipt, hash)))]
  }

  /** What is signed, and what is sent: the same document with its signature as the last member. */
  function SignedText(d: Doc, hash: string): string { Render(Object(Members(d, hash))) }

  function BodyText(d: Doc, hash: string, sig: string): string { Render(Object(Members(d, hash) + [Pair("sig", Leaf(sig))])) }

  /** Keys in their order, each once, in every object. */
  predicate Ordered(ms: seq<Pair>) {
    && (forall i, j :: 0 <= i < j < |ms| ==> Before(ms[i].key, ms[j].key))
    && forall i :: 0 <= i < |ms| && ms[i].tree.Object? ==> Ordered(ms[i].tree.members)
  }

  predicate AddressesOk(d: Doc) {
    match d
    case EventDoc(s) => ValidAddr(s.event.source) && ValidAddr(s.event.target)
    case ReceiptDoc(s) => ValidAddr(s.receipt.agent)
  }

  /** Two documents of valid addresses with the same members are the same. */
  lemma MembersDetermine(d: Doc, e: Doc, hash: string, hash': string)
    requires AddressesOk(d) && AddressesOk(e) && Members(d, hash) == Members(e, hash')
    requires d.ReceiptDoc? && e.ReceiptDoc? && hash == hash' ==> d.receipt.receipt.sigHash == e.receipt.receipt.sigHash
    ensures d == e
  {
    var m, n := Members(d, hash), Members(e, hash');
    assert m[0].key == n[0].key && m[1].tree == n[1].tree;
    if d.EventDoc? {
      EventsDetermine(d.event.event, e.event.event);
    } else {
      ReceiptsDetermine(d.receipt.receipt, e.receipt.receipt, hash, hash');
    }
  }

  lemma EventsDetermine(a: FedEvent, b: FedEvent)
    requires ValidAddr(a.source) && ValidAddr(a.target) && ValidAddr(b.source) && ValidAddr(b.target)
    requires EventMembers(a) == EventMembers(b)
    ensures a == b
  {
    var m, n := EventMembers(a), EventMembers(b);
    assert |m| == |n| && m[0].tree == n[0].tree && m[1].tree == n[1].tree && m[2].tree == n[2].tree && m[3].tree == n[3].tree;
    assert m[|m| - 1].tree == n[|n| - 1].tree && m[|m| - 2].tree == n[|n| - 2].tree;
    assert m[|m| - 3].tree == n[|n| - 3].tree && m[|m| - 4].tree.members[0] == n[|n| - 4].tree.members[0];
    AddressesDiffer(a.source, b.source);
    AddressesDiffer(a.target, b.target);
  }

  lemma ReceiptsDetermine(a: Receipt, b: Receipt, hash: string, hash': string)
    requires ValidAddr(a.agent) && ValidAddr(b.agent) && ReceiptMembers(a, hash) == ReceiptMembers(b, hash')
    requires hash == hash' ==> a.sigHash == b.sigHash
    ensures a == b
  {
    var m, n := ReceiptMembers(a, hash), ReceiptMembers(b, hash');
    assert m[0].tree == n[0].tree && m[1].tree == n[1].tree && m[2].tree == n[2].tree && m[3].tree == n[3].tree;
    assert m[4].tree == n[4].tree && m[5].tree == n[5].tree;
    AddressesDiffer(a.agent, b.agent);
  }

  lemma AddressesDiffer(a: Addr, b: Addr)
    requires ValidAddr(a) && ValidAddr(b)
    ensures AddressText(a) == AddressText(b) ==> a == b
  {
    ParseAddressIff(AddressText(a), a);
    ParseAddressIff(AddressText(b), b);
  }

  /** Whatever is signed is one document only: equal signed texts, equal documents, where equal hexadecimal texts are of
      equal digests. */
  lemma SignedTextDetermines(d: Doc, e: Doc, hash: string, hash': string)
    requires AddressesOk(d) && AddressesOk(e)
    requires d.ReceiptDoc? && e.ReceiptDoc? && hash == hash' ==> d.receipt.receipt.sigHash == e.receipt.receipt.sigHash
    ensures SignedText(d, hash) == SignedText(e, hash') <==> d == e && Members(d, hash) == Members(e, hash')
  {
    if SignedText(d, hash) == SignedText(e, hash') {
      hide Members, Render, AddressesOk;
      var t, u := Object(Members(d, hash)), Object(Members(e, hash'));
      assert Render(t) + "" == Render(t) && Render(u) + "" == Render(u);
      RenderIsCode(t, u, "", "");
      MembersDetermine(d, e, hash, hash');
    }
  }

  // --------------------------------------------------------------------- lengths

  lemma {:induction false} EscapedLength(s: string)
    ensures |Escape(s)| == Escaped(s)
    decreases |s|
  {
    if s != "" { EscapedLength(s[1..]); }
  }

  lemma LeafLength(key: string, s: string)
    requires Simple(key)
    ensures |RenderPair(Pair(key, Leaf(s)))| == Member(key, Quoted(s))
  {
    EscapedLength(s);
    EscapedLength(key);
    SimpleIsPlain(key);
  }

  lemma FirstLength(m: Pair, ms: seq<Pair>)
    ensures |RenderMembers([m] + ms)| == |RenderPair(m)| + if ms == [] then 0 else 1 + |RenderMembers(ms)|
  {
    assert ([m] + ms)[1..] == ms;
  }

  lemma ObjectLength(key: string, ms: seq<Pair>)
    requires Simple(key)
    ensures |RenderPair(Pair(key, Object(ms)))| == Member(key, 2 + |RenderMembers(ms)|)
  {
    EscapedLength(key);
    SimpleIsPlain(key);
  }

  lemma FourLength(a: Pair, b: Pair, c: Pair, d: Pair, ms: seq<Pair>)
    ensures |RenderMembers([a, b, c, d] + ms)| ==
            |RenderPair(a)| + 1 + |RenderPair(b)| + 1 + |RenderPair(c)| + 1 + |RenderPair(d)|
            + if ms == [] then 0 else 1 + |RenderMembers(ms)|
  {
    hide RenderMembers, RenderPair;
    FirstLength(d, ms);
    FirstLength(c, [d] + ms);
    FirstLength(b, [c] + ([d] + ms));
    FirstLength(a, [b] + ([c] + ([d] + ms)));
    assert [a] + ([b] + ([c] + ([d] + ms))) == [a, b, c, d] + ms;
  }

  lemma EventKeys()
    ensures Simple("created_at") && Simple("event_id") && Simple("in_reply_to") && Simple("payload") && Simple("source")
    ensures Simple("target") && Simple("type") && Simple("text")
  {
  }

  lemma ReceiptKeys()
    ensures Simple("ack_type") && Simple("agent") && Simple("at") && Simple("event_id") && Simple("origin")
    ensures Simple("origin_event_sig_hash")
  {
  }

  lemma TopKeys()
    ensures Simple("event") && Simple("key_id") && Simple("kind") && Simple("origin") && Simple("sig") && Simple("issuer")
    ensures Simple("receipt")
  {
  }

  /** The length of the inner object of an event, which holds its escaped text. */
  lemma EventLength(ev: FedEvent)
    ensures |RenderMembers(EventMembers(ev))| ==
            Member("created_at", Quoted(ev.createdAt)) + 1 + Member("event_id", Quoted(ev.eventId))
            + (if ev.inReplyTo.Some? then 1 + Member("in_reply_to", Quoted(ev.inReplyTo.value)) else 0)
            + 1 + Member("payload", 2 + Member("text", Quoted(ev.text)))
            + 1 + Member("source", Quoted(AddressText(ev.source))) + 1 + Member("target", Quoted(AddressText(ev.target)))
            + 1 + Member("type", Quoted(ev.kind))
  {
    EventKeys();
    hide RenderMembers, RenderPair, Simple, Escaped, Member, AddressText;
    var text := Pair("text", Leaf(ev.text));
    var rest := [Pair("payload", Object([text])), Pair("source", Leaf(AddressText(ev.source))),
                 Pair("target", Leaf(AddressText(ev.target))), Pair("type", Leaf(ev.kind))];
    LeafLength("text", ev.text);
    FirstLength(text, []);
    assert [text] + [] == [text];
    ObjectLength("payload", [text]);
    LeafLength("source", AddressText(ev.source));
    LeafLength("target", AddressText(ev.target));
    LeafLength("type", ev.kind);
    FourLength(rest[0], rest[1], rest[2], rest[3], []);
    assert rest + [] == rest && [rest[0], rest[1], rest[2], rest[3]] == rest;
    var first, second := Pair("created_at", Leaf(ev.createdAt)), Pair("event_id", Leaf(ev.eventId));
    LeafLength("created_at", ev.createdAt);
    LeafLength("event_id", ev.eventId);
    var tail := rest;
    if ev.inReplyTo.Some? {
      var link := Pair("in_reply_to", Leaf(ev.inReplyTo.value));
      LeafLength("in_reply_to", ev.inReplyTo.value);
      FirstLength(link, rest);
      tail := [link] + rest;
    }
    FirstLength(second, tail);
    FirstLength(first, [second] + tail);
    assert EventMembers(ev) == [first] + ([second] + tail);
  }

  lemma ReceiptLength(rc: Receipt, hash: string)
    requires |hash| == 64 && Simple(hash)
    ensures |RenderMembers(ReceiptMembers(rc, hash))| ==
            Member("ack_type", Quoted(rc.ackType)) + 1 + Member("agent", Quoted(AddressText(rc.agent)))
            + 1 + Member("at", Quoted(rc.at)) + 1 + Member("event_id", Quoted(rc.eventId))
            + 1 + Member("origin", Quoted(rc.origin)) + 1 + Member("origin_event_sig_hash", 2 + 64)
  {
    hide RenderMembers, RenderPair, Simple, Escaped, Member, AddressText;
    ReceiptKeys();
    SimpleIsPlain(hash);
    var a, b := Pair("ack_type", Leaf(rc.ackType)), Pair("agent", Leaf(AddressText(rc.agent)));
    var c, d := Pair("at", Leaf(rc.at)), Pair("event_id", Leaf(rc.eventId));
    var e, f := Pair("origin", Leaf(rc.origin)), Pair("origin_event_sig_hash", Leaf(hash));
    LeafLength("ack_type", rc.ackType);
    LeafLength("agent", AddressText(rc.agent));
    LeafLength("at", rc.at);
    LeafLength("event_id", rc.eventId);
    LeafLength("origin", rc.origin);
    LeafLength("origin_event_sig_hash", hash);
    FirstLength(f, []);
    FirstLength(e, [f]);
    FourLength(a, b, c, d, [e] + [f]);
    assert ReceiptMembers(rc, hash) == [a, b, c, d] + ([e] + [f]) && [f] + [] == [f];
  }

  function DocOf(env: Envelope): Doc {
    match env case EventEnvelope(s, _) => EventDoc(s) case ReceiptEnvelope(s, _) => ReceiptDoc(s)
  }

  lemma EventBodyLength(s: SignedEvent, hash: string, sig: string)
    requires |sig| == 86 && Simple(sig)
    ensures |BodyText(EventDoc(s), hash, sig)| == EventOverhead(s) + Escaped(s.event.text)
  {
    hide RenderMembers, RenderPair, Simple, Escaped, AddressText, EventMembers;
    TopKeys();
    PlainWords();
    SimpleIsPlain(sig);
    var last := Pair("sig", Leaf(sig));
    FirstLength(last, []);
    LeafLength("sig", sig);
    EventLength(s.event);
    ObjectLength("event", EventMembers(s.event));
    LeafLength("key_id", s.keyId);
    LeafLength("kind", "federation.event.v0");
    LeafLength("origin", s.origin);
    FourLength(Pair("event", Object(EventMembers(s.event))), Pair("key_id", Leaf(s.keyId)), Pair("kind", Leaf("federation.event.v0")),
               Pair("origin", Leaf(s.origin)), [last]);
    assert [last] + [] == [last];
  }

  lemma ReceiptBodyLength(s: SignedReceipt, hash: string, sig: string)
    requires |hash| == 64 && Simple(hash) && |sig| == 86 && Simple(sig)
    ensures |BodyText(ReceiptDoc(s), hash, sig)| == ReceiptSize(s)
  {
    hide RenderMembers, RenderPair, Simple, Escaped, AddressText, ReceiptMembers;
    TopKeys();
    PlainWords();
    SimpleIsPlain(sig);
    var last := Pair("sig", Leaf(sig));
    FirstLength(last, []);
    LeafLength("sig", sig);
    ReceiptLength(s.receipt, hash);
    LeafLength("issuer", s.issuer);
    LeafLength("key_id", s.keyId);
    LeafLength("kind", "federation.receipt.v0");
    ObjectLength("receipt", ReceiptMembers(s.receipt, hash));
    FourLength(Pair("issuer", Leaf(s.issuer)), Pair("key_id", Leaf(s.keyId)), Pair("kind", Leaf("federation.receipt.v0")),
               Pair("receipt", Object(ReceiptMembers(s.receipt, hash))), [last]);
    assert [last] + [] == [last];
  }

  /** The size the request limit is compared with is the length of the canonical body. */
  lemma BodySizeIsLength(env: Envelope, hash: string, sig: string)
    requires |hash| == 64 && Simple(hash) && |sig| == 86 && Simple(sig)
    ensures |BodyText(DocOf(env), hash, sig)| == BodySize(env)
  {
    hide BodyText, EventOverhead, ReceiptSize, Escaped, Simple;
    match env
    case EventEnvelope(s, _) => EventBodyLength(s, hash, sig);
    case ReceiptEnvelope(s, _) => ReceiptBodyLength(s, hash, sig);
  }

  // ---------------------------------------------------------------- keys in order

  /** Objects with the same members are written the same: order leaves no choice. */
  lemma {:induction false} OrderedIsUnique(ms: seq<Pair>, ns: seq<Pair>)
    requires Ordered(ms) && Ordered(ns) && forall m :: m in ms <==> m in ns
    ensures ms == ns
    decreases |ms|
  {
    if ms == [] {
      SomeMember(ns);
    } else {
      SomeMember(ms);
      FirstIsLeast(ms, ns);
      assert Ordered(ms[1..]) && Ordered(ns[1..]);
      forall m | m in ms[1..] ensures m in ns[1..] { NotFirst(ms, m); }
      forall m | m in ns[1..] ensures m in ms[1..] { NotFirst(ns, m); }
      OrderedIsUnique(ms[1..], ns[1..]);
      assert ms == [ms[0]] + ms[1..] && ns == [ns[0]] + ns[1..];
    }
  }

  lemma SomeMember(ms: seq<Pair>)
    ensures ms != [] ==> exists m :: m in ms
  {
    if ms != [] { assert ms[0] in ms; }
  }

  lemma FirstIsLeast(ms: seq<Pair>, ns: seq<Pair>)
    requires ms != [] && ns != [] && Ordered(ms) && Ordered(ns) && ms[0] in ns && ns[0] in ms
    ensures ms[0] == ns[0]
  {
    var i :| 0 <= i < |ns| && ns[i] == ms[0];
    var j :| 0 <= j < |ms| && ms[j] == ns[0];
    if i > 0 && j > 0 {
      Transitive(ms[0].key, ms[j].key, ms[0].key);
      Irreflexive(ms[0].key);
    }
  }

  lemma NotFirst(ms: seq<Pair>, m: Pair)
    requires ms != [] && Ordered(ms) && m in ms[1..]
    ensures m in ms && m != ms[0]
  {
    var i :| 0 <= i < |ms| - 1 && ms[1..][i] == m;
    assert ms[i + 1] == m;
    Irreflexive(m.key);
  }

  lemma {:induction false} StepsOrder(ms: seq<Pair>, i: nat, j: nat)
    requires forall k :: 0 < k < |ms| ==> Before(ms[k - 1].key, ms[k].key)
    requires i < j < |ms|
    ensures Before(ms[i].key, ms[j].key)
    decreases j
  {
    if i < j - 1 {
      StepsOrder(ms, i, j - 1);
      Transitive(ms[i].key, ms[j - 1].key, ms[j].key);
    }
  }

  lemma InOrder(ms: seq<Pair>)
    requires forall k :: 0 < k < |ms| ==> Before(ms[k - 1].key, ms[k].key)
    requires forall k :: 0 <= k < |ms| && ms[k].tree.Object? ==> Ordered(ms[k].tree.members)
    ensures Ordered(ms)
  {
    forall i, j | 0 <= i < j < |ms| ensures Before(ms[i].key, ms[j].key) { StepsOrder(ms, i, j); }
  }

  lemma EventKeyOrder()
    ensures Before("created_at", "event_id") && Before("event_id", "in_reply_to") && Before("in_reply_to", "payload")
    ensures Before("event_id", "payload") && Before("payload", "source") && Before("source", "target") && Before("target", "type")
  {
  }

  lemma ReceiptKeyOrder()
    ensures Before("ack_type", "agent") && Before("agent", "at") && Before("at", "event_id") && Before("event_id", "origin")
    ensures Before("origin", "origin_event_sig_hash")
  {
  }

  lemma TopKeyOrder()
    ensures Before("event", "key_id") && Before("key_id", "kind") && Before("kind", "origin") && Before("origin", "sig")
    ensures Before("issuer", "key_id") && Before("kind", "receipt") && Before("receipt", "sig")
  {
  }

  lemma EventIsOrdered(ev: FedEvent)
    ensures Ordered(EventMembers(ev))
  {
    hide Before, AddressText;
    EventKeyOrder();
    InOrder([Pair("text", Leaf(ev.text))]);
    InOrder(EventMembers(ev));
  }

  lemma ReceiptIsOrdered(rc: Receipt, hash: string)
    ensures Ordered(ReceiptMembers(rc, hash))
  {
    hide Before, AddressText;
    ReceiptKeyOrder();
    InOrder(ReceiptMembers(rc, hash));
  }

  /** Every document and every body has its keys in order. */
  lemma BodiesAreOrdered(d: Doc, hash: string, sig: string)
    ensures Ordered(Members(d, hash)) && Ordered(Members(d, hash) + [Pair("sig", Leaf(sig))])
  {
    hide Before, AddressText, EventMembers, ReceiptMembers;
    TopKeyOrder();
    if d.EventDoc? {
      EventIsOrdered(d.event.event);
    } else {
      ReceiptIsOrdered(d.receipt.receipt, hash);
    }
    hide Ordered;
    InOrder(Members(d, hash));
    InOrder(Members(d, hash) + [Pair("sig", Leaf(sig))]);
  }
}
