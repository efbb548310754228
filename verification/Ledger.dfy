/** The local event ledger: its tables, the authorization predicates, and the SQLite write path,
    one immediate transaction per request. */
module Ledger {
  import opened Options

  /** A JSON scalar; `Null` is also what a lookup of a missing key yields. */
  datatype Field = Null | Text(text: string)

  type Payload = map<string, Field>

  /** SHA-256 as an ideal constructor. */
  datatype Digest = Sha256(of: string)

  datatype Content = Content(createdAt: string, payload: Payload, requiresAck: bool, sourceRef: Option<string>)

  datatype Event = Event(eventId: string, source: string, target: string, kind: string, seqNo: int,
                         storedAt: nat, content: Content, actor: Option<string>)

  datatype Token = Token(peer: string, digest: Digest, graceUntil: Option<nat>, revoked: bool)

  datatype Grant = Grant(id: nat, grantor: string, grantee: string, commandType: string, scope: Payload,
                         validUntil: Option<nat>, revoked: bool)

  datatype Audit = Audit(actor: string, action: string, target: string, eventId: string, result: string)

  datatype Ledger = Ledger(events: seq<Event>, counters: map<string, int>, audit: seq<Audit>,
                           tokens: seq<Token>, grants: seq<Grant>, acl: map<string, set<string>>)

  datatype Request = Request(eventId: string, source: string, target: string, kind: string, seqNo: Option<int>,
                             content: Content, token: Option<string>)

  datatype Outcome =
    | Stored(event: Event)
    | Existing(event: Event)
    | IdConflict
    | SeqConflict
    | Refused(why: string)

  // ------------------------------------------------------------- predicates

  predicate IsCommand(r: Request) { r.kind == "command" }

  function Get(p: Payload, key: string): Field {
    if key in p then p[key] else Null
  }

  /** The white space that the text method `strip` removes. */
  predicate IsBlank(c: char) {
    var n := c as int;
    || 0x09 <= n <= 0x0D || 0x1C <= n <= 0x20 || n == 0x85 || n == 0xA0 || n == 0x1680 || 0x2000 <= n <= 0x200A
    || n == 0x2028 || n == 0x2029 || n == 0x202F || n == 0x205F || n == 0x3000
  }

  predicate AllBlank(s: string) { forall i :: 0 <= i < |s| ==> IsBlank(s[i]) }

  function Strip(s: string): string {
    if s == "" then s
    else if IsBlank(s[0]) then Strip(s[1..])
    else if IsBlank(s[|s| - 1]) then Strip(s[..|s| - 1])
    else s
  }

  /** Stripping takes away blanks at both ends, all of them, and nothing else. */
  lemma {:induction false} StripTrims(s: string) returns (left: string, right: string)
    ensures s == left + Strip(s) + right && AllBlank(left) && AllBlank(right)
    ensures var r := Strip(s); r != "" ==> !IsBlank(r[0]) && !IsBlank(r[|r| - 1])
    decreases |s|
  {
    hide IsBlank;
    left, right := "", "";
    if s != "" && IsBlank(s[0]) {
      left, right := StripTrims(s[1..]);
      assert s == [s[0]] + s[1..] == ([s[0]] + left) + Strip(s) + right;
      left := [s[0]] + left;
    } else if s != "" && IsBlank(s[|s| - 1]) {
      var t := s[..|s| - 1];
      left, right := StripTrims(t);
      assert s == t + [s[|s| - 1]] == left + Strip(s) + (right + [s[|s| - 1]]);
      right := right + [s[|s| - 1]];
    }
  }

  /** The command operation: the stripped text of the `op` field, empty when there is none. */
  function Operation(p: Payload): string {
    if "op" !in p then ""
    else match p["op"] case Null => "None" case Text(s) => Strip(s)
  }

  predicate ScopeMatches(scope: Payload, payload: Payload) {
    forall k :: k in scope ==> Get(payload, k) == scope[k]
  }

  predicate TokenLive(t: Token, peer: string, digest: Digest, now: nat) {
    t.peer == peer && t.digest == digest && !t.revoked && (t.graceUntil.Some? ==> t.graceUntil.value >= now)
  }

  predicate ValidToken(l: Ledger, peer: string, token: Option<string>, now: nat) {
    && token.Some? && token.value != ""
    && exists i :: 0 <= i < |l.tokens| && TokenLive(l.tokens[i], peer, Sha256(token.value), now)
  }

  predicate GrantLive(g: Grant, r: Request, now: nat) {
    && g.grantor == r.target && g.grantee == r.source
    && (g.commandType == Operation(r.content.payload) || g.commandType == "*")
    && !g.revoked && (g.validUntil.Some? ==> g.validUntil.value >= now)
  }

  predicate CommandAllowed(l: Ledger, r: Request, now: nat) {
    && Operation(r.content.payload) != ""
    && exists i :: 0 <= i < |l.grants| && GrantLive(l.grants[i], r, now)
                   && ScopeMatches(l.grants[i].scope, r.content.payload)
  }

  /** No entry means unrestricted; a restricted source never reaches the broadcast target. */
  predicate AclAllows(l: Ledger, source: string, target: string) {
    source !in l.acl || (target != "*" && target in l.acl[source])
  }

  predicate HasId(es: seq<Event>, id: string) {
    exists i :: 0 <= i < |es| && es[i].eventId == id
  }

  predicate HasSeq(es: seq<Event>, source: string, n: int) {
    exists i :: 0 <= i < |es| && es[i].source == source && es[i].seqNo == n
  }

  function Find(es: seq<Event>, id: string): (e: Event)
    requires HasId(es, id)
    ensures e in es && e.eventId == id
  {
    if es[0].eventId == id then es[0] else
      assert HasId(es[1..], id) by {
        var i :| 0 <= i < |es| && es[i].eventId == id;
        assert es[1..][i - 1] == es[i];
      }
      Find(es[1..], id)
  }

  predicate SameIdentity(e: Event, r: Request) {
    e.source == r.source && e.target == r.target && e.kind == r.kind
  }

  function Identified(e: Event, r: Request): Outcome {
    if SameIdentity(e, r) then Existing(e) else IdConflict
  }

  predicate IsAccept(a: Audit, id: string) {
    a.action == "command_accept" && a.eventId == id
  }

  function Accepts(audit: seq<Audit>, id: string): nat {
    if audit == [] then 0 else
      Accepts(audit[..|audit| - 1], id) + if IsAccept(audit[|audit| - 1], id) then 1 else 0
  }

  function AcceptRow(r: Request): Audit { Audit(r.source, "command_accept", r.target, r.eventId, "accepted") }
  function RejectRow(r: Request, why: string): Audit { Audit(r.source, "command_reject", r.target, r.eventId, why) }

  // -------------------------------------------------------------- invariant

  /** Every counter is at or above every stored sequence number of its source. */
  predicate CountersBound(events: seq<Event>, counters: map<string, int>) {
    forall i :: 0 <= i < |events| ==> events[i].source in counters && events[i].seqNo <= counters[events[i].source]
  }

  /** The two UNIQUE constraints of the events table. */
  predicate UniqueEvents(events: seq<Event>) {
    forall i, j :: 0 <= i < j < |events| ==>
      && events[i].eventId != events[j].eventId
      && !(events[i].source == events[j].source && events[i].seqNo == events[j].seqNo)
  }

  /** Exactly one accept row per command event, and none for anything else. */
  ghost predicate AuditMatches(events: seq<Event>, audit: seq<Audit>) {
    && (forall i :: 0 <= i < |events| ==>
          Accepts(audit, events[i].eventId) == if events[i].kind == "command" then 1 else 0)
    && (forall id :: Accepts(audit, id) > 0 ==> HasId(events, id))
  }

  predicate ActorsAreSources(events: seq<Event>) {
    forall i :: 0 <= i < |events| ==>
      events[i].actor == if events[i].kind == "command" then Some(events[i].source) else None
  }

  ghost predicate Valid(l: Ledger) {
    && CountersBound(l.events, l.counters)
    && UniqueEvents(l.events)
    && AuditMatches(l.events, l.audit)
    && ActorsAreSources(l.events)
  }

  // ------------------------------------------------- the atomic step, on values

  function NextSeq(counters: map<string, int>, source: string): int {
    if source in counters then counters[source] + 1 else 1
  }

  function Raised(counters: map<string, int>, source: string, n: int): map<string, int> {
    counters[source := if source in counters && counters[source] > n then counters[source] else n]
  }

  function SeqFor(l: Ledger, r: Request): int {
    if r.seqNo.Some? then r.seqNo.value else NextSeq(l.counters, r.source)
  }

  function NewEvent(r: Request, n: int, now: nat): Event {
    Event(r.eventId, r.source, r.target, r.kind, n, now, r.content, if IsCommand(r) then Some(r.source) else None)
  }

  /** Event row, counter and accept audit, all at once. */
  function Commit(l: Ledger, r: Request, now: nat): Ledger {
    var n := SeqFor(l, r);
    l.(events := l.events + [NewEvent(r, n, now)],
       counters := Raised(l.counters, r.source, n),
       audit := if IsCommand(r) then l.audit + [AcceptRow(r)] else l.audit)
  }

  function Rejected(l: Ledger, r: Request, why: string): (Ledger, Outcome) {
    (l.(audit := l.audit + [RejectRow(r, why)]), Refused(why))
  }

  predicate HasSourceRef(r: Request) {
    r.content.sourceRef.Some? && r.content.sourceRef.value != ""
  }

  predicate Authorized(l: Ledger, r: Request, now: nat) {
    if IsCommand(r) then ValidToken(l, r.source, r.token, now) && CommandAllowed(l, r, now)
    else AclAllows(l, r.source, r.target)
  }

  /** What one request does to the ledger. */
  function Insert(l: Ledger, r: Request, now: nat): (Ledger, Outcome) {
    if IsCommand(r) && !HasSourceRef(r) then Rejected(l, r, "missing_source_ref")
    else if HasId(l.events, r.eventId) then (l, Identified(Find(l.events, r.eventId), r))
    else if IsCommand(r) && !ValidToken(l, r.source, r.token, now) then Rejected(l, r, "invalid_token")
    else if IsCommand(r) && !CommandAllowed(l, r, now) then Rejected(l, r, "grant_denied")
    else if !IsCommand(r) && !AclAllows(l, r.source, r.target) then (l, Refused("target not allowed"))
    else if HasSeq(l.events, r.source, SeqFor(l, r)) then (l, SeqConflict)
    else (Commit(l, r, now), Stored(NewEvent(r, SeqFor(l, r), now)))
  }

  /** An automatic sequence number is always free: the counter bounds every stored one. */
  lemma AutomaticSeqIsFree(l: Ledger, source: string)
    requires CountersBound(l.events, l.counters)
    ensures !HasSeq(l.events, source, NextSeq(l.counters, source))
  {
  }

  lemma AcceptsAppend(audit: seq<Audit>, a: Audit, id: string)
    ensures Accepts(audit + [a], id) == Accepts(audit, id) + if IsAccept(a, id) then 1 else 0
  {
    assert (audit + [a])[..|audit|] == audit;
  }

  lemma CommitKeepsUnique(l: Ledger, r: Request, now: nat)
    requires CountersBound(l.events, l.counters) && UniqueEvents(l.events)
    requires !HasId(l.events, r.eventId) && !HasSeq(l.events, r.source, SeqFor(l, r))
    ensures var l' := Commit(l, r, now); CountersBound(l'.events, l'.counters) && UniqueEvents(l'.events)
  {
  }

  lemma CommitKeepsAudit(l: Ledger, r: Request, now: nat)
    requires AuditMatches(l.events, l.audit) && !HasId(l.events, r.eventId)
    ensures var l' := Commit(l, r, now); AuditMatches(l'.events, l'.audit)
  {
    var l' := Commit(l, r, now);
    assert l'.events[|l.events|] == NewEvent(r, SeqFor(l, r), now);
    forall id ensures Accepts(l'.audit, id) == Accepts(l.audit, id) + if IsCommand(r) && id == r.eventId then 1 else 0 {
      if IsCommand(r) { AcceptsAppend(l.audit, AcceptRow(r), id); }
    }
    forall id | Accepts(l'.audit, id) > 0 ensures HasId(l'.events, id) {
      if id != r.eventId {
        var i :| 0 <= i < |l.events| && l.events[i].eventId == id;
        assert l'.events[i].eventId == id;
      }
    }
    assert Accepts(l.audit, r.eventId) == 0;
  }

  lemma CommitKeepsValid(l: Ledger, r: Request, now: nat)
    requires Valid(l) && !HasId(l.events, r.eventId) && !HasSeq(l.events, r.source, SeqFor(l, r))
    ensures Valid(Commit(l, r, now))
  {
    CommitKeepsUnique(l, r, now);
    CommitKeepsAudit(l, r, now);
  }

  lemma RejectKeepsValid(l: Ledger, a: Audit)
    requires Valid(l) && a.action != "command_accept"
    ensures Valid(l.(audit := l.audit + [a]))
    ensures forall id :: Accepts(l.audit + [a], id) == Accepts(l.audit, id)
  {
    forall id ensures Accepts(l.audit + [a], id) == Accepts(l.audit, id) {
      AcceptsAppend(l.audit, a, id);
    }
  }

  /** The write path keeps the ledger valid and never removes or changes an event. */
  lemma InsertKeepsValid(l: Ledger, r: Request, now: nat)
    requires Valid(l)
    ensures var l' := Insert(l, r, now).0; Valid(l') && l.events <= l'.events
  {
    var o := Insert(l, r, now).1;
    if o.Stored? {
      CommitKeepsValid(l, r, now);
    } else if o.Refused? && o.why != "target not allowed" {
      RejectKeepsValid(l, RejectRow(r, o.why));
    }
  }

  /** A retry of a stored request changes nothing and is answered with the stored event. */
  lemma RetryIsIdempotent(l: Ledger, r: Request, now: nat, later: nat)
    requires Valid(l) && Insert(l, r, now).1.Stored?
    ensures var (l', o) := Insert(l, r, now); Insert(l', r, later) == (l', Existing(o.event))
  {
    var (l', o) := Insert(l, r, now);
    CommitKeepsValid(l, r, now);
    assert l'.events[|l.events|] == o.event;
    FindUnique(l'.events, |l.events|);
  }

  lemma {:induction false} FindUnique(es: seq<Event>, k: nat)
    requires UniqueEvents(es) && k < |es|
    ensures HasId(es, es[k].eventId) && Find(es, es[k].eventId) == es[k]
  {
    if k > 0 {
      FindUnique(es[1..], k - 1);
    }
  }

  // --------------------------------------- what a request gets, table by table

  predicate Unexpired(until: Option<nat>, clock: nat) { until.Some? ==> until.value >= clock }

  /** The right token, not revoked, whatever its expiry. */
  predicate UsableToken(t: Token, r: Request) {
    r.token.Some? && r.token.value != "" && t.peer == r.source && t.digest == Sha256(r.token.value) && !t.revoked
  }

  /** The right grant, not revoked, whatever its expiry: of this operation or of all, with every scope entry in the payload. */
  predicate UsableGrant(g: Grant, r: Request) {
    var p := r.content.payload;
    && g.grantor == r.target && g.grantee == r.source && !g.revoked
    && Operation(p) != "" && (g.commandType == Operation(p) || g.commandType == "*")
    && forall k :: k in g.scope ==> (if k in p then p[k] else Null) == g.scope[k]
  }

  predicate TokenCurrent(l: Ledger, r: Request, clock: nat) {
    exists i :: 0 <= i < |l.tokens| && UsableToken(l.tokens[i], r) && Unexpired(l.tokens[i].graceUntil, clock)
  }

  predicate GrantCurrent(l: Ledger, r: Request, clock: nat) {
    exists i :: 0 <= i < |l.grants| && UsableGrant(l.grants[i], r) && Unexpired(l.grants[i].validUntil, clock)
  }

  /** A source with a target list reaches the targets on it, and never the broadcast target. */
  predicate Restricted(l: Ledger, source: string, target: string) {
    source in l.acl && (target == "*" || target !in l.acl[source])
  }

  predicate Permitted(l: Ledger, r: Request, clock: nat) {
    if r.kind == "command" then TokenCurrent(l, r, clock) && GrantCurrent(l, r, clock) else !Restricted(l, r.source, r.target)
  }

  lemma TokenIsCurrent(l: Ledger, r: Request, clock: nat)
    ensures ValidToken(l, r.source, r.token, clock) <==> TokenCurrent(l, r, clock)
  {
    if ValidToken(l, r.source, r.token, clock) {
      var i :| 0 <= i < |l.tokens| && TokenLive(l.tokens[i], r.source, Sha256(r.token.value), clock);
      assert UsableToken(l.tokens[i], r);
    }
    if TokenCurrent(l, r, clock) {
      var i :| 0 <= i < |l.tokens| && UsableToken(l.tokens[i], r) && Unexpired(l.tokens[i].graceUntil, clock);
      assert TokenLive(l.tokens[i], r.source, Sha256(r.token.value), clock);
    }
  }

  lemma GrantIsCurrent(l: Ledger, r: Request, clock: nat)
    ensures CommandAllowed(l, r, clock) <==> GrantCurrent(l, r, clock)
  {
    if CommandAllowed(l, r, clock) {
      var i :| 0 <= i < |l.grants| && GrantLive(l.grants[i], r, clock) && ScopeMatches(l.grants[i].scope, r.content.payload);
      assert UsableGrant(l.grants[i], r);
    }
    if GrantCurrent(l, r, clock) {
      var i :| 0 <= i < |l.grants| && UsableGrant(l.grants[i], r) && Unexpired(l.grants[i].validUntil, clock);
      assert GrantLive(l.grants[i], r, clock) && ScopeMatches(l.grants[i].scope, r.content.payload);
    }
  }

  lemma AuthorizedIsPermitted(l: Ledger, r: Request, clock: nat)
    ensures Authorized(l, r, clock) <==> Permitted(l, r, clock)
  {
    TokenIsCurrent(l, r, clock);
    GrantIsCurrent(l, r, clock);
  }

  /** The stored event has this request's id, source, target and kind. */
  predicate IsRowOf(e: Event, r: Request) {
    e.eventId == r.eventId && e.source == r.source && e.target == r.target && e.kind == r.kind
  }

  predicate IdKnown(l: Ledger, id: string) { exists e :: e in l.events && e.eventId == id }

  predicate IdTakenByAnother(l: Ledger, r: Request) {
    exists e :: e in l.events && e.eventId == r.eventId && (e.source != r.source || e.target != r.target || e.kind != r.kind)
  }

  predicate SeqTaken(l: Ledger, source: string, n: int) { exists e :: e in l.events && e.source == source && e.seqNo == n }

  predicate Unsourced(r: Request) {
    r.kind == "command" && (r.content.sourceRef.None? || r.content.sourceRef.value == "")
  }

  /** Which answer a request gets, decided by the tables before it. */
  predicate Answers(l: Ledger, r: Request, now: nat, o: Outcome) {
    var unseen := !Unsourced(r) && !IdKnown(l, r.eventId);
    var taken := r.seqNo.Some? && SeqTaken(l, r.source, r.seqNo.value);
    && (o == Refused("missing_source_ref") <==> Unsourced(r))
    && (o.Existing? <==> !Unsourced(r) && exists e :: e in l.events && IsRowOf(e, r))
    && (o.Existing? ==> o.event in l.events && IsRowOf(o.event, r))
    && (o.IdConflict? <==> !Unsourced(r) && IdTakenByAnother(l, r))
    && (o == Refused("invalid_token") <==> unseen && r.kind == "command" && !TokenCurrent(l, r, now))
    && (o == Refused("grant_denied") <==> unseen && r.kind == "command" && TokenCurrent(l, r, now) && !GrantCurrent(l, r, now))
    && (o == Refused("target not allowed") <==> unseen && r.kind != "command" && Restricted(l, r.source, r.target))
    && (o.SeqConflict? <==> unseen && Permitted(l, r, now) && taken)
    && (o.Stored? <==> unseen && Permitted(l, r, now) && !taken)
  }

  /** What the answer means for the tables: a stored request adds its event, its counter and, for a command, one accept
      row; a refused command adds one reject row; nothing else changes anything. */
  predicate Effects(l: Ledger, r: Request, now: nat, o: Outcome, l': Ledger) {
    match o
    case Stored(e) =>
      var next := if r.source in l.counters then l.counters[r.source] + 1 else 1;
      && e.eventId == r.eventId && e.source == r.source && e.target == r.target && e.kind == r.kind
      && e.content == r.content && e.storedAt == now
      && e.seqNo == (if r.seqNo.Some? then r.seqNo.value else next)
      && e.actor == (if r.kind == "command" then Some(r.source) else None)
      && l'.events == l.events + [e]
      && l'.counters == l.counters[r.source := if r.source in l.counters && l.counters[r.source] > e.seqNo
                                               then l.counters[r.source] else e.seqNo]
      && l'.audit == (if r.kind == "command" then l.audit + [Audit(r.source, "command_accept", r.target, r.eventId, "accepted")]
                      else l.audit)
      && l'.tokens == l.tokens && l'.grants == l.grants && l'.acl == l.acl
    case Refused(why) =>
      l' == if r.kind == "command" then l.(audit := l.audit + [Audit(r.source, "command_reject", r.target, r.eventId, why)]) else l
    case _ => l' == l
  }

  lemma KnownId(l: Ledger, id: string)
    ensures HasId(l.events, id) <==> IdKnown(l, id)
  {
    if IdKnown(l, id) {
      var e :| e in l.events && e.eventId == id;
      var i :| 0 <= i < |l.events| && l.events[i] == e;
      assert l.events[i].eventId == id;
    }
    if HasId(l.events, id) {
      var i :| 0 <= i < |l.events| && l.events[i].eventId == id;
      assert l.events[i] in l.events;
    }
  }

  lemma KnownSeq(l: Ledger, source: string, n: int)
    ensures HasSeq(l.events, source, n) <==> SeqTaken(l, source, n)
  {
    if SeqTaken(l, source, n) {
      var e :| e in l.events && e.source == source && e.seqNo == n;
      var i :| 0 <= i < |l.events| && l.events[i] == e;
      assert l.events[i].source == source;
    }
    if HasSeq(l.events, source, n) {
      var i :| 0 <= i < |l.events| && l.events[i].source == source && l.events[i].seqNo == n;
      assert l.events[i] in l.events;
    }
  }

  /** The stored row of an id is the only one, so it decides between the request's own event and a conflict. */
  lemma KnownRow(l: Ledger, r: Request)
    requires UniqueEvents(l.events)
    ensures HasId(l.events, r.eventId) <==> IdKnown(l, r.eventId)
    ensures !IdKnown(l, r.eventId) ==> !IdTakenByAnother(l, r) && !exists e :: e in l.events && IsRowOf(e, r)
    ensures HasId(l.events, r.eventId) ==>
              var o := Identified(Find(l.events, r.eventId), r);
              && (o.Existing? <==> exists e :: e in l.events && IsRowOf(e, r))
              && (o.Existing? ==> o.event in l.events && IsRowOf(o.event, r))
              && (o.IdConflict? <==> IdTakenByAnother(l, r))
              && (o.Existing? || o.IdConflict?)
  {
    KnownId(l, r.eventId);
    if HasId(l.events, r.eventId) {
      var f := Find(l.events, r.eventId);
      forall e | e in l.events && e.eventId == r.eventId ensures e == f {
        var i :| 0 <= i < |l.events| && l.events[i] == e;
        FindUnique(l.events, i);
      }
    }
  }

  /** Every request gets exactly the answer and the effects that the tables call for. */
  lemma InsertAnswers(l: Ledger, r: Request, now: nat)
    requires CountersBound(l.events, l.counters) && UniqueEvents(l.events)
    ensures var (l', o) := Insert(l, r, now); Answers(l, r, now, o) && Effects(l, r, now, o, l')
  {
    KnownRow(l, r);
    KnownSeq(l, r.source, SeqFor(l, r));
    AutomaticSeqIsFree(l, r.source);
    TokenIsCurrent(l, r, now);
    GrantIsCurrent(l, r, now);
  }
}
