/** Runs of the ledger under concurrent writers: SQLite writers, rqlite clients whose pre-read,
    transaction and read-back interleave with everything else, and administrators that change
    tokens, grants and target lists at any time. */
module LedgerRuns {
  import opened Options
  import opened Ledger
  import opened RaftStore

  /** An rqlite client: it found its event id unused, then picked a grant, then took its time stamp. */
  datatype Client =
    | Probed(request: Request)
    | Chosen(request: Request, grant: Grant)
    | Ready(request: Request, grant: Grant, stamp: nat)

  datatype World = World(ledger: Ledger, clock: nat, clients: map<nat, Client>)

  datatype Action =
    | SqliteWrite(request: Request)
    | Probe(client: nat, request: Request)
    | ReadGrants(client: nat)
    | TakeStamp(client: nat)
    | Transact(client: nat)
    | ReadBackOf(client: nat)
    | Abandon(client: nat)
    | RejectAudit(row: Audit)
    | Administer
    | Tick

  predicate IsInit(w: World) {
    w.ledger.events == [] && w.ledger.counters == map[] && w.ledger.audit == [] && w.clients == map[]
  }

  /** The grant a client picks in its pre-read; none means it gives up before the transaction. */
  function Picked(l: Ledger, r: Request, now: nat): Option<Grant> {
    if !IsCommand(r) then Some(NO_GRANT)
    else if !HasSourceRef(r) || r.token.None? || r.token.value == "" then None
    else MatchingGrant(l.grants, r, now)
  }

  /** The answer of a read-back; a client that finds its event id answers from that row. */
  function Answer(l: Ledger, r: Request): Outcome {
    if HasId(l.events, r.eventId) then Identified(Find(l.events, r.eventId), r)
    else Refused("authorization changed before commit")
  }

  predicate Next(w: World, a: Action, w': World) {
    match a
    case SqliteWrite(r) => w' == w.(ledger := Insert(w.ledger, r, w.clock).0)
    case Probe(c, r) =>
      && c !in w.clients && !HasId(w.ledger.events, r.eventId) && (IsCommand(r) ==> HasSourceRef(r))
      && w' == w.(clients := w.clients[c := Probed(r)])
    case ReadGrants(c) =>
      && c in w.clients && w.clients[c].Probed?
      && var r := w.clients[c].request;
         Picked(w.ledger, r, w.clock).Some?
         && w' == w.(clients := w.clients[c := Chosen(r, Picked(w.ledger, r, w.clock).value)])
    case TakeStamp(c) =>
      && c in w.clients && w.clients[c].Chosen?
      && w' == w.(clients := w.clients[c := Ready(w.clients[c].request, w.clients[c].grant, w.clock)])
    // A failed-over HTTP request may run the same statement list more than once.
    case Transact(c) =>
      && c in w.clients && w.clients[c].Ready?
      && var p := w.clients[c]; w' == w.(ledger := ExecAll(w.ledger, Statements(p.request, p.grant, p.stamp)))
    case ReadBackOf(c) => c in w.clients && w.clients[c].Ready? && w' == w.(clients := w.clients - {c})
    case Abandon(c) => w' == w.(clients := w.clients - {c})
    case RejectAudit(row) =>
      row.action != "command_accept" && w' == w.(ledger := w.ledger.(audit := w.ledger.audit + [row]))
    case Administer =>
      w' == w.(ledger := w'.ledger) &&
      w'.ledger == w.ledger.(tokens := w'.ledger.tokens, grants := w'.ledger.grants, acl := w'.ledger.acl)
    case Tick => w' == w.(clock := w'.clock) && w.clock <= w'.clock
  }

  ghost predicate IsRun(ws: seq<World>, acts: seq<Action>) {
    && |ws| == |acts| + 1 && IsInit(ws[0])
    && forall i :: 0 <= i < |acts| ==> Next(ws[i], acts[i], ws[i + 1])
  }

  predicate ClientOk(c: Client, clock: nat) {
    match c
    case Probed(r) => IsCommand(r) ==> HasSourceRef(r)
    case Chosen(r, grant) => PreRead(r, grant)
    case Ready(r, grant, stamp) => PreRead(r, grant) && stamp <= clock
  }

  ghost predicate Inv(w: World) {
    Valid(w.ledger) && forall c :: c in w.clients ==> ClientOk(w.clients[c], w.clock)
  }

  /** What was the request and the time stamp of a write, if the action was one. */
  function RequestOf(w: World, a: Action): Option<(Request, nat)> {
    match a
    case SqliteWrite(r) => Some((r, w.clock))
    case Transact(c) =>
      if c in w.clients && w.clients[c].Ready? then Some((w.clients[c].request, w.clients[c].stamp)) else None
    case _ => None
  }

  /** The action committed the event of its request, authorized by the tokens, grants and target lists of
      this very state. Revocation is judged here; expiry is judged at the stamp, which may be earlier. */
  predicate Commits(w: World, a: Action, w': World, e: Event) {
    match RequestOf(w, a)
    case None => false
    case Some((r, stamp)) =>
      && stamp <= w.clock
      && Authorized(w.ledger, r, stamp)
      && !HasId(w.ledger.events, r.eventId)
      && e == NewEvent(r, SeqFor(w.ledger, r), stamp)
      && w'.ledger == Commit(w.ledger, r, stamp)
  }

  /** Events, counters and accept rows are as before. */
  ghost predicate Quiet(l: Ledger, l': Ledger) {
    l.events == l'.events && l.counters == l'.counters && forall id :: Accepts(l'.audit, id) == Accepts(l.audit, id)
  }

  /** Every action of every writer is one authorized atomic commit, or leaves events, counters
      and accept audits alone. */
  lemma StepIsAtomic(w: World, a: Action, w': World)
    requires Inv(w) && Next(w, a, w')
    ensures Inv(w')
    ensures var n := |w.ledger.events|;
            || Quiet(w.ledger, w'.ledger)
            || (|w'.ledger.events| == n + 1 && Commits(w, a, w', w'.ledger.events[n]))
  {
    match a
    case SqliteWrite(r) => SqliteStepIsAtomic(w.ledger, r, w.clock);
    case ReadGrants(c) => MatchingGrantFound(w.ledger.grants, w.clients[c].request, w.clock);
    case Transact(c) =>
      var p := w.clients[c];
      TransactionRefines(w.ledger, p.request, p.grant, p.stamp);
      if Fires(w.ledger, p.request, p.grant, p.stamp) {
        CommitKeepsValid(w.ledger, p.request, p.stamp);
        GuardImpliesAuthorized(w.ledger, p.request, p.grant, p.stamp);
      }
    case RejectAudit(row) => RejectKeepsValid(w.ledger, row);
    case _ =>
  }

  lemma SqliteStepIsAtomic(l: Ledger, r: Request, now: nat)
    requires Valid(l)
    ensures var (l', o) := Insert(l, r, now);
            && Valid(l')
            && if o.Stored?
               then l' == Commit(l, r, now) && Authorized(l, r, now) && !HasId(l.events, r.eventId)
               else Quiet(l, l')
  {
    var o := Insert(l, r, now).1;
    InsertKeepsValid(l, r, now);
    if o.Refused? && o.why != "target not allowed" {
      RejectKeepsValid(l, RejectRow(r, o.why));
    }
  }

  /** What the writes do: a locked write answers and acts by the tables it finds; a transaction stores its event with counter
      and accept row when its grant still stands and nothing has taken its id or its number, and else changes nothing. */
  lemma WritesExactly(w: World, a: Action, w': World)
    requires Inv(w) && Next(w, a, w')
    ensures a.SqliteWrite? ==>
              exists o :: Answers(w.ledger, a.request, w.clock, o) && Effects(w.ledger, a.request, w.clock, o, w'.ledger)
    ensures a.Transact? ==>
              var r, grant, stamp := w.clients[a.client].request, w.clients[a.client].grant, w.clients[a.client].stamp;
              if StillGranted(w.ledger, r, grant, stamp) && !IdKnown(w.ledger, r.eventId)
                 && !(r.seqNo.Some? && SeqTaken(w.ledger, r.source, r.seqNo.value))
              then exists e :: Effects(w.ledger, r, stamp, Stored(e), w'.ledger)
              else w'.ledger == w.ledger
  {
    if a.SqliteWrite? {
      InsertAnswers(w.ledger, a.request, w.clock);
      assert Answers(w.ledger, a.request, w.clock, Insert(w.ledger, a.request, w.clock).1);
    }
    if a.Transact? { TransactionExactly(w.ledger, w.clients[a.client].request, w.clients[a.client].grant, w.clients[a.client].stamp); }
    hide Answers, Effects, Insert, Statements, ExecAll, StillGranted, IdKnown, SeqTaken, Valid, PreRead;
  }

  lemma TransactionExactly(l: Ledger, r: Request, grant: Grant, stamp: nat)
    requires Valid(l) && PreRead(r, grant)
    ensures var l' := ExecAll(l, Statements(r, grant, stamp));
            if StillGranted(l, r, grant, stamp) && !IdKnown(l, r.eventId) && !(r.seqNo.Some? && SeqTaken(l, r.source, r.seqNo.value))
            then Effects(l, r, stamp, Stored(NewEvent(r, SeqFor(l, r), stamp)), l')
            else l' == l
  {
    FiresExactly(l, r, grant, stamp);
    TransactionRefines(l, r, grant, stamp);
    InsertAnswers(l, r, stamp);
    hide StillGranted, IdKnown, SeqTaken, Answers, Effects, Insert, Statements, ExecAll, Fires, PreRead, Commit;
  }

  lemma {:induction false} RunInv(ws: seq<World>, acts: seq<Action>, n: nat)
    requires IsRun(ws, acts) && n < |ws|
    ensures Inv(ws[n])
  {
    if n > 0 {
      RunInv(ws, acts, n - 1);
      StepIsAtomic(ws[n - 1], acts[n - 1], ws[n]);
    }
  }

  lemma LastStepGrows(ws: seq<World>, acts: seq<Action>, n: nat)
    requires IsRun(ws, acts) && 0 < n < |ws|
    ensures ws[n - 1].ledger.events <= ws[n].ledger.events
  {
    RunInv(ws, acts, n - 1);
    StepIsAtomic(ws[n - 1], acts[n - 1], ws[n]);
  }

  /** Events are never removed or changed. */
  lemma {:induction false} EventsGrow(ws: seq<World>, acts: seq<Action>, m: nat, n: nat)
    requires IsRun(ws, acts) && m <= n < |ws|
    ensures ws[m].ledger.events <= ws[n].ledger.events
  {
    if m < n {
      EventsGrow(ws, acts, m, n - 1);
      LastStepGrows(ws, acts, n);
    }
  }

  /** No check-then-insert gap: every event of every run was committed by one step, at whose state its request was
      authorized: for a command an unrevoked token of its source and an unrevoked grant from its target whose scope
      matches the payload, both unexpired at the step's stamp. */
  lemma {:induction false} CommittedWhileAuthorized(ws: seq<World>, acts: seq<Action>, n: nat, j: nat) returns (k: nat)
    requires IsRun(ws, acts) && n < |ws| && j < |ws[n].ledger.events|
    ensures k < n && Commits(ws[k], acts[k], ws[k + 1], ws[n].ledger.events[j])
    ensures |ws[k].ledger.events| == j
    ensures acts[k].SqliteWrite? ==> Authorized(ws[k].ledger, acts[k].request, ws[k].clock)
    ensures var e := ws[n].ledger.events[j]; e.kind != "command" ==> !Restricted(ws[k].ledger, e.source, e.target)
  {
    RunInv(ws, acts, n - 1);
    StepIsAtomic(ws[n - 1], acts[n - 1], ws[n]);
    if j < |ws[n - 1].ledger.events| {
      k := CommittedWhileAuthorized(ws, acts, n - 1, j);
    } else {
      k := n - 1;
    }
  }

  // ------------------------------------------------- expiry at the commit clock

  /** A transaction commits a command although, by the clock, its request is no longer authorized, exactly when
      every token or every grant that fits it has expired since the stamp; revocation never slips through. */
  lemma AuthorizedAtCommitExactly(w: World, c: nat, w': World)
    requires Inv(w) && Next(w, Transact(c), w') && |w'.ledger.events| > |w.ledger.events|
    ensures var r := w.clients[c].request;
            && Authorized(w.ledger, r, w.clients[c].stamp)
            && (Authorized(w.ledger, r, w.clock) <==>
                  (IsCommand(r) ==> TokenCurrent(w.ledger, r, w.clock) && GrantCurrent(w.ledger, r, w.clock)))
            && (IsCommand(r) ==>
                  && (exists i :: 0 <= i < |w.ledger.tokens| && UsableToken(w.ledger.tokens[i], r))
                  && (exists i :: 0 <= i < |w.ledger.grants| && UsableGrant(w.ledger.grants[i], r)))
  {
    StepIsAtomic(w, Transact(c), w');
    var r, l, stamp := w.clients[c].request, w.ledger, w.clients[c].stamp;
    if IsCommand(r) {
      AuthorizedIsPermitted(l, r, w.clock);
      AuthorizedIsPermitted(l, r, stamp);
    }
  }

  /** No token and no grant reaches its end between these times. */
  predicate NothingExpires(l: Ledger, from: nat, to: nat) {
    && (forall i :: 0 <= i < |l.tokens| && Unexpired(l.tokens[i].graceUntil, from) ==> Unexpired(l.tokens[i].graceUntil, to))
    && (forall i :: 0 <= i < |l.grants| && Unexpired(l.grants[i].validUntil, from) ==> Unexpired(l.grants[i].validUntil, to))
  }

  /** Where nothing expires between stamp and commit, the commit is authorized by its own clock. */
  lemma AuthorizedUnlessExpired(w: World, c: nat, w': World)
    requires Inv(w) && Next(w, Transact(c), w') && |w'.ledger.events| > |w.ledger.events|
    requires NothingExpires(w.ledger, w.clients[c].stamp, w.clock)
    ensures Authorized(w.ledger, w.clients[c].request, w.clock)
  {
    AuthorizedAtCommitExactly(w, c, w');
    var r, l, stamp := w.clients[c].request, w.ledger, w.clients[c].stamp;
    if IsCommand(r) {
      AuthorizedIsPermitted(l, r, stamp);
      var i :| 0 <= i < |l.tokens| && UsableToken(l.tokens[i], r) && Unexpired(l.tokens[i].graceUntil, stamp);
      assert Unexpired(l.tokens[i].graceUntil, w.clock);
      var j :| 0 <= j < |l.grants| && UsableGrant(l.grants[j], r) && Unexpired(l.grants[j].validUntil, stamp);
      assert Unexpired(l.grants[j].validUntil, w.clock);
    }
  }

  const LATE_GRANT := Grant(1, "b", "a", "x", map[], Some(10), false)
  const LATE_LEDGER := Ledger([], map[], [], [Token("a", Sha256("t"), None, false)], [LATE_GRANT], map[])
  const LATE_REQUEST := Request("id", "a", "b", "command", None,
                                Content("", map["op" := Text("x")], true, Some("ref")), Some("t"))

  lemma LateRequestFires()
    ensures Picked(LATE_LEDGER, LATE_REQUEST, 10) == Some(LATE_GRANT)
    ensures PreRead(LATE_REQUEST, LATE_GRANT) && Fires(LATE_LEDGER, LATE_REQUEST, LATE_GRANT, 10)
  {
    var r, g, l := LATE_REQUEST, LATE_GRANT, LATE_LEDGER;
    assert Operation(r.content.payload) == "x" by { assert Strip("x") == "x"; }
    assert GrantLive(g, r, 10) && ScopeMatches(g.scope, r.content.payload);
    assert l.grants[0] == g;
    assert TokenLive(l.tokens[0], "a", Sha256("t"), 10);
    assert GrantStillGood(l.grants[0], GuardFor(r, g, 10));
  }

  lemma LateRequestExpired()
    ensures !Authorized(LATE_LEDGER, LATE_REQUEST, 20)
  {
    assert forall i :: 0 <= i < |LATE_LEDGER.grants| ==> LATE_LEDGER.grants[i] == LATE_GRANT;
  }

  /** Whatever a client picked and stamped at one time it may commit at any later one. */
  lemma CommitsLater(l: Ledger, r: Request, g: Grant, from: nat, to: nat) returns (ws: seq<World>, acts: seq<Action>)
    requires Valid(l) && l.events == [] && l.counters == map[] && l.audit == [] && from <= to
    requires HasSourceRef(r) && Picked(l, r, from) == Some(g) && PreRead(r, g) && Fires(l, r, g, from)
    ensures IsRun(ws, acts) && |acts| == 5 && acts[4].Transact?
    ensures ws[4].ledger == l && ws[4].clock == to && ws[5].ledger == Commit(l, r, from)
  {
    var w0 := World(l, from, map[]);
    var w1 := w0.(clients := map[0 := Probed(r)]);
    var w2 := w0.(clients := map[0 := Chosen(r, g)]);
    var w3 := w0.(clients := map[0 := Ready(r, g, from)]);
    var w4 := w3.(clock := to);
    var w5 := w4.(ledger := Commit(l, r, from));
    TransactionRefines(l, r, g, from);
    ws, acts := [w0, w1, w2, w3, w4, w5], [Probe(0, r), ReadGrants(0), TakeStamp(0), Tick, Transact(0)];
    assert w0.clients[0 := Probed(r)] == w1.clients && w1.clients[0 := Chosen(r, g)] == w2.clients;
    assert w2.clients[0 := Ready(r, g, from)] == w3.clients;
    assert Next(w0, acts[0], w1) && Next(w1, acts[1], w2) && Next(w2, acts[2], w3) && Next(w3, acts[3], w4) && Next(w4, acts[4], w5);
  }

  /** A grant that ends at 10, picked and stamped at 10, still commits a command at 20. */
  lemma ExpiredGrantCommits() returns (ws: seq<World>, acts: seq<Action>)
    ensures IsRun(ws, acts) && |acts| == 5 && acts[4].Transact?
    ensures HasId(ws[5].ledger.events, LATE_REQUEST.eventId) && !HasId(ws[4].ledger.events, LATE_REQUEST.eventId)
    ensures ws[4].clock == 20 && !Authorized(ws[4].ledger, LATE_REQUEST, ws[4].clock)
  {
    LateRequestFires();
    LateRequestExpired();
    ws, acts := CommitsLater(LATE_LEDGER, LATE_REQUEST, LATE_GRANT, 10, 20);
    assert ws[5].ledger.events[0].eventId == LATE_REQUEST.eventId;
  }

  /** Every command event of every run has exactly one accept audit row. */
  lemma OneAcceptPerCommand(ws: seq<World>, acts: seq<Action>, n: nat, j: nat)
    requires IsRun(ws, acts) && n < |ws| && j < |ws[n].ledger.events|
    ensures var e := ws[n].ledger.events[j];
            Accepts(ws[n].ledger.audit, e.eventId) == if e.kind == "command" then 1 else 0
  {
    RunInv(ws, acts, n);
  }

  lemma IdStays(es: seq<Event>, es': seq<Event>, id: string)
    requires es <= es' && HasId(es, id)
    ensures HasId(es', id)
  {
    var i :| 0 <= i < |es| && es[i].eventId == id;
    assert es'[i].eventId == id;
  }

  /** A client that is refused at its read-back never wrote: the id is absent in every state so
      far. A client that is answered with an event is answered with the stored row of its id. */
  lemma AnswersAreSound(ws: seq<World>, acts: seq<Action>, n: nat, c: nat, r: Request)
    requires IsRun(ws, acts) && n < |acts| && acts[n] == ReadBackOf(c)
    requires c in ws[n].clients && r == ws[n].clients[c].request
    ensures var o := Answer(ws[n].ledger, r);
            && (o.Refused? ==> forall m :: 0 <= m <= n ==> !HasId(ws[m].ledger.events, r.eventId))
            && (o.Existing? ==> o.event in ws[n].ledger.events && IsRowOf(o.event, r))
            && (o.IdConflict? <==> IdTakenByAnother(ws[n].ledger, r))
            && (o.Refused? <==> !IdKnown(ws[n].ledger, r.eventId))
  {
    RunInv(ws, acts, n);
    KnownRow(ws[n].ledger, r);
    forall m | 0 <= m <= n && HasId(ws[m].ledger.events, r.eventId)
      ensures HasId(ws[n].ledger.events, r.eventId)
    {
      EventsGrow(ws, acts, m, n);
      IdStays(ws[m].ledger.events, ws[n].ledger.events, r.eventId);
    }
  }
}
