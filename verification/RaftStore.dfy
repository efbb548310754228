/** The rqlite backend: unlocked pre-reads, then one transaction of guarded SQL statements, then a
    read-back. The transaction refines the atomic step of the SQLite backend. */
module RaftStore {
  import opened Options
  import opened Ledger

  /** The EXISTS conditions that guard the statements. */
  datatype Guard =
    | AclGuard(source: string, target: string)
    | CommandGuard(source: string, digest: Digest, stamp: nat, grantId: nat, target: string,
                   scope: Payload, operation: string)

  datatype Statement =
    | BumpCounter(source: string, eventId: string, guard: Guard)
    | InsertNext(row: Event, guard: Guard)
    | InsertAt(row: Event, guard: Guard)
    | RaiseCounter(source: string, seqNo: int, eventId: string)
    | AuditAccept(entry: Audit)

  predicate Holds(l: Ledger, g: Guard) {
    match g
    case AclGuard(source, target) => AclAllows(l, source, target)
    case CommandGuard(source, digest, stamp, grantId, target, scope, operation) =>
      && (exists i :: 0 <= i < |l.tokens| && TokenLive(l.tokens[i], source, digest, stamp))
      && exists i :: 0 <= i < |l.grants| && GrantStillGood(l.grants[i], g)
  }

  predicate GrantStillGood(gr: Grant, g: Guard)
    requires g.CommandGuard?
  {
    && gr.id == g.grantId && gr.grantor == g.target && gr.grantee == g.source && gr.scope == g.scope
    && (gr.commandType == g.operation || gr.commandType == "*")
    && !gr.revoked && (gr.validUntil.Some? ==> gr.validUntil.value >= g.stamp)
  }

  /** INSERT OR IGNORE: a row that violates a UNIQUE constraint is dropped silently. */
  function InsertOrIgnore(l: Ledger, row: Event): Ledger {
    if HasId(l.events, row.eventId) || HasSeq(l.events, row.source, row.seqNo) then l
    else l.(events := l.events + [row])
  }

  predicate HasExact(es: seq<Event>, id: string, source: string, n: int) {
    exists i :: 0 <= i < |es| && es[i].eventId == id && es[i].source == source && es[i].seqNo == n
  }

  predicate HasCommandOf(es: seq<Event>, row: Audit) {
    exists i :: 0 <= i < |es| && es[i].eventId == row.eventId && es[i].source == row.actor
                && es[i].target == row.target && es[i].kind == "command" && es[i].actor == Some(row.actor)
  }

  function Exec(l: Ledger, s: Statement): Ledger {
    match s
    case BumpCounter(source, eventId, guard) =>
      if !HasId(l.events, eventId) && Holds(l, guard)
      then l.(counters := l.counters[source := NextSeq(l.counters, source)]) else l
    case InsertNext(row, guard) =>
      if row.source in l.counters && Holds(l, guard)
      then InsertOrIgnore(l, row.(seqNo := l.counters[row.source])) else l
    case InsertAt(row, guard) => if Holds(l, guard) then InsertOrIgnore(l, row) else l
    case RaiseCounter(source, n, eventId) =>
      if HasExact(l.events, eventId, source, n) then l.(counters := Raised(l.counters, source, n)) else l
    case AuditAccept(row) =>
      if HasCommandOf(l.events, row) && Accepts(l.audit, row.eventId) == 0
      then l.(audit := l.audit + [row]) else l
  }

  function ExecAll(l: Ledger, ss: seq<Statement>): Ledger
    decreases |ss|
  {
    if ss == [] then l else ExecAll(Exec(l, ss[0]), ss[1..])
  }

  // -------------------------------------------------- what the client sends

  /** The first live grant in id order whose scope matches the payload. */
  function MatchingGrant(gs: seq<Grant>, r: Request, now: nat): Option<Grant> {
    if gs == [] || Operation(r.content.payload) == "" then None
    else if GrantLive(gs[0], r, now) && ScopeMatches(gs[0].scope, r.content.payload) then Some(gs[0])
    else MatchingGrant(gs[1..], r, now)
  }

  lemma {:induction false} MatchingGrantFound(gs: seq<Grant>, r: Request, now: nat)
    ensures var g := MatchingGrant(gs, r, now);
            && (g.Some? ==> g.value in gs && GrantLive(g.value, r, now) && ScopeMatches(g.value.scope, r.content.payload))
            && (g.None? && Operation(r.content.payload) != "" ==>
                  forall i :: 0 <= i < |gs| ==> !(GrantLive(gs[i], r, now) && ScopeMatches(gs[i].scope, r.content.payload)))
            && (g.Some? ==> Operation(r.content.payload) != "")
            && (g.Some? ==> exists i :: 0 <= i < |gs| && gs[i] == g.value
                              && forall j :: 0 <= j < i ==> !(GrantLive(gs[j], r, now) && ScopeMatches(gs[j].scope, r.content.payload)))
  {
    if gs != [] && Operation(r.content.payload) != "" {
      MatchingGrantFound(gs[1..], r, now);
    }
  }

  function GuardFor(r: Request, grant: Grant, stamp: nat): Guard {
    if IsCommand(r) then
      CommandGuard(r.source, Sha256(if r.token.Some? then r.token.value else ""), stamp, grant.id, r.target,
                   grant.scope, Operation(r.content.payload))
    else AclGuard(r.source, r.target)
  }

  /** The statement list of one request; `grant` matters only for commands. */
  function Statements(r: Request, grant: Grant, stamp: nat): seq<Statement> {
    var guard := GuardFor(r, grant, stamp);
    var write := match r.seqNo
      case None => [BumpCounter(r.source, r.eventId, guard), InsertNext(NewEvent(r, 0, stamp), guard)]
      case Some(n) => [InsertAt(NewEvent(r, n, stamp), guard), RaiseCounter(r.source, n, r.eventId)];
    if IsCommand(r) then write + [AuditAccept(AcceptRow(r))] else write
  }

  // ------------------------------------------------------------- refinement

  /** What the pre-read established: the scope text of the grant it will name matches. */
  predicate PreRead(r: Request, grant: Grant) {
    IsCommand(r) ==>
      && HasSourceRef(r) && r.token.Some? && r.token.value != ""
      && Operation(r.content.payload) != "" && ScopeMatches(grant.scope, r.content.payload)
  }

  /** The guard implies the authorization that the SQLite backend evaluates at the same state. */
  lemma GuardImpliesAuthorized(l: Ledger, r: Request, grant: Grant, stamp: nat)
    requires PreRead(r, grant) && Holds(l, GuardFor(r, grant, stamp))
    ensures Authorized(l, r, stamp)
  {
    if IsCommand(r) {
      var g := GuardFor(r, grant, stamp);
      var i :| 0 <= i < |l.grants| && GrantStillGood(l.grants[i], g);
      assert GrantLive(l.grants[i], r, stamp) && ScopeMatches(l.grants[i].scope, r.content.payload);
    }
  }

  predicate Fires(l: Ledger, r: Request, grant: Grant, stamp: nat) {
    && Holds(l, GuardFor(r, grant, stamp))
    && !HasId(l.events, r.eventId)
    && !HasSeq(l.events, r.source, SeqFor(l, r))
  }

  /** What still stands at the transaction: some token, and the very grant that was picked, by its id and its scope text. */
  predicate StillGranted(l: Ledger, r: Request, grant: Grant, stamp: nat) {
    if r.kind == "command" then
      && TokenCurrent(l, r, stamp)
      && exists i :: 0 <= i < |l.grants| && l.grants[i].id == grant.id && l.grants[i].scope == grant.scope
                     && UsableGrant(l.grants[i], r) && Unexpired(l.grants[i].validUntil, stamp)
    else !Restricted(l, r.source, r.target)
  }

  lemma GuardExactly(l: Ledger, r: Request, grant: Grant, stamp: nat)
    requires PreRead(r, grant)
    ensures Holds(l, GuardFor(r, grant, stamp)) <==> StillGranted(l, r, grant, stamp)
  {
    if IsCommand(r) {
      var g := GuardFor(r, grant, stamp);
      TokenIsCurrent(l, r, stamp);
      if Holds(l, g) {
        var i :| 0 <= i < |l.grants| && GrantStillGood(l.grants[i], g);
        assert UsableGrant(l.grants[i], r);
      }
      if StillGranted(l, r, grant, stamp) {
        var i :| 0 <= i < |l.grants| && l.grants[i].id == grant.id && l.grants[i].scope == grant.scope
                 && UsableGrant(l.grants[i], r) && Unexpired(l.grants[i].validUntil, stamp);
        assert GrantStillGood(l.grants[i], g);
      }
    }
  }

  /** The transaction writes exactly when that stands, the id is unused and an explicit sequence number is not taken. */
  lemma FiresExactly(l: Ledger, r: Request, grant: Grant, stamp: nat)
    requires Valid(l) && PreRead(r, grant)
    ensures Fires(l, r, grant, stamp) <==>
              && StillGranted(l, r, grant, stamp) && !IdKnown(l, r.eventId)
              && !(r.seqNo.Some? && SeqTaken(l, r.source, r.seqNo.value))
  {
    GuardExactly(l, r, grant, stamp);
    KnownId(l, r.eventId);
    KnownSeq(l, r.source, SeqFor(l, r));
    AutomaticSeqIsFree(l, r.source);
    hide Holds, StillGranted, HasId, HasSeq, IdKnown, SeqTaken;
  }

  lemma ExecThree(l: Ledger, a: Statement, b: Statement, c: Statement)
    ensures ExecAll(l, [a, b]) == Exec(Exec(l, a), b)
    ensures ExecAll(l, [a, b] + [c]) == Exec(Exec(Exec(l, a), b), c)
  {
    assert [a, b][1..] == [b] && [b][1..] == [];
    assert ([a, b] + [c])[1..] == [b, c] && [b, c][1..] == [c] && [c][1..] == [];
    assert ExecAll(Exec(l, a), [b]) == ExecAll(Exec(Exec(l, a), b), []);
    assert ExecAll(Exec(l, a), [b, c]) == ExecAll(Exec(Exec(l, a), b), [c]);
    assert ExecAll(Exec(Exec(l, a), b), [c]) == ExecAll(Exec(Exec(Exec(l, a), b), c), []);
  }

  /** The two writing statements put event and counter in place together, or do nothing. */
  lemma WriteIsAtomic(l: Ledger, r: Request, grant: Grant, stamp: nat)
    requires Valid(l)
    ensures var ss := Statements(r, grant, stamp);
            var l2 := Exec(Exec(l, ss[0]), ss[1]);
            l2 == if Fires(l, r, grant, stamp) then Commit(l, r, stamp).(audit := l.audit) else l
  {
    var ss, guard := Statements(r, grant, stamp), GuardFor(r, grant, stamp);
    var l1 := Exec(l, ss[0]);
    assert Holds(l1, guard) == Holds(l, guard);
    match r.seqNo
    case None =>
      AutomaticSeqIsFree(l, r.source);
      if !HasId(l.events, r.eventId) && Holds(l, guard) {
        var n := NextSeq(l.counters, r.source);
        assert l1.counters[r.source] == n;
        assert NewEvent(r, 0, stamp).(seqNo := n) == NewEvent(r, n, stamp);
        assert Raised(l.counters, r.source, n) == l1.counters;
      }
    case Some(n) =>
      if Fires(l, r, grant, stamp) {
        assert l1.events[|l.events|] == NewEvent(r, n, stamp);
        assert HasExact(l1.events, r.eventId, r.source, n);
      } else {
        assert l1 == l;
        if HasExact(l.events, r.eventId, r.source, n) {
          assert Raised(l.counters, r.source, n) == l.counters;
        }
      }
  }

  /** The audit statement adds the accept row exactly when the event was just written. */
  lemma AuditIsAtomic(l: Ledger, r: Request, grant: Grant, stamp: nat)
    requires Valid(l) && IsCommand(r)
    ensures var l2 := if Fires(l, r, grant, stamp) then Commit(l, r, stamp).(audit := l.audit) else l;
            Exec(l2, AuditAccept(AcceptRow(r))) == if Fires(l, r, grant, stamp) then Commit(l, r, stamp) else l
  {
    var l2 := if Fires(l, r, grant, stamp) then Commit(l, r, stamp).(audit := l.audit) else l;
    if Fires(l, r, grant, stamp) {
      assert l2.events[|l.events|] == NewEvent(r, SeqFor(l, r), stamp);
      assert HasCommandOf(l2.events, AcceptRow(r));
      assert Accepts(l.audit, r.eventId) == 0;
    }
  }

  /** In every valid state the transaction is the single atomic step of the SQLite backend, or it
      changes nothing: whatever other writers did between the pre-read and now. */
  lemma TransactionRefines(l: Ledger, r: Request, grant: Grant, stamp: nat)
    requires Valid(l) && PreRead(r, grant)
    ensures var l' := ExecAll(l, Statements(r, grant, stamp));
            if Fires(l, r, grant, stamp)
            then Insert(l, r, stamp) == (l', Stored(NewEvent(r, SeqFor(l, r), stamp))) && l' == Commit(l, r, stamp)
            else l' == l
  {
    var ss := Statements(r, grant, stamp);
    ExecThree(l, ss[0], ss[1], AuditAccept(AcceptRow(r)));
    WriteIsAtomic(l, r, grant, stamp);
    if IsCommand(r) {
      AuditIsAtomic(l, r, grant, stamp);
      assert ss == [ss[0], ss[1]] + [AuditAccept(AcceptRow(r))];
    } else {
      assert ss == [ss[0], ss[1]];
    }
    if Fires(l, r, grant, stamp) {
      GuardImpliesAuthorized(l, r, grant, stamp);
    }
  }

  // ------------------------------------------------------- run without rivals

  const NO_GRANT := Grant(0, "", "", "", map[], None, true)

  class RqliteStore {
    var db: Ledger

    constructor (db: Ledger)
      ensures this.db == db
    {
      this.db := db;
    }

    method Transaction(ss: seq<Statement>)
      modifies this
      ensures db == ExecAll(old(db), ss)
    {
      ghost var start := db;
      for i := 0 to |ss|
        invariant ExecAll(start, ss) == ExecAll(db, ss[i..])
      {
        assert ss[i..][1..] == ss[i + 1..];
        db := Exec(db, ss[i]);
      }
    }

    method AppendAudit(row: Audit)
      modifies this
      ensures db == old(db).(audit := old(db).audit + [row])
    {
      db := db.(audit := db.audit + [row]);
    }

    /** The client call with nobody else writing: it reaches the tables the SQLite backend reaches, with the
        same answer. Only a sequence number that is taken is answered as a refusal, which a command also audits. */
    method InsertEvent(r: Request, now: nat) returns (o: Outcome)
      requires Valid(db)
      modifies this
      ensures Valid(db)
      ensures o.Existing? ==> o.event in old(db).events && IsRowOf(o.event, r)
      ensures o.IdConflict? <==> !Unsourced(r) && IdTakenByAnother(old(db), r)
      ensures var (l', o') := Insert(old(db), r, now); Answers(old(db), r, now, o') && Effects(old(db), r, now, o', l')
      ensures var (l', o') := Insert(old(db), r, now);
              if !o'.SeqConflict? then (db, o) == (l', o')
              else if IsCommand(r) then (db, o) == Rejected(l', r, "grant_denied")
              else (db, o) == (l', Refused("target not allowed"))
    {
      ghost var l := db;
      InsertKeepsValid(l, r, now);
      InsertAnswers(l, r, now);
      hide Answers, Effects;
      if IsCommand(r) && !HasSourceRef(r) {
        Reject(r, "missing_source_ref");
        return Refused("missing_source_ref");
      }
      if HasId(db.events, r.eventId) {
        return Identified(Find(db.events, r.eventId), r);
      }
      var grant := NO_GRANT;
      if IsCommand(r) {
        var found := MatchingGrant(db.grants, r, now);
        MatchingGrantFound(db.grants, r, now);
        if r.token.None? || r.token.value == "" || found.None? {
          var why := if !ValidToken(db, r.source, r.token, now) then "invalid_token" else "grant_denied";
          Reject(r, why);
          return Refused(why);
        }
        grant := found.value;
      }
      AloneFires(l, r, grant, now);
      TransactionRefines(l, r, grant, now);
      Transaction(Statements(r, grant, now));
      if Fires(l, r, grant, now) {
        ReadBack(l, r, now);
      }
      if HasId(db.events, r.eventId) {
        o := Identified(Find(db.events, r.eventId), r);
        return if o.Existing? then Stored(o.event) else o;
      }
      if IsCommand(r) {
        var why := if !ValidToken(db, r.source, r.token, now) then "invalid_token" else "grant_denied";
        Reject(r, why);
        return Refused(why);
      }
      return Refused("target not allowed");
    }

    method Reject(r: Request, why: string)
      requires Valid(db)
      modifies this
      ensures Valid(db) && db == old(db).(audit := old(db).audit + [RejectRow(r, why)])
    {
      RejectKeepsValid(db, RejectRow(r, why));
      AppendAudit(RejectRow(r, why));
    }
  }

  /** Without rivals the pre-read grant is still good, so the guard is the SQLite authorization. */
  lemma AloneFires(l: Ledger, r: Request, grant: Grant, now: nat)
    requires !HasId(l.events, r.eventId)
    requires IsCommand(r) ==>
               && r.token.Some? && r.token.value != ""
               && grant in l.grants && GrantLive(grant, r, now) && ScopeMatches(grant.scope, r.content.payload)
               && Operation(r.content.payload) != "" && HasSourceRef(r)
    ensures PreRead(r, grant)
    ensures Fires(l, r, grant, now) <==> Insert(l, r, now).1.Stored?
  {
    if IsCommand(r) {
      var g := GuardFor(r, grant, now);
      var i :| 0 <= i < |l.grants| && l.grants[i] == grant;
      assert GrantStillGood(l.grants[i], g);
      assert CommandAllowed(l, r, now);
    }
  }

  lemma ReadBack(l: Ledger, r: Request, now: nat)
    requires Valid(l) && !HasId(l.events, r.eventId) && Insert(l, r, now).1.Stored?
    ensures var (l', o) := Insert(l, r, now);
            HasId(l'.events, r.eventId) && Find(l'.events, r.eventId) == o.event && SameIdentity(o.event, r)
  {
    var l' := Commit(l, r, now);
    CommitKeepsValid(l, r, now);
    assert l'.events[|l.events|] == NewEvent(r, SeqFor(l, r), now);
    FindUnique(l'.events, |l.events|);
  }
}
