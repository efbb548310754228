/** The SQLite backend: the tables as fields, and the write path as one locked transaction that
    restores what it touched when a constraint fails. */
module SqliteStore {
  import opened Options
  import opened Ledger

  class AtalkStore {
    var events: seq<Event>
    var counters: map<string, int>
    var audit: seq<Audit>
    var tokens: seq<Token>
    var grants: seq<Grant>
    var acl: map<string, set<string>>

    constructor ()
      ensures View() == Ledger([], map[], [], [], [], map[]) && Valid(View())
    {
      events, counters, audit := [], map[], [];
      tokens, grants, acl := [], [], map[];
    }

    function View(): Ledger
      reads this
    {
      Ledger(events, counters, audit, tokens, grants, acl)
    }

    /** Bumps the counter in place and returns the new value. */
    method TakeSeq(source: string) returns (n: int)
      modifies this`counters
      ensures n == NextSeq(old(counters), source) && counters == old(counters)[source := n]
    {
      if source in counters {
        counters := counters[source := counters[source] + 1];
      } else {
        counters := counters[source := 1];
      }
      n := counters[source];
    }

    method AppendAudit(row: Audit)
      modifies this`audit
      ensures audit == old(audit) + [row]
    {
      audit := audit + [row];
    }

    /** The whole write in one immediate transaction. */
    method InsertEvent(r: Request, now: nat) returns (o: Outcome)
      modifies this
      ensures (View(), o) == Insert(old(View()), r, now)
      ensures old(Valid(View())) ==> Valid(View()) && old(events) <= events
      ensures old(Valid(View())) ==> Answers(old(View()), r, now, o) && Effects(old(View()), r, now, o, View())
    {
      hide UniqueEvents, AuditMatches, ActorsAreSources, CountersBound, Answers, Effects;
      ghost var l := View();
      if Valid(l) {
        InsertKeepsValid(l, r, now);
        InsertAnswers(l, r, now);
      }
      if IsCommand(r) && !HasSourceRef(r) {
        AppendAudit(RejectRow(r, "missing_source_ref"));
        return Refused("missing_source_ref");
      }
      // BEGIN IMMEDIATE
      var savedCounters := counters;
      if HasId(events, r.eventId) {
        return Identified(Find(events, r.eventId), r);
      }
      if IsCommand(r) {
        if !ValidToken(View(), r.source, r.token, now) {
          AppendAudit(RejectRow(r, "invalid_token"));
          return Refused("invalid_token");
        }
        if !CommandAllowed(View(), r, now) {
          AppendAudit(RejectRow(r, "grant_denied"));
          return Refused("grant_denied");
        }
      } else if !AclAllows(View(), r.source, r.target) {
        return Refused("target not allowed");
      }
      var n;
      if r.seqNo.Some? {
        n := r.seqNo.value;
      } else {
        n := TakeSeq(r.source);
      }
      if HasSeq(events, r.source, n) {
        counters := savedCounters;  // ROLLBACK
        return SeqConflict;
      }
      var e := NewEvent(r, n, now);
      events := events + [e];
      counters := Raised(counters, r.source, n);
      if IsCommand(r) {
        AppendAudit(AcceptRow(r));
      }
      assert counters == Raised(savedCounters, r.source, n);
      return Stored(e);
    }
  }
}
