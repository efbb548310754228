/** The server as the delivery adapters see it, and the pages they fetch from it. */
module DeliveryServer {
  import opened Options

  /** What distinguishes the replies of one agent to one request: nothing, or a work status and a retry count. */
  datatype Suffix = Plain | Attempt(status: string, retries: nat)

  /** An event id: chosen by its sender, or the name-based id of an agent's reply to a request. */
  datatype Id = Given(text: string) | ReplyId(request: Id, agent: string, suffix: Suffix)

  /** auto marks what an adapter posts itself. */
  datatype Event = Event(id: nat, eventId: Id, source: string, target: string, inReplyTo: Option<Id>, auto: bool)

  datatype AckType = Received | Applied

  /** Events in the order of their growing ids, and one agent's acks. */
  datatype Server = Server(events: seq<Event>, acks: set<(Id, AckType)>)

  const PAGE := 100

  predicate ForAgent(e: Event, agent: string) { e.target == agent || e.target == "*" }

  predicate IsApplied(s: Server, eventId: Id) { (eventId, Applied) in s.acks }

  predicate Wanted(s: Server, agent: string, since: nat, e: Event) {
    ForAgent(e, agent) && e.id > since && !IsApplied(s, e.eventId)
  }

  predicate Rising(es: seq<Event>) { forall i, j :: 0 <= i < j < |es| ==> es[i].id < es[j].id }

  predicate UniqueIds(es: seq<Event>) { forall i, j :: 0 <= i < j < |es| ==> es[i].eventId != es[j].eventId }

  predicate HasId(es: seq<Event>, eventId: Id) { exists i :: 0 <= i < |es| && es[i].eventId == eventId }

  /** The first unapplied events beyond the cursor, at most a page of them. */
  function Select(s: Server, agent: string, since: nat, from: nat, limit: nat): seq<Event>
    requires from <= |s.events|
    decreases |s.events| - from
  {
    if from == |s.events| || limit == 0 then []
    else if Wanted(s, agent, since, s.events[from]) then [s.events[from]] + Select(s, agent, since, from + 1, limit - 1)
    else Select(s, agent, since, from + 1, limit)
  }

  function Fetch(s: Server, agent: string, since: nat): seq<Event> { Select(s, agent, since, 0, PAGE) }

  /** Every event of the agent between the cursor and the end of the page is on the page or already applied. */
  predicate Covers(s: Server, agent: string, since: nat, page: seq<Event>) {
    page != [] ==>
      forall i :: 0 <= i < |s.events| ==>
        var e := s.events[i];
        ForAgent(e, agent) && since < e.id <= page[|page| - 1].id ==> e in page || IsApplied(s, e.eventId)
  }

  function IdsOf(es: seq<Event>): set<Id> { set e | e in es :: e.eventId }

  predicate OnServer(s: Server, page: seq<Event>) { forall e :: e in page ==> e in s.events }

  lemma {:induction false} SelectFrom(s: Server, agent: string, since: nat, from: nat, limit: nat, x: Event)
    requires from <= |s.events| && x in Select(s, agent, since, from, limit)
    ensures since < x.id && ForAgent(x, agent) && exists i :: from <= i < |s.events| && s.events[i] == x
    decreases |s.events| - from
  {
    if Wanted(s, agent, since, s.events[from]) {
      if x != s.events[from] { SelectFrom(s, agent, since, from + 1, limit - 1, x); }
    } else {
      SelectFrom(s, agent, since, from + 1, limit, x);
    }
  }

  lemma {:induction false} SelectRising(s: Server, agent: string, since: nat, from: nat, limit: nat)
    requires from <= |s.events| && Rising(s.events)
    ensures Rising(Select(s, agent, since, from, limit))
    decreases |s.events| - from
  {
    if from < |s.events| && limit > 0 {
      if Wanted(s, agent, since, s.events[from]) {
        var rest := Select(s, agent, since, from + 1, limit - 1);
        SelectRising(s, agent, since, from + 1, limit - 1);
        forall k | 0 <= k < |rest| ensures s.events[from].id < rest[k].id {
          SelectFrom(s, agent, since, from + 1, limit - 1, rest[k]);
        }
      } else {
        SelectRising(s, agent, since, from + 1, limit);
      }
    }
  }

  lemma {:induction false} SelectSkipsNone(s: Server, agent: string, since: nat, from: nat, limit: nat, i: nat)
    requires from <= i < |s.events| && Rising(s.events) && ForAgent(s.events[i], agent) && since < s.events[i].id
    requires var page := Select(s, agent, since, from, limit); page != [] && s.events[i].id <= page[|page| - 1].id
    ensures s.events[i] in Select(s, agent, since, from, limit) || IsApplied(s, s.events[i].eventId)
    decreases |s.events| - from
  {
    if Wanted(s, agent, since, s.events[from]) {
      var rest := Select(s, agent, since, from + 1, limit - 1);
      if i > from {
        assert rest != [];
        SelectSkipsNone(s, agent, since, from + 1, limit - 1, i);
      }
    } else if i > from {
      SelectSkipsNone(s, agent, since, from + 1, limit, i);
    }
  }

  /** A page is in id order, unapplied when fetched, and leaves out nothing it passes over. */
  lemma FetchCovers(s: Server, agent: string, since: nat)
    requires Rising(s.events)
    ensures var page := Fetch(s, agent, since);
            Rising(page) && OnServer(s, page) && Covers(s, agent, since, page)
            && forall e :: e in page ==> since < e.id && ForAgent(e, agent)
  {
    var page := Fetch(s, agent, since);
    SelectRising(s, agent, since, 0, PAGE);
    forall e | e in page ensures since < e.id && ForAgent(e, agent) && e in s.events {
      SelectFrom(s, agent, since, 0, PAGE, e);
    }
    if page != [] {
      forall i | 0 <= i < |s.events| && ForAgent(s.events[i], agent) && since < s.events[i].id <= page[|page| - 1].id
        ensures s.events[i] in page || IsApplied(s, s.events[i].eventId)
      {
        SelectSkipsNone(s, agent, since, 0, PAGE, i);
      }
    }
  }

  /** The agent's events beyond the cursor, from this position on, that it has not acked as applied. */
  function Outstanding(s: Server, agent: string, since: nat, from: nat): set<nat> {
    set i | from <= i < |s.events| && (s.events[i].target == agent || s.events[i].target == "*") && s.events[i].id > since
            && (s.events[i].eventId, Applied) !in s.acks
  }

  lemma {:induction false} SelectExactly(s: Server, agent: string, since: nat, from: nat, limit: nat)
    requires from <= |s.events|
    ensures var page, n := Select(s, agent, since, from, limit), |Outstanding(s, agent, since, from)|;
            && |page| == (if n < limit then n else limit)
            && (forall e :: e in page ==> exists i :: i in Outstanding(s, agent, since, from) && s.events[i] == e)
            && (|page| < limit ==> forall i :: i in Outstanding(s, agent, since, from) ==> s.events[i] in page)
    decreases |s.events| - from
  {
    if from == |s.events| {
      assert Outstanding(s, agent, since, from) == {};
    } else {
      OutstandingNext(s, agent, since, from);
      hide Outstanding, Wanted;
      if limit > 0 {
        SelectExactly(s, agent, since, from + 1, if Wanted(s, agent, since, s.events[from]) then limit - 1 else limit);
      }
    }
  }

  lemma OutstandingNext(s: Server, agent: string, since: nat, from: nat)
    requires from < |s.events|
    ensures var rest := Outstanding(s, agent, since, from + 1);
            && Outstanding(s, agent, since, from) == (if Wanted(s, agent, since, s.events[from]) then rest + {from} else rest)
            && from !in rest
  {
  }

  /** A page is the first events, at most a page of them and all when they are fewer, that are addressed to the agent or to
      everybody, lie beyond the cursor and are not acked as applied. */
  lemma FetchExactly(s: Server, agent: string, since: nat)
    requires Rising(s.events)
    ensures var page, n := Fetch(s, agent, since), |Outstanding(s, agent, since, 0)|;
            && Rising(page) && |page| == (if n < 100 then n else 100)
            && (forall e :: e in page ==>
                  && e in s.events && (e.target == agent || e.target == "*") && e.id > since
                  && (e.eventId, Applied) !in s.acks)
            && (forall e :: e in s.events && (e.target == agent || e.target == "*") && e.id > since
                            && (e.eventId, Applied) !in s.acks ==>
                  e in page || (|page| == 100 && e.id > page[99].id))
  {
    var page := Fetch(s, agent, since);
    SelectExactly(s, agent, since, 0, PAGE);
    FetchCovers(s, agent, since);
    forall e | e in s.events && (e.target == agent || e.target == "*") && e.id > since && (e.eventId, Applied) !in s.acks
      ensures e in page || (|page| == 100 && e.id > page[99].id)
    {
      var i :| 0 <= i < |s.events| && s.events[i] == e;
      assert i in Outstanding(s, agent, since, 0);
    }
  }

  lemma FetchOne(e: Event, agent: string)
    requires ForAgent(e, agent) && e.id > 0
    ensures Fetch(Server([e], {}), agent, 0) == [e]
  {
    assert Select(Server([e], {}), agent, 0, 1, PAGE - 1) == [];
  }

  // ------------------------------------------------------------------- replies

  /** What an adapter posted itself. */
  predicate Own(e: Event, agent: string) { e.source == agent && e.auto }

  /** An adapter's own post answers the request its name-based id names. */
  predicate Named(e: Event, agent: string) {
    Own(e, agent) ==>
      e.eventId.ReplyId? && e.eventId.agent == agent && e.inReplyTo == Some(e.eventId.request)
  }

  predicate RepliesNamed(s: Server, agent: string) {
    forall i :: 0 <= i < |s.events| ==> Named(s.events[i], agent)
  }

  predicate ServerOk(s: Server, agent: string) {
    Rising(s.events) && UniqueIds(s.events) && RepliesNamed(s, agent)
  }

  function NextId(s: Server): nat { if s.events == [] then 1 else s.events[|s.events| - 1].id + 1 }

  /** Posting is idempotent by event id: a repeated or taken id adds nothing. */
  function Post(s: Server, e: Event): Server {
    if HasId(s.events, e.eventId) then s else s.(events := s.events + [e.(id := NextId(s))])
  }

  function ReplyTo(request: Event, agent: string, suffix: Suffix, auto: bool): Event {
    Event(0, ReplyId(request.eventId, agent, suffix), agent, request.source, Some(request.eventId), auto)
  }

  /** The reply to this request is on the server: nothing else if its id was taken, and otherwise one event from the agent
      to the sender of the request. */
  predicate RepliedTo(s: Server, s': Server, request: Event, agent: string, suffix: Suffix, auto: bool) {
    var eventId := ReplyId(request.eventId, agent, suffix);
    if exists i :: 0 <= i < |s.events| && s.events[i].eventId == eventId then s'.events == s.events
    else
      && |s'.events| == |s.events| + 1 && s'.events[..|s.events|] == s.events
      && var e := s'.events[|s.events|];
         && e.eventId == eventId && e.source == agent && e.target == request.source
         && e.inReplyTo == Some(request.eventId) && e.auto == auto
         && e.id > (if |s.events| == 0 then 0 else s.events[|s.events| - 1].id)
  }

  predicate Keeps(s: Server, s': Server) { s.events <= s'.events && s.acks <= s'.acks }

  lemma PostHas(s: Server, e: Event)
    ensures HasId(Post(s, e).events, e.eventId)
  {
    if !HasId(s.events, e.eventId) { assert Post(s, e).events[|s.events|].eventId == e.eventId; }
  }

  lemma PostedIs(s: Server, request: Event, agent: string, x: Suffix, auto: bool)
    ensures var s' := Post(s, ReplyTo(request, agent, x, auto));
            Keeps(s, s') && s'.acks == s.acks && RepliedTo(s, s', request, agent, x, auto) && HasId(s'.events, ReplyId(request.eventId, agent, x))
  {
    PostHas(s, ReplyTo(request, agent, x, auto));
  }

  function AddAck(s: Server, eventId: Id, t: AckType): Server { s.(acks := s.acks + {(eventId, t)}) }

  /** A server only gains events with larger ids, and acks. */
  predicate ServerGrows(s: Server, s': Server) {
    && s.events <= s'.events && s.acks <= s'.acks
    && forall i :: |s.events| <= i < |s'.events| ==> s'.events[i].id >= NextId(s)
  }

  lemma PostGrows(s: Server, agent: string, e: Event)
    requires ServerOk(s, agent) && Named(e, agent)
    ensures ServerOk(Post(s, e), agent) && ServerGrows(s, Post(s, e))
  {
  }

  lemma LastGrows(s: Server, s': Server)
    requires Rising(s.events) && Rising(s'.events) && s.events <= s'.events
    ensures NextId(s) <= NextId(s')
  {
    if s.events != [] {
      assert s'.events[|s.events| - 1] == s.events[|s.events| - 1];
    }
  }

  /** Pages keep covering what they did while the server grows. */
  lemma CoversStays(s: Server, s': Server, agent: string, since: nat, page: seq<Event>)
    requires Rising(s.events) && OnServer(s, page) && Covers(s, agent, since, page) && ServerGrows(s, s')
    ensures OnServer(s', page) && Covers(s', agent, since, page)
  {
    forall e | e in page ensures e in s'.events {
      var i :| 0 <= i < |s.events| && s.events[i] == e;
      assert s'.events[i] == e;
    }
    if page != [] {
      var last := page[|page| - 1];
      assert last in page;
      var k :| 0 <= k < |s.events| && s.events[k] == last;
      forall i | 0 <= i < |s'.events| && ForAgent(s'.events[i], agent) && since < s'.events[i].id <= last.id
        ensures s'.events[i] in page || IsApplied(s', s'.events[i].eventId)
      {
        if i < |s.events| { assert s.events[i] == s'.events[i]; }
      }
    }
  }

  /** Past the first event of a page, the rest still covers what follows it. */
  lemma CoversRest(s: Server, agent: string, since: nat, page: seq<Event>)
    requires page != [] && Rising(page) && since < page[0].id && Covers(s, agent, since, page)
    ensures Covers(s, agent, page[0].id, page[1..])
  {
    if |page| > 1 {
      var rest := page[1..];
      assert rest[|rest| - 1] == page[|page| - 1];
      forall i | 0 <= i < |s.events| && ForAgent(s.events[i], agent) && page[0].id < s.events[i].id <= rest[|rest| - 1].id
        ensures s.events[i] in rest || IsApplied(s, s.events[i].eventId)
      {
        if s.events[i] in page {
          var k :| 0 <= k < |page| && page[k] == s.events[i];
          assert k > 0 && rest[k - 1] == s.events[i];
        }
      }
    }
  }
}
