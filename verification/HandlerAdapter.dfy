/** The handler adapter: ack received, run the handler, ack what it applied, move the cursor. */
module HandlerAdapter {
  import opened Options
  import opened DeliveryServer
  import opened Traces

  datatype Stage = ToReceive | ToHandle | ToApply(ids: seq<Id>)

  datatype Worker = Idle | Working(page: seq<Event>, stage: Stage)

  /** server, cursor and handled survive a crash; the worker does not. handled records completed handler calls. */
  datatype State = State(server: Server, cursor: nat, handled: set<Id>, worker: Worker)

  datatype Action =
    | FetchPage
    | AckReceived
    | HandlerReplies(suffix: Suffix)
    | HandlerReturns(applied: Option<seq<Id>>)
    | HandlerRaises
    | AckApplied
    | Advance
    | RetryReplies(request: Event, suffix: Suffix)
    | Crash
    | Others(e: Event)
    | OthersAck(eventId: Id, t: AckType)

  function Max(a: nat, b: nat): nat { if a > b then a else b }

  predicate Busy(s: State) { s.worker.Working? && s.worker.page != [] }

  predicate Enabled(s: State, agent: string, a: Action) {
    match a
    case FetchPage => s.worker.Idle?
    case AckReceived => Busy(s) && s.worker.stage.ToReceive?
    case HandlerReplies(_) => Busy(s) && s.worker.stage.ToHandle?
    case HandlerReturns(_) => Busy(s) && s.worker.stage.ToHandle?
    case HandlerRaises => Busy(s) && s.worker.stage.ToHandle?
    case AckApplied => Busy(s) && s.worker.stage.ToApply? && s.worker.stage.ids != []
    case Advance => Busy(s) && s.worker.stage.ToApply? && s.worker.stage.ids == []
    // The periodic retry answers an event that a handler call kept waiting, at any later time.
    case RetryReplies(request, _) => request in s.server.events
    case Crash => true
    case Others(e) => !Own(e, agent)
    case OthersAck(_, _) => true
  }

  function Next(s: State, agent: string, a: Action): State
    requires Enabled(s, agent, a)
  {
    match a
    case FetchPage =>
      var page := Fetch(s.server, agent, s.cursor);
      s.(worker := if page == [] then Idle else Working(page, ToReceive))
    case AckReceived =>
      s.(server := AddAck(s.server, s.worker.page[0].eventId, Received), worker := Working(s.worker.page, ToHandle))
    case HandlerReplies(suffix) => s.(server := Post(s.server, ReplyTo(s.worker.page[0], agent, suffix, true)))
    case HandlerReturns(applied) =>
      var e := s.worker.page[0];
      s.(handled := s.handled + {e.eventId},
         worker := Working(s.worker.page, ToApply(if applied.None? then [e.eventId] else applied.value)))
    case HandlerRaises =>
      s.(server := AddAck(s.server, s.worker.page[0].eventId, Received), worker := Idle)
    case AckApplied =>
      s.(server := AddAck(s.server, s.worker.stage.ids[0], Applied),
         worker := Working(s.worker.page, ToApply(s.worker.stage.ids[1..])))
    case Advance =>
      s.(cursor := Max(s.cursor, s.worker.page[0].id),
         worker := if |s.worker.page| == 1 then Idle else Working(s.worker.page[1..], ToReceive))
    case RetryReplies(request, suffix) => s.(server := Post(s.server, ReplyTo(request, agent, suffix, true)))
    case Crash => s.(worker := Idle)
    case Others(e) => s.(server := Post(s.server, e))
    case OthersAck(eventId, t) => s.(server := AddAck(s.server, eventId, t))
  }

  predicate IsInit(s: State) {
    s.server == Server([], {}) && s.cursor == 0 && s.handled == {} && s.worker == Idle
  }

  ghost function StepBy(agent: string): (State, Action, State) -> bool {
    (s, a, s') => Enabled(s, agent, a) && s' == Next(s, agent, a)
  }

  ghost predicate IsRun(ss: seq<State>, acts: seq<Action>, agent: string) {
    Chain(ss, acts, StepBy(agent)) && IsInit(ss[0])
  }

  lemma RunStep(ss: seq<State>, acts: seq<Action>, agent: string, i: nat)
    requires IsRun(ss, acts, agent) && i < |acts|
    ensures Enabled(ss[i], agent, acts[i]) && ss[i + 1] == Next(ss[i], agent, acts[i])
  {
    assert StepBy(agent)(ss[i], acts[i], ss[i + 1]);
  }

  // ------------------------------------------------------------------ invariant

  /** No event of the agent at or below the cursor is lost. */
  predicate NothingLost(s: State, agent: string) {
    forall i :: 0 <= i < |s.server.events| && ForAgent(s.server.events[i], agent) && s.server.events[i].id <= s.cursor ==>
      s.server.events[i].eventId in s.handled || IsApplied(s.server, s.server.events[i].eventId)
  }

  predicate PageOk(s: State, agent: string) {
    s.worker.Working? ==>
      && s.worker.page != [] && Rising(s.worker.page) && OnServer(s.server, s.worker.page)
      && s.cursor < s.worker.page[0].id && Covers(s.server, agent, s.cursor, s.worker.page)
      && (s.worker.stage.ToApply? ==> s.worker.page[0].eventId in s.handled)
  }

  /** The cursor never runs ahead of the ledger. */
  predicate CursorBehind(s: State) { s.cursor < NextId(s.server) }

  predicate Inv(s: State, agent: string) {
    ServerOk(s.server, agent) && NothingLost(s, agent) && PageOk(s, agent) && CursorBehind(s)
  }

  lemma ServerStepKeeps(s: State, agent: string, server: Server)
    requires Inv(s, agent) && ServerOk(server, agent) && ServerGrows(s.server, server)
    ensures Inv(s.(server := server), agent)
  {
    if s.worker.Working? {
      CoversStays(s.server, server, agent, s.cursor, s.worker.page);
    }
    forall i | 0 <= i < |server.events| && ForAgent(server.events[i], agent) && server.events[i].id <= s.cursor
      ensures server.events[i].eventId in s.handled || IsApplied(server, server.events[i].eventId)
    {
      if i < |s.server.events| { assert s.server.events[i] == server.events[i]; }
    }
    LastGrows(s.server, server);
  }

  /** Moving the cursor past a handled event loses nothing: what lies between was applied when the page was fetched. */
  lemma AdvanceKeeps(s: State, agent: string)
    requires Inv(s, agent) && Enabled(s, agent, Advance)
    ensures Inv(Next(s, agent, Advance), agent)
  {
    var s', page := Next(s, agent, Advance), s.worker.page;
    CoversRest(s.server, agent, s.cursor, page);
    forall i | 0 <= i < |s.server.events| && ForAgent(s.server.events[i], agent) && s.server.events[i].id <= page[0].id
      ensures s.server.events[i].eventId in s.handled || IsApplied(s.server, s.server.events[i].eventId)
    {
      var e := s.server.events[i];
      if e.id > s.cursor && e in page {
        var k :| 0 <= k < |page| && page[k] == e;
        assert k == 0;
      }
    }
    assert page[0] in page;
    var k :| 0 <= k < |s.server.events| && s.server.events[k] == page[0];
    assert s.server.events[k].id <= s.server.events[|s.server.events| - 1].id;
  }

  lemma StepKeepsInv(s: State, agent: string, a: Action)
    requires Inv(s, agent) && Enabled(s, agent, a)
    ensures Inv(Next(s, agent, a), agent)
  {
    match a
    case FetchPage =>
      FetchCovers(s.server, agent, s.cursor);
      var page := Fetch(s.server, agent, s.cursor);
      assert page != [] ==> page[0] in page;
    case AckReceived => ServerStepKeeps(s, agent, Next(s, agent, a).server);
    case HandlerReplies(suffix) =>
      PostGrows(s.server, agent, ReplyTo(s.worker.page[0], agent, suffix, true));
      ServerStepKeeps(s, agent, Next(s, agent, a).server);
    case HandlerReturns(_) =>
    case HandlerRaises => ServerStepKeeps(s, agent, Next(s, agent, a).server);
    case AckApplied => ServerStepKeeps(s, agent, Next(s, agent, a).server);
    case Advance => AdvanceKeeps(s, agent);
    case RetryReplies(request, suffix) =>
      PostGrows(s.server, agent, ReplyTo(request, agent, suffix, true));
      ServerStepKeeps(s, agent, Next(s, agent, a).server);
    case Crash =>
    case Others(e) =>
      PostGrows(s.server, agent, e);
      ServerStepKeeps(s, agent, Next(s, agent, a).server);
    case OthersAck(_, _) => ServerStepKeeps(s, agent, Next(s, agent, a).server);
  }

  lemma {:induction false} RunInv(ss: seq<State>, acts: seq<Action>, agent: string, i: nat)
    requires IsRun(ss, acts, agent) && i < |ss|
    ensures Inv(ss[i], agent)
    decreases i
  {
    if i > 0 {
      RunInv(ss, acts, agent, i - 1);
      RunStep(ss, acts, agent, i - 1);
      StepKeepsInv(ss[i - 1], agent, acts[i - 1]);
    }
  }

  /** Across crashes at any point, what lies at or below the persisted cursor was handled or already applied. */
  lemma CrashSafeDelivery(ss: seq<State>, acts: seq<Action>, agent: string, i: nat)
    requires IsRun(ss, acts, agent) && i < |ss|
    ensures NothingLost(ss[i], agent)
  {
    RunInv(ss, acts, agent, i);
  }

  // -------------------------------------------------------------------- replies

  /** Event p is the adapter's reply to this request. */
  predicate IsReply(s: Server, agent: string, r: Id, p: int) {
    0 <= p < |s.events| && Own(s.events[p], agent) && s.events[p].inReplyTo == Some(r)
  }

  ghost predicate HasReply(s: Server, agent: string, r: Id, x: Suffix) {
    exists p :: IsReply(s, agent, r, p) && s.events[p].eventId == ReplyId(r, agent, x)
  }

  /** Somebody else's event already has this id. */
  ghost predicate Taken(s: Server, agent: string, eventId: Id) {
    exists p :: 0 <= p < |s.events| && s.events[p].eventId == eventId && !Own(s.events[p], agent)
  }

  /** The step is a handler call or a retry that replies to this request under this suffix. */
  predicate Answers(s: State, a: Action, r: Id, x: Suffix) {
    || (a.HandlerReplies? && Busy(s) && s.worker.page[0].eventId == r && a.suffix == x)
    || (a.RetryReplies? && a.request.eventId == r && a.suffix == x)
  }

  ghost predicate Answered(ss: seq<State>, acts: seq<Action>, i: nat, r: Id, x: Suffix)
    requires i <= |acts| <= |ss|
  {
    exists j :: 0 <= j < i && Answers(ss[j], acts[j], r, x)
  }

  lemma PostAdds(s: Server, e: Event, p: int)
    requires 0 <= p < |Post(s, e).events|
    ensures p < |s.events| ==> Post(s, e).events[p] == s.events[p]
    ensures p >= |s.events| ==> Post(s, e).events[p] == e.(id := NextId(s))
  {
  }

  /** A reply that a step adds is the one the step answers with. */
  lemma NewReplyAnswers(s: State, agent: string, a: Action, r: Id, x: Suffix)
    requires Enabled(s, agent, a) && HasReply(Next(s, agent, a).server, agent, r, x) && !HasReply(s.server, agent, r, x)
    ensures Answers(s, a, r, x)
  {
    var s' := Next(s, agent, a).server;
    var p :| IsReply(s', agent, r, p) && s'.events[p].eventId == ReplyId(r, agent, x);
    assert p < |s.server.events| && s'.events[p] == s.server.events[p] ==> IsReply(s.server, agent, r, p);
    match a
    case HandlerReplies(suffix) => PostAdds(s.server, ReplyTo(s.worker.page[0], agent, suffix, true), p);
    case RetryReplies(request, suffix) => PostAdds(s.server, ReplyTo(request, agent, suffix, true), p);
    case Others(e) => PostAdds(s.server, e, p);
    case _ =>
  }

  lemma {:induction false} ReplyWasAnswered(ss: seq<State>, acts: seq<Action>, agent: string, i: nat, r: Id, x: Suffix)
    requires IsRun(ss, acts, agent) && i < |ss| && HasReply(ss[i].server, agent, r, x)
    ensures Answered(ss, acts, i, r, x)
    decreases i
  {
    if i > 0 {
      if HasReply(ss[i - 1].server, agent, r, x) {
        ReplyWasAnswered(ss, acts, agent, i - 1, r, x);
        var j :| 0 <= j < i - 1 && Answers(ss[j], acts[j], r, x);
        assert 0 <= j < i;
      } else {
        RunStep(ss, acts, agent, i - 1);
        NewReplyAnswers(ss[i - 1], agent, acts[i - 1], r, x);
      }
    }
  }

  lemma StepKeepsIds(s: State, agent: string, a: Action, eventId: Id)
    requires Enabled(s, agent, a) && HasId(s.server.events, eventId)
    ensures HasId(Next(s, agent, a).server.events, eventId)
  {
    var p :| 0 <= p < |s.server.events| && s.server.events[p].eventId == eventId;
    assert Next(s, agent, a).server.events[p] == s.server.events[p];
  }

  lemma {:induction false} AnsweredHasId(ss: seq<State>, acts: seq<Action>, agent: string, j: nat, i: nat, r: Id, x: Suffix)
    requires IsRun(ss, acts, agent) && j < i < |ss| && Answers(ss[j], acts[j], r, x)
    ensures HasId(ss[i].server.events, ReplyId(r, agent, x))
    decreases i
  {
    RunStep(ss, acts, agent, j);
    if i == j + 1 {
      if acts[j].HandlerReplies? {
        PostHas(ss[j].server, ReplyTo(ss[j].worker.page[0], agent, x, true));
      } else {
        PostHas(ss[j].server, ReplyTo(acts[j].request, agent, x, true));
      }
    } else {
      AnsweredHasId(ss, acts, agent, j, i - 1, r, x);
      RunStep(ss, acts, agent, i - 1);
      StepKeepsIds(ss[i - 1], agent, acts[i - 1], ReplyId(r, agent, x));
    }
  }

  lemma IdIsReplyOrTaken(s: Server, agent: string, r: Id, x: Suffix)
    requires ServerOk(s, agent) && HasId(s.events, ReplyId(r, agent, x))
    ensures HasReply(s, agent, r, x) <==> !Taken(s, agent, ReplyId(r, agent, x))
  {
    var p :| 0 <= p < |s.events| && s.events[p].eventId == ReplyId(r, agent, x);
    assert Named(s.events[p], agent);
    if Own(s.events[p], agent) { assert IsReply(s, agent, r, p); }
  }

  /** A reply under a suffix exists exactly when some call answered with it and nobody else holds its id. */
  lemma ReplyExactly(ss: seq<State>, acts: seq<Action>, agent: string, i: nat, r: Id, x: Suffix)
    requires IsRun(ss, acts, agent) && i < |ss|
    ensures HasReply(ss[i].server, agent, r, x) <==> Answered(ss, acts, i, r, x) && !Taken(ss[i].server, agent, ReplyId(r, agent, x))
  {
    RunInv(ss, acts, agent, i);
    if HasReply(ss[i].server, agent, r, x) {
      ReplyWasAnswered(ss, acts, agent, i, r, x);
      IdIsReplyOrTaken(ss[i].server, agent, r, x);
    }
    if Answered(ss, acts, i, r, x) {
      var j :| 0 <= j < i && Answers(ss[j], acts[j], r, x);
      AnsweredHasId(ss, acts, agent, j, i, r, x);
      IdIsReplyOrTaken(ss[i].server, agent, r, x);
    }
  }

  /** Whatever crashes and repeats, one request has at most one reply per suffix. */
  lemma OneReplyPerSuffix(ss: seq<State>, acts: seq<Action>, agent: string, i: nat, r: Id, p: nat, q: nat)
    requires IsRun(ss, acts, agent) && i < |ss|
    requires IsReply(ss[i].server, agent, r, p) && IsReply(ss[i].server, agent, r, q)
    ensures ss[i].server.events[p].eventId.ReplyId? && ss[i].server.events[q].eventId.ReplyId?
    ensures ss[i].server.events[p].eventId.suffix == ss[i].server.events[q].eventId.suffix ==> p == q
  {
    RunInv(ss, acts, agent, i);
    assert Named(ss[i].server.events[p], agent) && Named(ss[i].server.events[q], agent);
  }

  /** The calls that answered this request and whose id is the adapter's agree on the suffix. */
  ghost predicate OneSuffix(ss: seq<State>, acts: seq<Action>, agent: string, i: nat, r: Id)
    requires i <= |acts| <= |ss| && i < |ss|
  {
    forall x, y ::
      && Answered(ss, acts, i, r, x) && !Taken(ss[i].server, agent, ReplyId(r, agent, x))
      && Answered(ss, acts, i, r, y) && !Taken(ss[i].server, agent, ReplyId(r, agent, y))
      ==> x == y
  }

  /** A request has at most one reply exactly when the suffix did not vary between the calls that answered it. */
  lemma OneReplyExactly(ss: seq<State>, acts: seq<Action>, agent: string, i: nat, r: Id)
    requires IsRun(ss, acts, agent) && i < |ss|
    ensures (forall p, q :: IsReply(ss[i].server, agent, r, p) && IsReply(ss[i].server, agent, r, q) ==> p == q)
            <==> OneSuffix(ss, acts, agent, i, r)
  {
    var s := ss[i].server;
    if OneSuffix(ss, acts, agent, i, r) {
      forall p, q | IsReply(s, agent, r, p) && IsReply(s, agent, r, q) ensures p == q {
        OneReplyPerSuffix(ss, acts, agent, i, r, p, q);
        RunInv(ss, acts, agent, i);
        assert Named(s.events[p], agent) && Named(s.events[q], agent);
        ReplyExactly(ss, acts, agent, i, r, s.events[p].eventId.suffix);
        ReplyExactly(ss, acts, agent, i, r, s.events[q].eventId.suffix);
      }
    }
    if forall p, q :: IsReply(s, agent, r, p) && IsReply(s, agent, r, q) ==> p == q {
      forall x, y | && Answered(ss, acts, i, r, x) && !Taken(s, agent, ReplyId(r, agent, x))
                    && Answered(ss, acts, i, r, y) && !Taken(s, agent, ReplyId(r, agent, y))
        ensures x == y
      {
        ReplyExactly(ss, acts, agent, i, r, x);
        ReplyExactly(ss, acts, agent, i, r, y);
        var p :| IsReply(s, agent, r, p) && s.events[p].eventId == ReplyId(r, agent, x);
        var q :| IsReply(s, agent, r, q) && s.events[q].eventId == ReplyId(r, agent, y);
        assert p == q;
      }
    }
  }

  /** The handlers that name a reply by its request alone never reply twice. */
  lemma PlainHandlersReplyOnce(ss: seq<State>, acts: seq<Action>, agent: string, i: nat, r: Id, p: nat, q: nat)
    requires IsRun(ss, acts, agent) && i < |ss|
    requires forall j, x :: 0 <= j < i && Answers(ss[j], acts[j], r, x) ==> x == Plain
    requires IsReply(ss[i].server, agent, r, p) && IsReply(ss[i].server, agent, r, q)
    ensures p == q
  {
    assert OneSuffix(ss, acts, agent, i, r);
    OneReplyExactly(ss, acts, agent, i, r);
  }

  /** A run that ends in this state. */
  ghost predicate Reaches(ss: seq<State>, acts: seq<Action>, agent: string, s: State) {
    IsRun(ss, acts, agent) && ss[|acts|] == s
  }

  lemma RunExtends(ss: seq<State>, acts: seq<Action>, agent: string, s: State, a: Action, s': State)
    requires Reaches(ss, acts, agent, s) && Enabled(s, agent, a) && s' == Next(s, agent, a)
    ensures Reaches(ss + [s'], acts + [a], agent, s')
  {
    ChainExtends(ss, acts, StepBy(agent), a, s');
  }

  /** A handler call that keeps the first request waiting, up to the cursor behind it. */
  lemma KeptWaiting(agent: string, e: Event) returns (ss: seq<State>, acts: seq<Action>, s: State)
    requires e == Event(1, Given("request"), "sender", agent, None, false)
    ensures Reaches(ss, acts, agent, s)
    ensures s.server.events == [e, ReplyTo(e, agent, Attempt("waiting", 0), true).(id := 2)]
  {
    s := State(Server([], {}), 0, {}, Idle);
    ss, acts := [s], [];
    var t := s.(server := Server([e], {}));
    assert [] + [e] == [e] && Next(s, agent, Others(e)) == t;
    RunExtends(ss, acts, agent, s, Others(e), t);
    ss, acts, s := ss + [t], acts + [Others(e)], t;
    FetchOne(e, agent);
    t := s.(worker := Working([e], ToReceive));
    RunExtends(ss, acts, agent, s, FetchPage, t);
    ss, acts, s := ss + [t], acts + [FetchPage], t;
    t := Next(s, agent, AckReceived);
    RunExtends(ss, acts, agent, s, AckReceived, t);
    ss, acts, s := ss + [t], acts + [AckReceived], t;
    var a, first := HandlerReplies(Attempt("waiting", 0)), ReplyTo(e, agent, Attempt("waiting", 0), true).(id := 2);
    t := Next(s, agent, a);
    assert !HasId([e], first.eventId) && [e] + [first] == [e, first];
    assert t.server.events == [e, first];
    RunExtends(ss, acts, agent, s, a, t);
    ss, acts, s := ss + [t], acts + [a], t;
    t := Next(s, agent, HandlerReturns(Some([])));
    RunExtends(ss, acts, agent, s, HandlerReturns(Some([])), t);
    ss, acts, s := ss + [t], acts + [HandlerReturns(Some([]))], t;
    t := Next(s, agent, Advance);
    RunExtends(ss, acts, agent, s, Advance, t);
    ss, acts, s := ss + [t], acts + [Advance], t;
  }

  /** A request that is first kept waiting and then completed by a retry has two replies. */
  lemma WaitingThenComplete(agent: string) returns (ss: seq<State>, acts: seq<Action>, s: State, r: Id)
    ensures Reaches(ss, acts, agent, s)
    ensures IsReply(s.server, agent, r, 1) && IsReply(s.server, agent, r, 2)
  {
    r := Given("request");
    var e := Event(1, r, "sender", agent, None, false);
    ss, acts, s := KeptWaiting(agent, e);
    var a := RetryReplies(e, Attempt("complete", 1));
    var t := Next(s, agent, a);
    assert !HasId(s.server.events, ReplyTo(e, agent, Attempt("complete", 1), true).eventId);
    assert t.server.events[..2] == s.server.events && |t.server.events| == 3;
    RunExtends(ss, acts, agent, s, a, t);
    ss, acts, s := ss + [t], acts + [a], t;
  }

  // ------------------------------------------------------------------- the code

  /** What a handler call does: the suffix it replies under if it does, and whether it raises or returns. */
  datatype Outcome = Outcome(reply: Option<Suffix>, raises: bool, applied: Option<seq<Id>>)

  /** What a call that returns has applied: the event itself, or what the call names. */
  function AppliedBy(event: Event, o: Outcome): seq<Id> { if o.applied.None? then [event.eventId] else o.applied.value }

  lemma IdStays(s: Server, s': Server, eventId: Id)
    requires Keeps(s, s') && HasId(s.events, eventId)
    ensures HasId(s'.events, eventId)
  {
    var i :| 0 <= i < |s.events| && s.events[i].eventId == eventId;
    assert s'.events[i].eventId == eventId;
  }

  /** The first events of the page are received and their calls' replies and acks are on the server; a call that raised left
      its own event received. */
  predicate RoundDone(s: Server, agent: string, page: seq<Event>, outcomes: seq<Outcome>, processed: nat, raised: bool)
    requires processed <= |page| <= |outcomes|
  {
    forall i :: 0 <= i < |page| && (i < processed || (raised && i == processed)) ==>
      && (page[i].eventId, Received) in s.acks && outcomes[i].raises == (i == processed)
      && (outcomes[i].reply.Some? ==> HasId(s.events, ReplyId(page[i].eventId, agent, outcomes[i].reply.value)))
      && (i < processed ==> forall id :: id in AppliedBy(page[i], outcomes[i]) ==> (id, Applied) in s.acks)
  }

  lemma RoundStays(s: Server, s': Server, agent: string, page: seq<Event>, outcomes: seq<Outcome>, processed: nat)
    requires processed <= |page| <= |outcomes| && RoundDone(s, agent, page, outcomes, processed, false) && Keeps(s, s')
    ensures RoundDone(s', agent, page, outcomes, processed, false)
  {
    forall i | 0 <= i < processed && outcomes[i].reply.Some?
      ensures HasId(s'.events, ReplyId(page[i].eventId, agent, outcomes[i].reply.value))
    {
      IdStays(s, s', ReplyId(page[i].eventId, agent, outcomes[i].reply.value));
    }
  }

  lemma RoundNext(s: Server, s': Server, agent: string, page: seq<Event>, outcomes: seq<Outcome>, n: nat)
    requires n < |page| <= |outcomes| && RoundDone(s, agent, page, outcomes, n, false) && Keeps(s, s')
    requires (page[n].eventId, Received) in s'.acks
    requires outcomes[n].reply.Some? ==> HasId(s'.events, ReplyId(page[n].eventId, agent, outcomes[n].reply.value))
    requires !outcomes[n].raises ==> forall id :: id in AppliedBy(page[n], outcomes[n]) ==> (id, Applied) in s'.acks
    ensures if outcomes[n].raises then RoundDone(s', agent, page, outcomes, n, true) else RoundDone(s', agent, page, outcomes, n + 1, false)
  {
    RoundStays(s, s', agent, page, outcomes, n);
  }

  lemma RoundStarts(s: Server, agent: string, page: seq<Event>, outcomes: seq<Outcome>)
    requires |page| <= |outcomes|
    ensures RoundDone(s, agent, page, outcomes, 0, false) && IdsOf(page[..0]) == {}
  {
  }

  lemma IdsNext(page: seq<Event>, n: nat)
    requires n < |page|
    ensures IdsOf(page[..n + 1]) == IdsOf(page[..n]) + {page[n].eventId}
  {
    assert page[..n + 1] == page[..n] + [page[n]];
  }

  class Adapter {
    const agent: string
    var server: Server
    var since: nat
    /** What others write, in batches: one batch between two steps of the round. */
    var elsewhere: seq<seq<Action>>
    ghost var handled: set<Id>
    ghost var trace: seq<State>

    constructor (agent: string, server: Server, since: nat, elsewhere: seq<seq<Action>>)
      ensures this.agent == agent && this.server == server && this.since == since && handled == {}
      ensures this.elsewhere == elsewhere && trace == [Snapshot(Idle)] && At(Snapshot(Idle))
    {
      this.agent, this.server, this.since, this.elsewhere, handled := agent, server, since, elsewhere, {};
      trace := [State(server, since, {}, Idle)];
      new;
      assert Chain(trace, [], StepBy(agent));
    }

    ghost function Snapshot(worker: Worker): State
      reads this
    {
      State(server, since, handled, worker)
    }

    /** The trace so far is a run of the machine and ends in this state. */
    ghost predicate At(s: State)
      reads this
    {
      Steps(trace, StepBy(agent)) && trace[|trace| - 1] == s
    }

    ghost method Log(s: State, a: Action)
      requires At(s) && Enabled(s, agent, a)
      modifies this`trace
      ensures At(Next(s, agent, a)) && old(trace) <= trace
    {
      StepsExtend(trace, StepBy(agent), a, Next(s, agent, a));
      trace := trace + [Next(s, agent, a)];
    }

    /** The writes of others that fall between two steps. */
    method Meanwhile(ghost worker: Worker)
      requires At(Snapshot(worker))
      modifies this`server, this`elsewhere, this`trace
      ensures At(Snapshot(worker)) && old(trace) <= trace
      ensures Keeps(old(server), server) && (old(elsewhere) == [] ==> elsewhere == [] && server == old(server))
    {
      if elsewhere == [] {
        return;
      }
      var batch := elsewhere[0];
      elsewhere := elsewhere[1..];
      for i := 0 to |batch|
        invariant At(Snapshot(worker)) && old(trace) <= trace && Keeps(old(server), server)
      {
        match batch[i] {
          case Others(e) =>
            if !Own(e, agent) {
              Log(Snapshot(worker), batch[i]);
              server := Post(server, e);
            }
          case OthersAck(eventId, t) =>
            Log(Snapshot(worker), batch[i]);
            Ack(eventId, t);
          case _ =>
        }
      }
    }

    method Ack(eventId: Id, t: AckType)
      modifies this`server
      ensures server == AddAck(old(server), eventId, t)
    {
      server := server.(acks := server.acks + {(eventId, t)});
    }

    method AckAll(ids: seq<Id>, ghost page: seq<Event>)
      requires page != [] && At(Snapshot(Working(page, ToApply(ids))))
      modifies this`server, this`elsewhere, this`trace
      ensures At(Snapshot(Working(page, ToApply([])))) && old(trace) <= trace
      ensures Keeps(old(server), server) && forall id :: id in ids ==> (id, Applied) in server.acks
      ensures old(elsewhere) == [] ==>
                && elsewhere == [] && server.events == old(server).events
                && forall id, t :: (id, t) in server.acks <==> (id, t) in old(server).acks || (t == Applied && id in ids)
    {
      assert ids[0..] == ids;
      for i := 0 to |ids|
        invariant At(Snapshot(Working(page, ToApply(ids[i..])))) && old(trace) <= trace
        invariant Keeps(old(server), server) && forall id :: id in ids[..i] ==> (id, Applied) in server.acks
        invariant old(elsewhere) == [] ==>
                    && elsewhere == [] && server.events == old(server).events
                    && forall id, t :: (id, t) in server.acks <==> (id, t) in old(server).acks || (t == Applied && id in ids[..i])
      {
        assert ids[..i + 1] == ids[..i] + [ids[i]];
        assert ids[i..][1..] == ids[i + 1..] && ids[i..][0] == ids[i];
        Log(Snapshot(Working(page, ToApply(ids[i..]))), AckApplied);
        Ack(ids[i], Applied);
        Meanwhile(Working(page, ToApply(ids[i + 1..])));
      }
    }

    /** What a handler call posts, if it does. */
    method Reply(event: Event, reply: Option<Suffix>, ghost page: seq<Event>)
      requires page != [] && page[0] == event && At(Snapshot(Working(page, ToHandle)))
      modifies this`server, this`elsewhere, this`trace
      ensures At(Snapshot(Working(page, ToHandle))) && old(trace) <= trace && Keeps(old(server), server)
      ensures reply.Some? ==> HasId(server.events, ReplyId(event.eventId, agent, reply.value))
      ensures old(elsewhere) == [] ==>
                && elsewhere == [] && server.acks == old(server).acks
                && if reply.None? then server.events == old(server).events
                   else RepliedTo(old(server), server, event, agent, reply.value, true)
    {
      Meanwhile(Working(page, ToHandle));
      if reply.Some? {
        Log(Snapshot(Working(page, ToHandle)), HandlerReplies(reply.value));
        PostedIs(server, event, agent, reply.value, true);
        ghost var posted := Post(server, ReplyTo(event, agent, reply.value, true));
        server := Post(server, ReplyTo(event, agent, reply.value, true));
        Meanwhile(Working(page, ToHandle));
        IdStays(posted, server, ReplyId(event.eventId, agent, reply.value));
      }
    }

    /** The handler call and what follows it, for the first event of the page. */
    method Handle(event: Event, o: Outcome, ghost page: seq<Event>)
      requires page != [] && page[0] == event && At(Snapshot(Working(page, ToHandle)))
      modifies this`server, this`elsewhere, this`handled, this`trace
      ensures At(Snapshot(if o.raises then Idle else Working(page, ToApply([])))) && old(trace) <= trace
      ensures Keeps(old(server), server) && handled == (if o.raises then old(handled) else old(handled) + {event.eventId})
      ensures o.reply.Some? ==> HasId(server.events, ReplyId(event.eventId, agent, o.reply.value))
      ensures !o.raises ==> forall id :: id in AppliedBy(event, o) ==> (id, Applied) in server.acks
      ensures old(elsewhere) == [] ==>
                && elsewhere == []
                && (o.reply.None? ==> server.events == old(server).events)
                && (o.reply.Some? ==> RepliedTo(old(server), server, event, agent, o.reply.value, true))
                && forall id, t :: (id, t) in server.acks <==>
                     (id, t) in old(server).acks || (if o.raises then (id, t) == (event.eventId, Received)
                                                     else t == Applied && id in AppliedBy(event, o))
    {
      Reply(event, o.reply, page);
      ghost var posted := server;
      if o.raises {
        Log(Snapshot(Working(page, ToHandle)), HandlerRaises);
        Ack(event.eventId, Received);
        return;
      }
      Log(Snapshot(Working(page, ToHandle)), HandlerReturns(o.applied));
      handled := handled + {event.eventId};
      var ids := if o.applied.None? then [event.eventId] else o.applied.value;
      Meanwhile(Working(page, ToApply(ids)));
      AckAll(ids, page);
      if o.reply.Some? { IdStays(posted, server, ReplyId(event.eventId, agent, o.reply.value)); }
    }

    /** From receiving the first event of the page to moving the cursor past it. */
    method Process(event: Event, o: Outcome, ghost page: seq<Event>)
      requires page != [] && page[0] == event && At(Snapshot(Working(page, ToReceive)))
      modifies this
      ensures At(Snapshot(if o.raises || |page| == 1 then Idle else Working(page[1..], ToReceive))) && old(trace) <= trace
      ensures Keeps(old(server), server) && (event.eventId, Received) in server.acks
      ensures handled == (if o.raises then old(handled) else old(handled) + {event.eventId})
      ensures since == (if !o.raises && event.id > old(since) then event.id else old(since))
      ensures o.reply.Some? ==> HasId(server.events, ReplyId(event.eventId, agent, o.reply.value))
      ensures !o.raises ==> forall id :: id in AppliedBy(event, o) ==> (id, Applied) in server.acks
      ensures old(elsewhere) == [] ==>
                && elsewhere == []
                && (o.reply.None? ==> server.events == old(server).events)
                && (o.reply.Some? ==> RepliedTo(old(server), server, event, agent, o.reply.value, true))
                && forall id, t :: (id, t) in server.acks <==>
                     || (id, t) in old(server).acks || (id, t) == (event.eventId, Received)
                     || (!o.raises && t == Applied && id in AppliedBy(event, o))
    {
      Meanwhile(Working(page, ToReceive));
      Log(Snapshot(Working(page, ToReceive)), AckReceived);
      Ack(event.eventId, Received);
      Handle(event, o, page);
      if !o.raises {
        Log(Snapshot(Working(page, ToApply([]))), Advance);
        since := if since > event.id then since else event.id;
      }
    }

    /** Handles the events of a page in turn, up to the first call that raises. */
    method HandlePage(page: seq<Event>, outcomes: seq<Outcome>) returns (processed: nat, raised: bool)
      requires |page| <= |outcomes| && At(Snapshot(if page == [] then Idle else Working(page, ToReceive)))
      modifies this
      ensures At(Snapshot(Idle)) && old(trace) <= trace && Keeps(old(server), server)
      ensures processed <= |page| && (raised <==> processed < |page|)
      ensures RoundDone(server, agent, page, outcomes, processed, raised) && handled == old(handled) + IdsOf(page[..processed])
      ensures Rising(page) && (page != [] ==> old(since) < page[0].id) ==>
                since == if processed == 0 then old(since) else page[processed - 1].id
    {
      hide RoundDone, AppliedBy, HasId, RepliedTo, IdsOf, Next, Enabled;
      processed, raised := 0, false;
      RoundStarts(server, agent, page, outcomes);
      assert page[0..] == page;
      while processed < |page|
        invariant processed <= |page| && !raised && old(trace) <= trace && Keeps(old(server), server)
        invariant RoundDone(server, agent, page, outcomes, processed, false)
        invariant handled == old(handled) + IdsOf(page[..processed])
        invariant Rising(page) && (page != [] ==> old(since) < page[0].id) ==>
                    since == if processed == 0 then old(since) else page[processed - 1].id
        invariant At(Snapshot(if processed == |page| then Idle else Working(page[processed..], ToReceive)))
      {
        assert page[processed..][1..] == page[processed + 1..];
        ghost var before := server;
        Process(page[processed], outcomes[processed], page[processed..]);
        RoundNext(before, server, agent, page, outcomes, processed);
        IdsNext(page, processed);
        if outcomes[processed].raises {
          raised := true;
          return;
        }
        processed := processed + 1;
      }
    }

    /** One polling round while others write; every state it passes through is a state of the machine,
        so a crash anywhere in it is a crash of the machine. */
    method RunOnce(outcomes: seq<Outcome>) returns (processed: nat, raised: bool)
      requires |outcomes| >= PAGE && At(Snapshot(Idle))
      modifies this
      ensures At(Snapshot(Idle)) && old(trace) <= trace && Keeps(old(server), server)
      ensures var page := Fetch(old(server), agent, old(since));
              && processed <= |page| <= PAGE && (raised <==> processed < |page|)
              && RoundDone(server, agent, page, outcomes, processed, raised)
              && handled == old(handled) + IdsOf(page[..processed])
              && (Rising(old(server).events) ==> since == if processed == 0 then old(since) else page[processed - 1].id)
    {
      hide RoundDone, AppliedBy, HasId, RepliedTo, IdsOf, Select;
      var page := Fetch(server, agent, since);
      FetchSize(server, agent, since, 0, PAGE);
      if Rising(server.events) { FetchExactly(server, agent, since); }
      Log(Snapshot(Idle), FetchPage);
      processed, raised := HandlePage(page, outcomes);
    }
  }

  lemma {:induction false} FetchSize(s: Server, agent: string, since: nat, from: nat, limit: nat)
    requires from <= |s.events|
    ensures |Select(s, agent, since, from, limit)| <= limit
    decreases |s.events| - from
  {
    if from < |s.events| && limit > 0 {
      if Wanted(s, agent, since, s.events[from]) {
        FetchSize(s, agent, since, from + 1, limit - 1);
      } else {
        FetchSize(s, agent, since, from + 1, limit);
      }
    }
  }
}
