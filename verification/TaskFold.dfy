/** The task ledger fold: events in ledger order drive one small state machine per task. */
module TaskFold {
  import opened Options

  datatype TaskEvent = TaskEvent(id: int, eventId: string, source: Option<string>, createdAt: Option<string>,
                                 payload: map<string, string>)

  datatype Status = Unopened | Pending | Accepted | InProgress | Waiting | Completed | Failed | Cancelled

  datatype Entry = Entry(ledgerId: int, eventId: string, actor: Option<string>, op: string,
                         at: Option<string>, note: Option<string>)

  datatype Why =
    | DuplicateCreate
    | IncompleteCreate
    | BeforeCreate
    | AfterTerminal(status: Status)
    | WrongActor(actor: Option<string>, assignee: string)
    | WrongState(status: Status)
    | MissingField

  datatype Anomaly = Anomaly(ledgerId: int, eventId: string, op: string, why: Why)

  datatype Task = Task(
    status: Status,
    title: string, initiator: Option<string>, assignee: string,
    context: Option<string>, priority: Option<string>, deadline: Option<string>, nextAction: Option<string>,
    blockedReason: Option<string>, deliverable: Option<string>, verification: Option<string>,
    createdAt: Option<string>, updatedAt: Option<string>,
    history: seq<Entry>, anomalies: seq<Anomaly>)

  const OPS: set<string> := {"create", "accept", "start", "update", "block", "handoff",
                             "deliver", "verify", "complete", "fail", "cancel"}

  const BLANK := Task(Unopened, "", None, "", None, None, None, None, None, None, None, None, None, [], [])

  function Lookup(p: map<string, string>, key: string): Option<string> {
    if key in p then Some(p[key]) else None
  }

  /** A missing and an empty field are both false in the source's tests. */
  function Truthy(p: map<string, string>, key: string): Option<string> {
    if key in p && p[key] != "" then Some(p[key]) else None
  }

  function Or(a: Option<string>, b: Option<string>): Option<string> {
    if a.Some? && a.value != "" then a else b
  }

  function TaskId(e: TaskEvent): Option<string> { Truthy(e.payload, "task_id") }

  function Op(e: TaskEvent): string {
    if "op" in e.payload then e.payload["op"] else ""
  }

  predicate Recognised(e: TaskEvent) { TaskId(e).Some? && Op(e) in OPS }

  predicate IsTerminal(s: Status) { s.Completed? || s.Failed? || s.Cancelled? }

  // ------------------------------------------------------- one event, one task

  function Flag(t: Task, e: TaskEvent, why: Why): Task {
    t.(anomalies := t.anomalies + [Anomaly(e.id, e.eventId, Op(e), why)])
  }

  function EntryOf(e: TaskEvent, note: Option<string>): Entry {
    Entry(e.id, e.eventId, e.source, Op(e), e.createdAt, Or(note, Lookup(e.payload, "note")))
  }

  function Log(t: Task, e: TaskEvent, note: Option<string>): Task {
    t.(history := t.history + [EntryOf(e, note)], updatedAt := e.createdAt)
  }

  function Create(e: TaskEvent): Task {
    var p := e.payload;
    var title, assignee := Truthy(p, "title"), Truthy(p, "assignee");
    if title.None? || assignee.None? then Flag(BLANK, e, IncompleteCreate)
    else
      Log(BLANK.(status := Pending, title := title.value, initiator := e.source, assignee := assignee.value,
                 context := Lookup(p, "context"), priority := Lookup(p, "priority"),
                 deadline := Lookup(p, "deadline"), nextAction := Lookup(p, "next_action"),
                 createdAt := e.createdAt), e, None)
  }

  function Kept(p: map<string, string>, key: string, current: Option<string>): Option<string> {
    if key in p then Some(p[key]) else current
  }

  datatype Decision = Refused(why: Why) | Moved(next: Task, note: Option<string>)

  /** An operation on an open, non-terminal task. */
  function Decide(t: Task, e: TaskEvent): Decision {
    var p, op := e.payload, Op(e);
    if op == "accept" then
      if e.source != Some(t.assignee) then Refused(WrongActor(e.source, t.assignee))
      else if !t.status.Pending? then Refused(WrongState(t.status))
      else Moved(t.(status := Accepted), None)
    else if op == "start" then
      if t.status.Accepted? || t.status.Waiting? then Moved(t.(status := InProgress, blockedReason := None), None)
      else Refused(WrongState(t.status))
    else if op == "block" then
      if t.status.Accepted? || t.status.InProgress? then
        Moved(t.(status := Waiting, blockedReason := Or(Lookup(p, "reason"), Some("unspecified"))), None)
      else Refused(WrongState(t.status))
    else if op == "update" then
      Moved(t.(nextAction := Kept(p, "next_action", t.nextAction), priority := Kept(p, "priority", t.priority),
               deadline := Kept(p, "deadline", t.deadline), context := Kept(p, "context", t.context)), None)
    else if op == "deliver" then
      if Truthy(p, "deliverable").None? then Refused(MissingField)
      else Moved(t.(deliverable := Truthy(p, "deliverable")), None)
    else if op == "verify" then
      if Truthy(p, "verification").None? then Refused(MissingField)
      else Moved(t.(verification := Truthy(p, "verification")), None)
    else if op == "handoff" then
      var to := Truthy(p, "to");
      if to.None? then Refused(MissingField)
      else
        var said := if Lookup(p, "note").Some? then p["note"] else "";
        Moved(t.(assignee := to.value, status := Pending),
              Some("handoff " + t.assignee + " -> " + to.value + ": " + said))
    else if op == "complete" then
      var deliverable := Or(Lookup(p, "deliverable"), t.deliverable);
      var verification := Or(Lookup(p, "verification"), t.verification);
      if !t.status.InProgress? then Refused(WrongState(t.status))
      else if Or(deliverable, None).None? || Or(verification, None).None? then Refused(MissingField)
      else Moved(t.(deliverable := deliverable, verification := verification, status := Completed), None)
    else if op == "fail" then
      if Truthy(p, "reason").None? then Refused(MissingField)
      else Moved(t.(status := Failed, blockedReason := Truthy(p, "reason")), None)
    else
      Moved(t.(status := Cancelled), Lookup(p, "reason"))
  }

  function Advance(t: Task, e: TaskEvent): Task {
    match Decide(t, e)
    case Refused(why) => Flag(t, e, why)
    case Moved(next, note) => Log(next, e, note)
  }

  /** One recognised event on the task it names, known or not. */
  function Step(t: Option<Task>, e: TaskEvent): Task {
    if Op(e) == "create" then
      if t.Some? then Flag(t.value, e, DuplicateCreate) else Create(e)
    else if t.None? then Flag(BLANK, e, BeforeCreate)
    else if t.value.status.Unopened? then Flag(t.value, e, BeforeCreate)
    else if IsTerminal(t.value.status) then Flag(t.value, e, AfterTerminal(t.value.status))
    else Advance(t.value, e)
  }

  // ------------------------------------------------------------------ the fold

  type Tasks = map<string, Task>

  function TaskAt(ts: Tasks, tid: string): Option<Task> {
    if tid in ts then Some(ts[tid]) else None
  }

  function Apply(ts: Tasks, e: TaskEvent): Tasks {
    if !Recognised(e) then ts else
      var tid := TaskId(e).value;
      ts[tid := Step(TaskAt(ts, tid), e)]
  }

  function ApplyAll(ts: Tasks, es: seq<TaskEvent>): Tasks
    decreases |es|
  {
    if es == [] then ts else ApplyAll(Apply(ts, es[0]), es[1..])
  }

  predicate Ordered(es: seq<TaskEvent>) {
    forall i, j :: 0 <= i < j < |es| ==> es[i].id <= es[j].id
  }

  function InsertById(e: TaskEvent, es: seq<TaskEvent>): seq<TaskEvent> {
    if es == [] || e.id <= es[0].id then [e] + es else [es[0]] + InsertById(e, es[1..])
  }

  /** The stable sort by ledger id that the fold starts with. */
  function SortById(es: seq<TaskEvent>): seq<TaskEvent> {
    if es == [] then [] else InsertById(es[0], SortById(es[1..]))
  }

  function Folded(es: seq<TaskEvent>): Tasks {
    ApplyAll(map[], SortById(es))
  }

  method Fold(events: seq<TaskEvent>) returns (tasks: Tasks)
    ensures tasks == Folded(events)
  {
    tasks := map[];
    var sorted := SortById(events);
    for i := 0 to |sorted|
      invariant ApplyAll(tasks, sorted[i..]) == Folded(events)
    {
      var e := sorted[i];
      assert sorted[i..][1..] == sorted[i + 1..];
      if !Recognised(e) {
        continue;
      }
      var tid := TaskId(e).value;
      var t := TaskAt(tasks, tid);
      tasks := tasks[tid := Step(t, e)];
    }
  }

  lemma {:induction false} ApplyAllConcat(ts: Tasks, a: seq<TaskEvent>, b: seq<TaskEvent>)
    ensures ApplyAll(ts, a + b) == ApplyAll(ApplyAll(ts, a), b)
    decreases |a|
  {
    if a == [] {
      assert a + b == b;
    } else {
      assert (a + b)[1..] == a[1..] + b;
      ApplyAllConcat(Apply(ts, a[0]), a[1..], b);
    }
  }

  // ------------------------------------------------------------------- sorting

  predicate DistinctIds(es: seq<TaskEvent>) {
    forall i, j :: 0 <= i < j < |es| ==> es[i].id != es[j].id
  }

  predicate Rising(es: seq<TaskEvent>) {
    forall i, j :: 0 <= i < j < |es| ==> es[i].id < es[j].id
  }

  lemma {:induction false} InsertMember(e: TaskEvent, es: seq<TaskEvent>, x: TaskEvent)
    ensures x in InsertById(e, es) <==> x == e || x in es
    decreases |es|
  {
    if es != [] && e.id > es[0].id {
      InsertMember(e, es[1..], x);
    }
  }

  lemma {:induction false} SortMember(es: seq<TaskEvent>, x: TaskEvent)
    ensures x in SortById(es) <==> x in es
    decreases |es|
  {
    if es != [] {
      SortMember(es[1..], x);
      InsertMember(es[0], SortById(es[1..]), x);
    }
  }

  lemma {:induction false} InsertOrdered(e: TaskEvent, es: seq<TaskEvent>)
    requires Ordered(es)
    ensures Ordered(InsertById(e, es))
    decreases |es|
  {
    if es != [] && e.id > es[0].id {
      var r := InsertById(e, es[1..]);
      InsertOrdered(e, es[1..]);
      forall k | 0 <= k < |r| ensures es[0].id <= r[k].id {
        InsertMember(e, es[1..], r[k]);
      }
    }
  }

  lemma {:induction false} SortOrdered(es: seq<TaskEvent>)
    ensures Ordered(SortById(es))
    decreases |es|
  {
    if es != [] {
      SortOrdered(es[1..]);
      InsertOrdered(es[0], SortById(es[1..]));
    }
  }

  lemma {:induction false} InsertRising(e: TaskEvent, es: seq<TaskEvent>)
    requires Rising(es) && forall x :: x in es ==> x.id != e.id
    ensures Rising(InsertById(e, es))
    decreases |es|
  {
    if es != [] && e.id > es[0].id {
      var r := InsertById(e, es[1..]);
      InsertRising(e, es[1..]);
      forall k | 0 <= k < |r| ensures es[0].id < r[k].id {
        InsertMember(e, es[1..], r[k]);
      }
    }
  }

  lemma {:induction false} SortRising(es: seq<TaskEvent>)
    requires DistinctIds(es)
    ensures Rising(SortById(es))
    decreases |es|
  {
    if es != [] {
      SortRising(es[1..]);
      forall x | x in SortById(es[1..]) ensures x.id != es[0].id {
        SortMember(es[1..], x);
        var k :| 0 <= k < |es[1..]| && es[1..][k] == x;
        assert es[k + 1] == x;
      }
      InsertRising(es[0], SortById(es[1..]));
    }
  }

  ghost predicate SameEvents(a: seq<TaskEvent>, b: seq<TaskEvent>) {
    forall x :: x in a <==> x in b
  }

  lemma RisingHead(a: seq<TaskEvent>, x: TaskEvent)
    requires Rising(a) && x in a
    ensures a[0].id <= x.id && (x.id == a[0].id ==> x == a[0])
  {
  }

  /** Two strictly ordered lists of the same events are equal. */
  lemma {:induction false} RisingIsUnique(a: seq<TaskEvent>, b: seq<TaskEvent>)
    requires Rising(a) && Rising(b) && SameEvents(a, b)
    ensures a == b
    decreases |a|
  {
    assert a != [] ==> a[0] in a;
    assert b != [] ==> b[0] in b;
    if a != [] && b != [] {
      RisingHead(b, a[0]);
      RisingHead(a, b[0]);
      forall x ensures x in a[1..] <==> x in b[1..] {
        TailMember(a, x);
        TailMember(b, x);
      }
      RisingIsUnique(a[1..], b[1..]);
    }
  }

  lemma TailMember(a: seq<TaskEvent>, x: TaskEvent)
    requires Rising(a) && a != []
    ensures x in a[1..] <==> x in a && x != a[0]
  {
  }

  // --------------------------------------------------- order, extension, locality

  /** Order-free: two logs of the same events with distinct ids fold to the same tasks. */
  lemma FoldIsOrderFree(a: seq<TaskEvent>, b: seq<TaskEvent>)
    requires DistinctIds(a) && DistinctIds(b) && SameEvents(a, b)
    ensures Folded(a) == Folded(b)
  {
    SortRising(a);
    SortRising(b);
    forall x ensures x in SortById(a) <==> x in SortById(b) {
      SortMember(a, x);
      SortMember(b, x);
    }
    RisingIsUnique(SortById(a), SortById(b));
  }

  predicate AllBelow(a: seq<TaskEvent>, b: seq<TaskEvent>) {
    forall x, y :: x in a && y in b ==> x.id < y.id
  }

  lemma {:induction false} InsertBefore(e: TaskEvent, a: seq<TaskEvent>, b: seq<TaskEvent>)
    requires forall y :: y in b ==> e.id < y.id
    ensures InsertById(e, a + b) == InsertById(e, a) + b
    decreases |a|
  {
    if a == [] {
      assert a + b == b && InsertById(e, a) == [e];
    } else {
      assert (a + b)[1..] == a[1..] + b && (a + b)[0] == a[0];
      if e.id <= a[0].id {
        assert [e] + (a + b) == ([e] + a) + b;
      } else {
        InsertBefore(e, a[1..], b);
        assert [a[0]] + (InsertById(e, a[1..]) + b) == ([a[0]] + InsertById(e, a[1..])) + b;
      }
    }
  }

  lemma {:induction false} SortBefore(a: seq<TaskEvent>, b: seq<TaskEvent>)
    requires AllBelow(a, b)
    ensures SortById(a + b) == SortById(a) + SortById(b)
    decreases |a|
  {
    if a == [] {
      assert a + b == b;
    } else {
      assert (a + b)[1..] == a[1..] + b && (a + b)[0] == a[0];
      SortBefore(a[1..], b);
      forall y | y in SortById(b) ensures a[0].id < y.id {
        SortMember(b, y);
      }
      InsertBefore(a[0], SortById(a[1..]), SortById(b));
    }
  }

  /** A log extended with events of larger ids continues the fold of its prefix. */
  lemma FoldContinues(a: seq<TaskEvent>, b: seq<TaskEvent>)
    requires AllBelow(a, b)
    ensures Folded(a + b) == ApplyAll(Folded(a), SortById(b))
  {
    SortBefore(a, b);
    ApplyAllConcat(map[], SortById(a), SortById(b));
  }

  predicate Owns(tid: string, e: TaskEvent) { Recognised(e) && TaskId(e).value == tid }

  function Own(es: seq<TaskEvent>, tid: string): seq<TaskEvent> {
    if es == [] then [] else (if Owns(tid, es[0]) then [es[0]] else []) + Own(es[1..], tid)
  }

  lemma OwnCons(e: TaskEvent, es: seq<TaskEvent>, tid: string)
    ensures Own([e] + es, tid) == if Owns(tid, e) then [e] + Own(es, tid) else Own(es, tid)
  {
    assert ([e] + es)[1..] == es;
  }

  lemma {:induction false} OwnSuffices(ts: Tasks, ts': Tasks, es: seq<TaskEvent>, tid: string)
    requires TaskAt(ts, tid) == TaskAt(ts', tid)
    ensures TaskAt(ApplyAll(ts, es), tid) == TaskAt(ApplyAll(ts', Own(es, tid)), tid)
    decreases |es|
  {
    if es != [] {
      var e := es[0];
      if Owns(tid, e) {
        assert Own(es, tid)[0] == e && Own(es, tid)[1..] == Own(es[1..], tid);
        OwnSuffices(Apply(ts, e), Apply(ts', e), es[1..], tid);
      } else {
        assert Own(es, tid) == Own(es[1..], tid);
        OwnSuffices(Apply(ts, e), ts', es[1..], tid);
      }
    }
  }

  lemma {:induction false} OwnMember(es: seq<TaskEvent>, tid: string, x: TaskEvent)
    ensures x in Own(es, tid) <==> x in es && Owns(tid, x)
    decreases |es|
  {
    if es != [] { OwnMember(es[1..], tid, x); }
  }

  lemma {:induction false} OwnOfInsert(e: TaskEvent, es: seq<TaskEvent>, tid: string)
    requires Ordered(es)
    ensures Own(InsertById(e, es), tid) == if Owns(tid, e) then InsertById(e, Own(es, tid)) else Own(es, tid)
    decreases |es|
  {
    if es == [] || e.id <= es[0].id {
      OwnCons(e, es, tid);
      if Owns(tid, e) && Own(es, tid) != [] {
        OwnMember(es, tid, Own(es, tid)[0]);
      }
    } else {
      var rest := es[1..];
      OwnOfInsert(e, rest, tid);
      OwnCons(es[0], InsertById(e, rest), tid);
      if Owns(tid, es[0]) {
        assert Own(es, tid)[0] == es[0] && Own(es, tid)[1..] == Own(rest, tid);
      } else {
        assert Own(es, tid) == Own(rest, tid);
      }
    }
  }

  lemma {:induction false} OwnOfSort(es: seq<TaskEvent>, tid: string)
    ensures Own(SortById(es), tid) == SortById(Own(es, tid))
    decreases |es|
  {
    if es != [] {
      OwnOfSort(es[1..], tid);
      SortOrdered(es[1..]);
      OwnOfInsert(es[0], SortById(es[1..]), tid);
      if Owns(tid, es[0]) {
        assert Own(es, tid)[0] == es[0] && Own(es, tid)[1..] == Own(es[1..], tid);
      } else {
        assert Own(es, tid) == Own(es[1..], tid);
      }
    }
  }

  /** Local: a task's state is the fold of its own events alone. */
  lemma FoldIsLocal(es: seq<TaskEvent>, tid: string)
    ensures TaskAt(Folded(es), tid) == TaskAt(Folded(Own(es, tid)), tid)
  {
    OwnOfSort(es, tid);
    OwnSuffices(map[], map[], SortById(es), tid);
  }

  // ------------------------------------------------------------------ lossless

  datatype Mark = Mark(ledgerId: int, eventId: string, op: string)

  function MarkOf(e: TaskEvent): Mark { Mark(e.id, e.eventId, Op(e)) }

  function Marks(es: seq<TaskEvent>): multiset<Mark> {
    if es == [] then multiset{} else multiset{MarkOf(es[0])} + Marks(es[1..])
  }

  function HistoryMarks(h: seq<Entry>): multiset<Mark> {
    if h == [] then multiset{} else
      var last := h[|h| - 1];
      HistoryMarks(h[..|h| - 1]) + multiset{Mark(last.ledgerId, last.eventId, last.op)}
  }

  function AnomalyMarks(a: seq<Anomaly>): multiset<Mark> {
    if a == [] then multiset{} else
      var last := a[|a| - 1];
      AnomalyMarks(a[..|a| - 1]) + multiset{Mark(last.ledgerId, last.eventId, last.op)}
  }

  /** Everything a task remembers about the events it has seen. */
  function Landed(t: Option<Task>): multiset<Mark> {
    if t.None? then multiset{} else HistoryMarks(t.value.history) + AnomalyMarks(t.value.anomalies)
  }

  lemma FlagLands(t: Task, e: TaskEvent, why: Why)
    ensures Landed(Some(Flag(t, e, why))) == Landed(Some(t)) + multiset{MarkOf(e)}
  {
    var a := Flag(t, e, why).anomalies;
    assert a[..|a| - 1] == t.anomalies;
  }

  lemma LogLands(t: Task, e: TaskEvent, note: Option<string>)
    ensures Landed(Some(Log(t, e, note))) == Landed(Some(t)) + multiset{MarkOf(e)}
  {
    var h := Log(t, e, note).history;
    assert h[..|h| - 1] == t.history;
  }

  lemma MoveKeepsLogs(t: Task, e: TaskEvent)
    requires Decide(t, e).Moved?
    ensures Decide(t, e).next.history == t.history && Decide(t, e).next.anomalies == t.anomalies
  {
  }

  lemma AdvanceLands(t: Task, e: TaskEvent)
    ensures Landed(Some(Advance(t, e))) == Landed(Some(t)) + multiset{MarkOf(e)}
  {
    match Decide(t, e)
    case Refused(why) => FlagLands(t, e, why);
    case Moved(next, note) =>
      MoveKeepsLogs(t, e);
      LogLands(next, e, note);
  }

  lemma CreateLands(e: TaskEvent)
    ensures Landed(Some(Create(e))) == multiset{MarkOf(e)}
  {
    assert Landed(Some(BLANK)) == multiset{};
    if Truthy(e.payload, "title").None? || Truthy(e.payload, "assignee").None? {
      FlagLands(BLANK, e, IncompleteCreate);
    } else {
      var u := Create(e);
      assert u.history == [EntryOf(e, None)] && u.history[..0] == [];
    }
  }

  /** Each step lands its event exactly once, under the event's own ids and operation. */
  lemma StepLands(t: Option<Task>, e: TaskEvent)
    ensures Landed(Some(Step(t, e))) == Landed(t) + multiset{MarkOf(e)}
  {
    var before := if t.Some? then t.value else BLANK;
    if Op(e) == "create" && t.None? {
      CreateLands(e);
    } else if Op(e) == "create" {
      FlagLands(before, e, DuplicateCreate);
    } else if before.status.Unopened? {
      FlagLands(before, e, BeforeCreate);
    } else if IsTerminal(before.status) {
      FlagLands(before, e, AfterTerminal(before.status));
    } else {
      AdvanceLands(before, e);
    }
  }

  lemma {:induction false} ApplyAllLands(ts: Tasks, es: seq<TaskEvent>, tid: string)
    ensures Landed(TaskAt(ApplyAll(ts, es), tid)) == Landed(TaskAt(ts, tid)) + Marks(Own(es, tid))
    decreases |es|
  {
    if es != [] {
      ApplyAllLands(Apply(ts, es[0]), es[1..], tid);
      if Owns(tid, es[0]) {
        assert Own(es, tid)[0] == es[0] && Own(es, tid)[1..] == Own(es[1..], tid);
        StepLands(TaskAt(ts, tid), es[0]);
      } else {
        assert Own(es, tid) == Own(es[1..], tid);
      }
    }
  }

  lemma {:induction false} MarksOfInsert(e: TaskEvent, es: seq<TaskEvent>)
    ensures Marks(InsertById(e, es)) == multiset{MarkOf(e)} + Marks(es)
    decreases |es|
  {
    var r := InsertById(e, es);
    if es == [] || e.id <= es[0].id {
      assert r[1..] == es;
    } else {
      assert r[1..] == InsertById(e, es[1..]);
      MarksOfInsert(e, es[1..]);
    }
  }

  lemma {:induction false} MarksOfSort(es: seq<TaskEvent>)
    ensures Marks(SortById(es)) == Marks(es)
    decreases |es|
  {
    if es != [] {
      MarksOfSort(es[1..]);
      MarksOfInsert(es[0], SortById(es[1..]));
    }
  }

  /** Lossless: history and anomalies together hold each of the task's recognised events exactly once. */
  lemma FoldIsLossless(es: seq<TaskEvent>, tid: string)
    ensures Landed(TaskAt(Folded(es), tid)) == Marks(Own(es, tid))
  {
    ApplyAllLands(map[], SortById(es), tid);
    OwnOfSort(es, tid);
    MarksOfSort(Own(es, tid));
  }

  // ----------------------------------------------------------------- legal paths

  /** Entry i is the acceptance by this assignee that no later handoff undid. */
  ghost predicate StandingAccept(h: seq<Entry>, assignee: string, i: int) {
    && 0 <= i < |h| && h[i].op == "accept" && h[i].actor == Some(assignee)
    && forall k :: i < k < |h| ==> h[k].op != "handoff" && h[k].op != "create" && h[k].op != "accept"
  }

  /** Entry j starts the work after acceptance i, and no later entry blocks it. */
  ghost predicate StandingStart(h: seq<Entry>, i: int, j: int) {
    && i < j < |h| && 0 <= j && h[j].op == "start"
    && forall k :: j < k < |h| ==> h[k].op != "block"
  }

  ghost predicate HasAccept(t: Task) { exists i :: StandingAccept(t.history, t.assignee, i) }

  ghost predicate HasStart(t: Task) {
    exists i, j :: StandingAccept(t.history, t.assignee, i) && StandingStart(t.history, i, j)
  }

  ghost predicate Opens(h: seq<Entry>) {
    h != [] && h[0].op == "create" && forall k :: 0 < k < |h| ==> h[k].op != "create"
  }

  ghost predicate Sound(t: Task) {
    && (t.status.Unopened? ==> t.history == [])
    && (!t.status.Unopened? ==> Opens(t.history))
    && (t.status.Accepted? || t.status.Waiting? ==> HasAccept(t))
    && (t.status.InProgress? || t.status.Completed? ==> HasStart(t))
    && (t.status.Completed? ==>
          && Or(t.deliverable, None).Some? && Or(t.verification, None).Some?
          && t.history[|t.history| - 1].op == "complete")
  }

  lemma AcceptStands(h: seq<Entry>, x: Entry, assignee: string, i: int)
    requires StandingAccept(h, assignee, i) && x.op != "handoff" && x.op != "create" && x.op != "accept"
    ensures StandingAccept(h + [x], assignee, i)
  {
  }

  lemma StartStands(h: seq<Entry>, x: Entry, i: int, j: int)
    requires StandingStart(h, i, j) && x.op != "block"
    ensures StandingStart(h + [x], i, j)
  {
  }

  lemma LogKeepsAccept(t: Task, u: Task, x: Entry)
    requires HasAccept(t) && x.op != "handoff" && x.op != "create" && x.op != "accept"
    requires u.history == t.history + [x] && u.assignee == t.assignee
    ensures HasAccept(u)
    ensures x.op == "start" ==> HasStart(u)
  {
    var i :| StandingAccept(t.history, t.assignee, i);
    AcceptStands(t.history, x, t.assignee, i);
    if x.op == "start" {
      assert StandingStart(u.history, i, |t.history|);
    }
  }

  lemma LogKeepsStart(t: Task, u: Task, x: Entry)
    requires HasStart(t) && x.op != "handoff" && x.op != "create" && x.op != "accept" && x.op != "block"
    requires u.history == t.history + [x] && u.assignee == t.assignee
    ensures HasStart(u)
  {
    var i, j :| StandingAccept(t.history, t.assignee, i) && StandingStart(t.history, i, j);
    AcceptStands(t.history, x, t.assignee, i);
    StartStands(t.history, x, i, j);
  }

  lemma StartHasAccept(t: Task)
    requires HasStart(t)
    ensures HasAccept(t)
  {
  }

  lemma MoveKeepsPath(t: Task, e: TaskEvent, next: Task, u: Task, x: Entry)
    requires Sound(t) && !t.status.Unopened? && !IsTerminal(t.status)
    requires Op(e) in OPS && Op(e) != "create" && Decide(t, e).Moved? && next == Decide(t, e).next
    requires x.op == Op(e) && x.actor == e.source
    requires u == next.(history := t.history + [x], updatedAt := u.updatedAt)
    ensures Sound(u)
  {
    hide StandingStart, HasStart, Kept, Truthy;
    if x.op == "accept" {
      assert StandingAccept(u.history, u.assignee, |t.history|);
    } else if x.op != "handoff" && !t.status.Pending? {
      if t.status.InProgress? {
        StartHasAccept(t);
        if x.op != "block" {
          LogKeepsStart(t, u, x);
        }
      }
      LogKeepsAccept(t, u, x);
    }
  }

  /** One operation keeps the path legal. */
  lemma AdvanceKeepsSound(t: Task, e: TaskEvent)
    requires Sound(t) && !t.status.Unopened? && !IsTerminal(t.status)
    requires Op(e) in OPS && Op(e) != "create"
    ensures Sound(Advance(t, e))
  {
    match Decide(t, e)
    case Refused(why) => assert Advance(t, e).(anomalies := t.anomalies) == t;
    case Moved(next, note) =>
      MoveKeepsLogs(t, e);
      MoveKeepsPath(t, e, next, Advance(t, e), EntryOf(e, note));
  }

  lemma StepKeepsSound(t: Option<Task>, e: TaskEvent)
    requires Recognised(e) && (t.Some? ==> Sound(t.value))
    ensures Sound(Step(t, e))
  {
    if t.Some? && Op(e) != "create" && !t.value.status.Unopened? && !IsTerminal(t.value.status) {
      AdvanceKeepsSound(t.value, e);
    }
  }

  lemma {:induction false} ApplyAllKeepsSound(ts: Tasks, es: seq<TaskEvent>)
    requires forall tid :: tid in ts ==> Sound(ts[tid])
    ensures forall tid :: tid in ApplyAll(ts, es) ==> Sound(ApplyAll(ts, es)[tid])
    decreases |es|
  {
    if es != [] {
      if Recognised(es[0]) {
        StepKeepsSound(TaskAt(ts, TaskId(es[0]).value), es[0]);
      }
      ApplyAllKeepsSound(Apply(ts, es[0]), es[1..]);
    }
  }

  /** Whatever the log, a completed task was created once, accepted by the agent it is now assigned to,
      started after that without a later block or handoff, and has its deliverable and verification. */
  lemma CompletedTookLegalPath(es: seq<TaskEvent>, tid: string)
    requires tid in Folded(es) && Folded(es)[tid].status.Completed?
    ensures Or(Folded(es)[tid].deliverable, None).Some? && Or(Folded(es)[tid].verification, None).Some?
    ensures Opens(Folded(es)[tid].history) && HasStart(Folded(es)[tid])
  {
    ApplyAllKeepsSound(map[], SortById(es));
  }

  // ------------------------------------------------------------- terminal states

  /** The same task but for anomalies, of which u may have more. */
  predicate OnlyMoreAnomalies(t: Task, u: Task) {
    t.(anomalies := []) == u.(anomalies := []) && t.anomalies <= u.anomalies
  }

  lemma {:induction false} TerminalIsAbsorbing(ts: Tasks, es: seq<TaskEvent>, tid: string)
    requires tid in ts && IsTerminal(ts[tid].status)
    ensures tid in ApplyAll(ts, es) && OnlyMoreAnomalies(ts[tid], ApplyAll(ts, es)[tid])
    decreases |es|
  {
    if es != [] {
      TerminalIsAbsorbing(Apply(ts, es[0]), es[1..], tid);
    }
  }

  /** Once a log has ended a task, no later event changes anything but its list of anomalies. */
  lemma EndedTaskStays(a: seq<TaskEvent>, b: seq<TaskEvent>, tid: string)
    requires AllBelow(a, b)
    requires tid in Folded(a) && IsTerminal(Folded(a)[tid].status)
    ensures tid in Folded(a + b) && OnlyMoreAnomalies(Folded(a)[tid], Folded(a + b)[tid])
  {
    FoldContinues(a, b);
    TerminalIsAbsorbing(Folded(a), SortById(b), tid);
  }

  // -------------------------------------------------- what each operation does

  /** A further event of this task with this operation, after the whole log. */
  predicate Follows(a: seq<TaskEvent>, e: TaskEvent, tid: string, op: string) {
    && AllBelow(a, [e]) && tid != "" && "task_id" in e.payload && e.payload["task_id"] == tid
    && "op" in e.payload && e.payload["op"] == op
  }

  predicate IsOpen(ts: Tasks, tid: string) {
    tid in ts && (ts[tid].status.Pending? || ts[tid].status.Accepted? || ts[tid].status.InProgress? || ts[tid].status.Waiting?)
  }

  predicate Given(e: TaskEvent, key: string) { key in e.payload && e.payload[key] != "" }

  /** The event enters the history with this note. */
  function Entered(t: Task, e: TaskEvent, op: string, note: Option<string>): Task {
    t.(history := t.history + [Entry(e.id, e.eventId, e.source, op, e.createdAt, note)], updatedAt := e.createdAt)
  }

  /** The event is one more anomaly and changes nothing else. */
  function Refusal(t: Task, e: TaskEvent, op: string, why: Why): Task {
    t.(anomalies := t.anomalies + [Anomaly(e.id, e.eventId, op, why)])
  }

  function NoteIn(e: TaskEvent): Option<string> { if "note" in e.payload then Some(e.payload["note"]) else None }

  lemma LastEvent(a: seq<TaskEvent>, e: TaskEvent, tid: string, op: string)
    requires Follows(a, e, tid, op) && op in OPS
    ensures Folded(a + [e]) == Folded(a)[tid := Step(TaskAt(Folded(a), tid), e)]
  {
    FoldContinues(a, [e]);
    assert [e][1..] == [] && InsertById(e, []) == [e] == SortById([e]);
    assert ApplyAll(Apply(Folded(a), e), []) == Apply(Folded(a), e);
  }

  /** An event without a task id or with an unknown operation changes nothing. */
  lemma OthersAreIgnored(a: seq<TaskEvent>, e: TaskEvent)
    requires AllBelow(a, [e])
    requires !Given(e, "task_id") || "op" !in e.payload
             || e.payload["op"] !in {"create", "accept", "start", "update", "block", "handoff", "deliver", "verify", "complete", "fail", "cancel"}
    ensures Folded(a + [e]) == Folded(a)
  {
    FoldContinues(a, [e]);
    assert [e][1..] == [] && InsertById(e, []) == [e] == SortById([e]);
    assert ApplyAll(Apply(Folded(a), e), []) == Apply(Folded(a), e);
  }

  /** create opens a new task when it names a title and an assignee; one that does not leaves an unopened task with an anomaly. */
  lemma CreateOpens(a: seq<TaskEvent>, e: TaskEvent, tid: string)
    requires Follows(a, e, tid, "create")
    ensures Folded(a + [e]) == Folded(a)[tid :=
              if tid in Folded(a) then Refusal(Folded(a)[tid], e, "create", DuplicateCreate)
              else if Given(e, "title") && Given(e, "assignee") then
                var p := e.payload;
                Task(Pending, p["title"], e.source, p["assignee"],
                     if "context" in p then Some(p["context"]) else None,
                     if "priority" in p then Some(p["priority"]) else None,
                     if "deadline" in p then Some(p["deadline"]) else None,
                     if "next_action" in p then Some(p["next_action"]) else None,
                     None, None, None, e.createdAt, e.createdAt,
                     [Entry(e.id, e.eventId, e.source, "create", e.createdAt, NoteIn(e))], [])
              else
                Task(Unopened, "", None, "", None, None, None, None, None, None, None, None, None, [],
                     [Anomaly(e.id, e.eventId, "create", IncompleteCreate)])]
  {
    LastEvent(a, e, tid, "create");
    if tid !in Folded(a) {
      if Given(e, "title") && Given(e, "assignee") {
        assert Create(e).history == [Entry(e.id, e.eventId, e.source, "create", e.createdAt, NoteIn(e))];
      } else {
        assert Create(e).anomalies == [Anomaly(e.id, e.eventId, "create", IncompleteCreate)];
      }
    }
  }

  /** Before a valid create and after an end every other operation is one anomaly. */
  lemma OutsideIsRefused(a: seq<TaskEvent>, e: TaskEvent, tid: string, op: string)
    requires Follows(a, e, tid, op) && !IsOpen(Folded(a), tid)
    requires op in {"accept", "start", "update", "block", "handoff", "deliver", "verify", "complete", "fail", "cancel"}
    ensures Folded(a + [e]) == Folded(a)[tid :=
              if tid !in Folded(a) then
                Task(Unopened, "", None, "", None, None, None, None, None, None, None, None, None, [],
                     [Anomaly(e.id, e.eventId, op, BeforeCreate)])
              else if Folded(a)[tid].status.Unopened? then Refusal(Folded(a)[tid], e, op, BeforeCreate)
              else Refusal(Folded(a)[tid], e, op, AfterTerminal(Folded(a)[tid].status))]
  {
    LastEvent(a, e, tid, op);
    if tid !in Folded(a) { assert Step(None, e).anomalies == [Anomaly(e.id, e.eventId, op, BeforeCreate)]; }
  }

  /** accept: by the assignee, from pending. */
  lemma AcceptEffect(a: seq<TaskEvent>, e: TaskEvent, tid: string)
    requires Follows(a, e, tid, "accept") && IsOpen(Folded(a), tid)
    ensures var t := Folded(a)[tid];
            Folded(a + [e]) == Folded(a)[tid :=
              if e.source != Some(t.assignee) then Refusal(t, e, "accept", WrongActor(e.source, t.assignee))
              else if t.status == Pending then Entered(t.(status := Accepted), e, "accept", NoteIn(e))
              else Refusal(t, e, "accept", WrongState(t.status))]
  {
    LastEvent(a, e, tid, "accept");
  }

  /** start: from accepted or waiting, and what blocked the task is forgotten. */
  lemma StartEffect(a: seq<TaskEvent>, e: TaskEvent, tid: string)
    requires Follows(a, e, tid, "start") && IsOpen(Folded(a), tid)
    ensures var t := Folded(a)[tid];
            Folded(a + [e]) == Folded(a)[tid :=
              if t.status == Accepted || t.status == Waiting
              then Entered(t.(status := InProgress, blockedReason := None), e, "start", NoteIn(e))
              else Refusal(t, e, "start", WrongState(t.status))]
  {
    LastEvent(a, e, tid, "start");
  }

  /** block: from accepted or in progress, with the reason given. */
  lemma BlockEffect(a: seq<TaskEvent>, e: TaskEvent, tid: string)
    requires Follows(a, e, tid, "block") && IsOpen(Folded(a), tid)
    ensures var t := Folded(a)[tid];
            Folded(a + [e]) == Folded(a)[tid :=
              if t.status == Accepted || t.status == InProgress
              then Entered(t.(status := Waiting,
                              blockedReason := Some(if Given(e, "reason") then e.payload["reason"] else "unspecified")),
                           e, "block", NoteIn(e))
              else Refusal(t, e, "block", WrongState(t.status))]
  {
    LastEvent(a, e, tid, "block");
  }

  /** update: the four fields it names, whatever the state of the open task. */
  lemma UpdateEffect(a: seq<TaskEvent>, e: TaskEvent, tid: string)
    requires Follows(a, e, tid, "update") && IsOpen(Folded(a), tid)
    ensures var t, p := Folded(a)[tid], e.payload;
            Folded(a + [e]) == Folded(a)[tid :=
              Entered(t.(nextAction := if "next_action" in p then Some(p["next_action"]) else t.nextAction,
                         priority := if "priority" in p then Some(p["priority"]) else t.priority,
                         deadline := if "deadline" in p then Some(p["deadline"]) else t.deadline,
                         context := if "context" in p then Some(p["context"]) else t.context), e, "update", NoteIn(e))]
  {
    LastEvent(a, e, tid, "update");
  }

  /** deliver: sets a deliverable that is not empty, in any state of the open task. */
  lemma DeliverEffect(a: seq<TaskEvent>, e: TaskEvent, tid: string)
    requires Follows(a, e, tid, "deliver") && IsOpen(Folded(a), tid)
    ensures var t := Folded(a)[tid];
            Folded(a + [e]) == Folded(a)[tid :=
              if Given(e, "deliverable")
              then Entered(t.(deliverable := Some(e.payload["deliverable"])), e, "deliver", NoteIn(e))
              else Refusal(t, e, "deliver", MissingField)]
  {
    LastEvent(a, e, tid, "deliver");
  }

  lemma VerifyEffect(a: seq<TaskEvent>, e: TaskEvent, tid: string)
    requires Follows(a, e, tid, "verify") && IsOpen(Folded(a), tid)
    ensures var t := Folded(a)[tid];
            Folded(a + [e]) == Folded(a)[tid :=
              if Given(e, "verification")
              then Entered(t.(verification := Some(e.payload["verification"])), e, "verify", NoteIn(e))
              else Refusal(t, e, "verify", MissingField)]
  {
    LastEvent(a, e, tid, "verify");
  }

  /** handoff: a new assignee has to accept again; the note names both. */
  lemma HandoffEffect(a: seq<TaskEvent>, e: TaskEvent, tid: string)
    requires Follows(a, e, tid, "handoff") && IsOpen(Folded(a), tid)
    ensures var t, p := Folded(a)[tid], e.payload;
            Folded(a + [e]) == Folded(a)[tid :=
              if Given(e, "to")
              then Entered(t.(assignee := p["to"], status := Pending), e, "handoff",
                           Some("handoff " + t.assignee + " -> " + p["to"] + ": " + (if "note" in p then p["note"] else "")))
              else Refusal(t, e, "handoff", MissingField)]
  {
    LastEvent(a, e, tid, "handoff");
  }

  /** complete: from in progress, with a deliverable and a verification, given now or before. */
  lemma CompleteEffect(a: seq<TaskEvent>, e: TaskEvent, tid: string)
    requires Follows(a, e, tid, "complete") && IsOpen(Folded(a), tid)
    ensures var t, p := Folded(a)[tid], e.payload;
            var deliverable := if Given(e, "deliverable") then Some(p["deliverable"]) else t.deliverable;
            var verification := if Given(e, "verification") then Some(p["verification"]) else t.verification;
            Folded(a + [e]) == Folded(a)[tid :=
              if t.status != InProgress then Refusal(t, e, "complete", WrongState(t.status))
              else if deliverable == None || deliverable == Some("") || verification == None || verification == Some("")
              then Refusal(t, e, "complete", MissingField)
              else Entered(t.(status := Completed, deliverable := deliverable, verification := verification), e, "complete", NoteIn(e))]
  {
    LastEvent(a, e, tid, "complete");
  }

  lemma FailEffect(a: seq<TaskEvent>, e: TaskEvent, tid: string)
    requires Follows(a, e, tid, "fail") && IsOpen(Folded(a), tid)
    ensures var t := Folded(a)[tid];
            Folded(a + [e]) == Folded(a)[tid :=
              if Given(e, "reason")
              then Entered(t.(status := Failed, blockedReason := Some(e.payload["reason"])), e, "fail", NoteIn(e))
              else Refusal(t, e, "fail", MissingField)]
  {
    LastEvent(a, e, tid, "fail");
  }

  /** cancel: always, with the reason as its note. */
  lemma CancelEffect(a: seq<TaskEvent>, e: TaskEvent, tid: string)
    requires Follows(a, e, tid, "cancel") && IsOpen(Folded(a), tid)
    ensures var t := Folded(a)[tid];
            Folded(a + [e]) == Folded(a)[tid :=
              Entered(t.(status := Cancelled), e, "cancel", if Given(e, "reason") then Some(e.payload["reason"]) else NoteIn(e))]
  {
    LastEvent(a, e, tid, "cancel");
  }

  // ---------------------------------------------------------- legal paths complete

  /** Events that leave status and assignee of this task alone. */
  predicate IsQuiet(q: seq<TaskEvent>, tid: string) {
    forall x :: x in q && Owns(tid, x) ==> Op(x) in {"update", "deliver", "verify"}
  }

  predicate Supplies(q: seq<TaskEvent>, tid: string, op: string, key: string) {
    exists x :: x in q && Owns(tid, x) && Op(x) == op && Given(x, key)
  }

  predicate Filled(f: Option<string>) { f.Some? && f.value != "" }

  lemma {:induction false} QuietKeeps(ts: Tasks, q: seq<TaskEvent>, tid: string)
    requires IsOpen(ts, tid) && IsQuiet(q, tid)
    ensures var us := ApplyAll(ts, q);
            && tid in us && us[tid].status == ts[tid].status && us[tid].assignee == ts[tid].assignee
            && (Filled(ts[tid].deliverable) || Supplies(q, tid, "deliver", "deliverable") ==> Filled(us[tid].deliverable))
            && (Filled(ts[tid].verification) || Supplies(q, tid, "verify", "verification") ==> Filled(us[tid].verification))
    decreases |q|
  {
    if q != [] {
      var x, rest := q[0], q[1..];
      QuietStep(ts, x, tid);
      assert forall y :: y in rest ==> y in q;
      QuietKeeps(Apply(ts, x), rest, tid);
      assert forall y :: y in q ==> y == x || y in rest;
    }
  }

  lemma QuietStep(ts: Tasks, x: TaskEvent, tid: string)
    requires IsOpen(ts, tid) && (Owns(tid, x) ==> Op(x) in {"update", "deliver", "verify"})
    ensures var us := Apply(ts, x);
            && IsOpen(us, tid) && us[tid].status == ts[tid].status && us[tid].assignee == ts[tid].assignee
            && (Filled(ts[tid].deliverable) || (Owns(tid, x) && Op(x) == "deliver" && Given(x, "deliverable")) ==>
                  Filled(us[tid].deliverable))
            && (Filled(ts[tid].verification) || (Owns(tid, x) && Op(x) == "verify" && Given(x, "verification")) ==>
                  Filled(us[tid].verification))
  {
  }

  /** One event and the quiet ones after it. */
  lemma ThenQuiet(ts: Tasks, e: TaskEvent, q: seq<TaskEvent>, tid: string)
    requires IsOpen(Apply(ts, e), tid) && IsQuiet(q, tid)
    ensures ApplyAll(ts, [e] + q) == ApplyAll(Apply(ts, e), q)
    ensures var us, vs := Apply(ts, e), ApplyAll(ts, [e] + q);
            && IsOpen(vs, tid) && vs[tid].status == us[tid].status && vs[tid].assignee == us[tid].assignee
            && (Filled(us[tid].deliverable) || Supplies(q, tid, "deliver", "deliverable") ==> Filled(vs[tid].deliverable))
            && (Filled(us[tid].verification) || Supplies(q, tid, "verify", "verification") ==> Filled(vs[tid].verification))
  {
    assert ([e] + q)[1..] == q;
    QuietKeeps(Apply(ts, e), q, tid);
  }

  lemma {:induction false} ForeignKeep(ts: Tasks, q: seq<TaskEvent>, tid: string)
    requires tid !in ts && forall x :: x in q ==> !Owns(tid, x)
    ensures tid !in ApplyAll(ts, q)
    decreases |q|
  {
    if q != [] {
      assert q[0] in q && forall y :: y in q[1..] ==> y in q;
      ForeignKeep(Apply(ts, q[0]), q[1..], tid);
    }
  }

  predicate Named(e: TaskEvent, tid: string, op: string) { Owns(tid, e) && Op(e) == op }

  /** The converse of the legal path: created for an assignee, accepted by it, started, completed with a deliverable
      and a verification that it or any event before it supplied, whatever quiet or foreign events lie between. */
  lemma LegalPathCompletes(es: seq<TaskEvent>, tid: string, q0: seq<TaskEvent>, create: TaskEvent, q1: seq<TaskEvent>,
                           accept: TaskEvent, q2: seq<TaskEvent>, start: TaskEvent, q3: seq<TaskEvent>, complete: TaskEvent)
    requires SortById(es) == q0 + (([create] + q1) + (([accept] + q2) + (([start] + q3) + [complete])))
    requires (forall x :: x in q0 ==> !Owns(tid, x)) && IsQuiet(q1, tid) && IsQuiet(q2, tid) && IsQuiet(q3, tid)
    requires Named(create, tid, "create") && Given(create, "title") && Given(create, "assignee")
    requires Named(accept, tid, "accept") && accept.source == Some(create.payload["assignee"])
    requires Named(start, tid, "start") && Named(complete, tid, "complete")
    requires Given(complete, "deliverable") || exists q :: q in [q1, q2, q3] && Supplies(q, tid, "deliver", "deliverable")
    requires Given(complete, "verification") || exists q :: q in [q1, q2, q3] && Supplies(q, tid, "verify", "verification")
    ensures tid in Folded(es) && Folded(es)[tid].status == Completed
    ensures Filled(Folded(es)[tid].deliverable) && Filled(Folded(es)[tid].verification)
  {
    var p1, p2, p3 := [create] + q1, [accept] + q2, [start] + q3;
    var t0 := ApplyAll(map[], q0);
    ApplyAllConcat(map[], q0, p1 + (p2 + (p3 + [complete])));
    ApplyAllConcat(t0, p1, p2 + (p3 + [complete]));
    ForeignKeep(map[], q0, tid);
    CreateOpensTask(t0, create, tid);
    ThenQuiet(t0, create, q1, tid);
    var t1 := ApplyAll(t0, p1);
    ApplyAllConcat(t1, p2, p3 + [complete]);
    AcceptMoves(t1, accept, tid);
    ThenQuiet(t1, accept, q2, tid);
    var t2 := ApplyAll(t1, p2);
    ApplyAllConcat(t2, p3, [complete]);
    StartMoves(t2, start, tid);
    ThenQuiet(t2, start, q3, tid);
    var t3 := ApplyAll(t2, p3);
    CompleteMoves(t3, complete, tid);
  }

  lemma CreateOpensTask(ts: Tasks, e: TaskEvent, tid: string)
    requires tid !in ts && Named(e, tid, "create") && Given(e, "title") && Given(e, "assignee")
    ensures var us := Apply(ts, e); tid in us && us[tid].status == Pending && us[tid].assignee == e.payload["assignee"]
  {
  }

  lemma AcceptMoves(ts: Tasks, e: TaskEvent, tid: string)
    requires tid in ts && ts[tid].status == Pending && Named(e, tid, "accept") && e.source == Some(ts[tid].assignee)
    ensures var us := Apply(ts, e); tid in us && us[tid] == Entered(ts[tid].(status := Accepted), e, "accept", NoteIn(e))
  {
  }

  lemma StartMoves(ts: Tasks, e: TaskEvent, tid: string)
    requires tid in ts && ts[tid].status == Accepted && Named(e, tid, "start")
    ensures var us := Apply(ts, e);
            tid in us && us[tid] == Entered(ts[tid].(status := InProgress, blockedReason := None), e, "start", NoteIn(e))
  {
  }

  lemma CompleteMoves(ts: Tasks, e: TaskEvent, tid: string)
    requires tid in ts && ts[tid].status == InProgress && Named(e, tid, "complete")
    requires Given(e, "deliverable") || Filled(ts[tid].deliverable)
    requires Given(e, "verification") || Filled(ts[tid].verification)
    ensures var us := ApplyAll(ts, [e]);
            tid in us && us[tid].status == Completed && Filled(us[tid].deliverable) && Filled(us[tid].verification)
  {
    assert ApplyAll(Apply(ts, e), []) == Apply(ts, e) && [e][1..] == [];
  }
}
