/** The inbox adapter and its command line: files in pending and applied, acks on the server, crashes of
    either process, and power losses that undo renames no directory sync has reached. */
module InboxDelivery {
  import opened Options
  import opened DeliveryServer
  import opened Traces

  datatype Stage = ToDeliver | ToSync | ToReceive | ToAdvance

  datatype Worker = Idle | Working(page: seq<Event>, stage: Stage)

  datatype Progress = Opened | Acked | Moved

  /** A command-line run that found its file in pending: it may reply, then acks, moves the file, and syncs. */
  datatype Cli = Cli(event: Event, progress: Progress)

  /** pending and applied are what the processes see; the disk fields are what a power loss would leave. */
  datatype State = State(server: Server, cursor: nat, pending: set<Id>, applied: set<Id>,
                         diskPending: set<Id>, diskApplied: set<Id>, worker: Worker, clis: map<nat, Cli>)

  datatype Action =
    | FetchPage
    | SkipFile
    | ReplaceFile
    | SyncPending
    | AckReceived
    | Advance
    | Open(run: nat, event: Event)
    | Reply(run: nat)
    | AckApplied(run: nat)
    | MoveFile(run: nat)
    | SyncMove(run: nat)
    | Crash
    | CrashCli(run: nat)
    | PowerLoss(undone: set<Id>, cursor: nat)
    | Others(e: Event)
    | AppliedElsewhere(eventId: Id)

  predicate Visible(s: State, e: Id) { e in s.pending || e in s.applied }

  predicate Durable(s: State, e: Id) { e in s.diskPending || e in s.diskApplied }

  predicate Busy(s: State) { s.worker.Working? && s.worker.page != [] }

  predicate At(s: State, stage: Stage) { Busy(s) && s.worker.stage == stage }

  predicate CliAt(s: State, run: nat, progress: Progress) { run in s.clis && s.clis[run].progress == progress }

  predicate Enabled(s: State, agent: string, a: Action) {
    match a
    case FetchPage => s.worker.Idle?
    case SkipFile => At(s, ToDeliver) && Visible(s, s.worker.page[0].eventId)
    case ReplaceFile => At(s, ToDeliver) && !Visible(s, s.worker.page[0].eventId)
    case SyncPending => At(s, ToSync)
    case AckReceived => At(s, ToReceive)
    case Advance => At(s, ToAdvance)
    case Open(run, e) => run !in s.clis && e.eventId in s.pending
    case Reply(run) => CliAt(s, run, Opened)
    case AckApplied(run) => CliAt(s, run, Opened)
    case MoveFile(run) => CliAt(s, run, Acked)
    case SyncMove(run) => CliAt(s, run, Moved)
    case Crash => true
    case CrashCli(run) => true
    case PowerLoss(_, cursor) => cursor <= s.cursor
    case Others(e) => !Own(e, agent)
    case AppliedElsewhere(_) => true
  }

  /** A directory sync reaches every rename made before it. */
  function Synced(s: State): State { s.(diskPending := s.pending, diskApplied := s.applied) }

  /** Undone renames fall back to what is on disk, whole; everything in memory is gone. */
  function AfterLoss(s: State, undone: set<Id>, cursor: nat): State {
    Synced(s.(pending := (s.pending - undone) + (s.diskPending * undone),
              applied := (s.applied - undone) + (s.diskApplied * undone),
              cursor := cursor, worker := Idle, clis := map[]))
  }

  function Next(s: State, agent: string, a: Action): State
    requires Enabled(s, agent, a)
  {
    match a
    case FetchPage =>
      var page := Fetch(s.server, agent, s.cursor);
      s.(worker := if page == [] then Idle else Working(page, ToDeliver))
    // A file already in either directory is left where it is, and not synced again.
    case SkipFile => s.(worker := Working(s.worker.page, ToReceive))
    // The contents are synced before the rename; the directory entry is synced after it.
    case ReplaceFile => s.(pending := s.pending + {s.worker.page[0].eventId}, worker := Working(s.worker.page, ToSync))
    case SyncPending => Synced(s).(worker := Working(s.worker.page, ToReceive))
    case AckReceived =>
      s.(server := AddAck(s.server, s.worker.page[0].eventId, Received), worker := Working(s.worker.page, ToAdvance))
    case Advance =>
      s.(cursor := if s.cursor > s.worker.page[0].id then s.cursor else s.worker.page[0].id,
         worker := if |s.worker.page| == 1 then Idle else Working(s.worker.page[1..], ToDeliver))
    case Open(run, e) => s.(clis := s.clis[run := Cli(e, Opened)])
    case Reply(run) => s.(server := Post(s.server, ReplyTo(s.clis[run].event, agent, Plain, false)))
    case AckApplied(run) =>
      s.(server := AddAck(s.server, s.clis[run].event.eventId, Applied), clis := s.clis[run := s.clis[run].(progress := Acked)])
    // The move fails when another run already made it.
    case MoveFile(run) =>
      var e := s.clis[run].event.eventId;
      if e in s.pending
      then s.(pending := s.pending - {e}, applied := s.applied + {e}, clis := s.clis[run := s.clis[run].(progress := Moved)])
      else s.(clis := s.clis - {run})
    case SyncMove(run) => Synced(s).(clis := s.clis - {run})
    case Crash => s.(worker := Idle)
    case CrashCli(run) => s.(clis := s.clis - {run})
    case PowerLoss(undone, cursor) => AfterLoss(s, undone, cursor)
    case Others(e) => s.(server := Post(s.server, e))
    case AppliedElsewhere(eventId) => s.(server := AddAck(s.server, eventId, Applied))
  }

  predicate IsInit(s: State) {
    && s.server == Server([], {}) && s.cursor == 0 && s.pending == {} && s.applied == {}
    && s.diskPending == {} && s.diskApplied == {} && s.worker == Idle && s.clis == map[]
  }

  ghost function StepBy(agent: string): (State, Action, State) -> bool {
    (s, a, s') => Enabled(s, agent, a) && s' == Next(s, agent, a)
  }

  ghost predicate IsRun(ss: seq<State>, acts: seq<Action>, agent: string) {
    Chain(ss, acts, StepBy(agent)) && IsInit(ss[0])
  }

  lemma RunStep(ss: seq<State>, acts: seq<Action>, agent: string, i: nat)
    requires IsRun(ss, acts, agent) && i < |acts|
    ensures Enabled(ss[i], agent, acts[i]) && ss[i + 1] == Next(ss[i], agent, acts[i])
  {
    assert StepBy(agent)(ss[i], acts[i], ss[i + 1]);
  }

  // ------------------------------------------------ what holds in every run

  /** A file is in one directory, is never deleted, and in applied only after its ack. */
  ghost predicate FilesOk(s: State) {
    && s.pending !! s.applied && s.diskPending !! s.diskApplied
    && s.diskPending <= s.pending + s.applied && s.diskApplied <= s.applied
    && (forall e :: e in s.applied ==> IsApplied(s.server, e))
    && (forall run :: run in s.clis && s.clis[run].progress != Opened ==> IsApplied(s.server, s.clis[run].event.eventId))
  }

  predicate PageOk(s: State, agent: string) {
    s.worker.Working? ==>
      && s.worker.page != [] && Rising(s.worker.page) && OnServer(s.server, s.worker.page)
      && s.cursor < s.worker.page[0].id && Covers(s.server, agent, s.cursor, s.worker.page)
      && (s.worker.stage != ToDeliver ==> Visible(s, s.worker.page[0].eventId))
  }

  /** The cursor never runs ahead of the ledger. */
  predicate CursorBehind(s: State) { s.cursor < NextId(s.server) }

  ghost predicate Inv(s: State, agent: string) {
    ServerOk(s.server, agent) && PageOk(s, agent) && CursorBehind(s) && FilesOk(s)
  }

  lemma ServerStepKeeps(s: State, agent: string, server: Server)
    requires Inv(s, agent) && ServerOk(server, agent) && ServerGrows(s.server, server)
    ensures Inv(s.(server := server), agent)
  {
    if s.worker.Working? {
      CoversStays(s.server, server, agent, s.cursor, s.worker.page);
    }
    LastGrows(s.server, server);
  }

  lemma AdvanceKeeps(s: State, agent: string)
    requires Inv(s, agent) && Enabled(s, agent, Advance)
    ensures Inv(Next(s, agent, Advance), agent)
  {
    var page := s.worker.page;
    CoversRest(s.server, agent, s.cursor, page);
    assert page[0] in page;
    var k :| 0 <= k < |s.server.events| && s.server.events[k] == page[0];
    assert s.server.events[k].id <= s.server.events[|s.server.events| - 1].id;
  }

  /** Steps that leave server, cursor and page alone. */
  lemma FilesStepKeeps(s: State, agent: string, s': State)
    requires Inv(s, agent) && FilesOk(s')
    requires s'.server == s.server && s'.cursor <= s.cursor
    requires s'.worker.Idle? || (s.worker.Working? && s'.worker.Working? && s'.worker.page == s.worker.page && s'.cursor == s.cursor)
    requires s'.worker.Working? && s'.worker.stage != ToDeliver ==> Visible(s', s'.worker.page[0].eventId)
    ensures Inv(s', agent)
  {
  }

  lemma LossKeepsFiles(s: State, undone: set<Id>, cursor: nat)
    requires FilesOk(s)
    ensures FilesOk(AfterLoss(s, undone, cursor))
    ensures forall e :: Durable(s, e) ==> Visible(AfterLoss(s, undone, cursor), e)
  {
  }

  lemma CliStepKeeps(s: State, agent: string, a: Action)
    requires Inv(s, agent) && Enabled(s, agent, a)
    requires a.Open? || a.Reply? || a.AckApplied? || a.MoveFile? || a.SyncMove? || a.CrashCli?
    ensures Inv(Next(s, agent, a), agent)
  {
    var s' := Next(s, agent, a);
    if a.Reply? {
      PostGrows(s.server, agent, ReplyTo(s.clis[a.run].event, agent, Plain, false));
      ServerStepKeeps(s, agent, s'.server);
    } else if a.AckApplied? {
      ServerStepKeeps(s, agent, s'.server);
      FilesStepKeeps(s.(server := s'.server), agent, s');
    } else {
      FilesStepKeeps(s, agent, s');
    }
  }

  lemma StepKeepsInv(s: State, agent: string, a: Action)
    requires Inv(s, agent) && Enabled(s, agent, a)
    ensures Inv(Next(s, agent, a), agent)
  {
    match a
    case FetchPage =>
      FetchCovers(s.server, agent, s.cursor);
      var page := Fetch(s.server, agent, s.cursor);
      assert page != [] ==> page[0] in page;
    case SkipFile => FilesStepKeeps(s, agent, Next(s, agent, a));
    case ReplaceFile => FilesStepKeeps(s, agent, Next(s, agent, a));
    case SyncPending => FilesStepKeeps(s, agent, Next(s, agent, a));
    case AckReceived => ServerStepKeeps(s, agent, Next(s, agent, a).server);
    case Advance => AdvanceKeeps(s, agent);
    case Crash => FilesStepKeeps(s, agent, Next(s, agent, a));
    case PowerLoss(undone, cursor) =>
      LossKeepsFiles(s, undone, cursor);
      FilesStepKeeps(s, agent, Next(s, agent, a));
    case Others(e) =>
      PostGrows(s.server, agent, e);
      ServerStepKeeps(s, agent, Next(s, agent, a).server);
    case AppliedElsewhere(_) => ServerStepKeeps(s, agent, Next(s, agent, a).server);
    case _ => CliStepKeeps(s, agent, a);
  }

  lemma {:induction false} RunInv(ss: seq<State>, acts: seq<Action>, agent: string, i: nat)
    requires IsRun(ss, acts, agent) && i < |ss|
    ensures Inv(ss[i], agent)
    decreases i
  {
    if i > 0 {
      RunInv(ss, acts, agent, i - 1);
      RunStep(ss, acts, agent, i - 1);
      StepKeepsInv(ss[i - 1], agent, acts[i - 1]);
    }
  }

  // -------------------------------------------------- what the acks promise

  /** A file visible to the processes that the next power loss may take away. */
  predicate Unsynced(s: State, e: Id) { Visible(s, e) && !Durable(s, e) }

  /** Only the file being delivered right now is unsynced. */
  ghost predicate Tidy(s: State) {
    forall e :: Unsynced(s, e) ==> At(s, ToSync) && s.worker.page[0].eventId == e
  }

  /** Every event of the agent at or below the cursor, and every received one, has a file or was applied. */
  ghost predicate NothingLost(s: State, agent: string) {
    && (forall i :: 0 <= i < |s.server.events| && ForAgent(s.server.events[i], agent) && s.server.events[i].id <= s.cursor ==>
          Visible(s, s.server.events[i].eventId) || IsApplied(s.server, s.server.events[i].eventId))
    && (forall e :: (e, Received) in s.server.acks ==> Visible(s, e) || IsApplied(s.server, e))
  }

  /** The same with a file that outlives a power loss. */
  ghost predicate DurablyKept(s: State, agent: string) {
    && (forall i :: 0 <= i < |s.server.events| && ForAgent(s.server.events[i], agent) && s.server.events[i].id <= s.cursor ==>
          Durable(s, s.server.events[i].eventId) || IsApplied(s.server, s.server.events[i].eventId))
    && (forall e :: (e, Received) in s.server.acks ==> Durable(s, e) || IsApplied(s.server, e))
  }

  lemma AdvanceReaches(s: State, agent: string, i: int)
    requires Inv(s, agent) && Enabled(s, agent, Advance)
    requires 0 <= i < |s.server.events| && ForAgent(s.server.events[i], agent) && s.server.events[i].id <= s.worker.page[0].id
    ensures s.server.events[i].id <= s.cursor || s.server.events[i] == s.worker.page[0] || IsApplied(s.server, s.server.events[i].eventId)
  {
    var e, page := s.server.events[i], s.worker.page;
    if e.id > s.cursor && e in page {
      var k :| 0 <= k < |page| && page[k] == e;
      assert k == 0;
    }
  }

  lemma NewEventsBeyond(s: State, agent: string, a: Action, i: int)
    requires Inv(s, agent) && Enabled(s, agent, a) && |s.server.events| <= i < |Next(s, agent, a).server.events|
    ensures Next(s, agent, a).server.events[i].id > s.cursor
  {
  }

  lemma OldEventsStay(s: State, agent: string, a: Action)
    requires Enabled(s, agent, a)
    ensures s.server.events <= Next(s, agent, a).server.events && s.server.acks <= Next(s, agent, a).server.acks
  {
  }

  lemma FilesNeverDeleted(s: State, agent: string, a: Action, e: Id)
    requires Enabled(s, agent, a) && Visible(s, e) && !a.PowerLoss?
    ensures Visible(Next(s, agent, a), e)
  {
  }

  lemma StepKeepsVisible(s: State, agent: string, a: Action)
    requires Inv(s, agent) && NothingLost(s, agent) && Enabled(s, agent, a) && !a.PowerLoss?
    ensures NothingLost(Next(s, agent, a), agent)
  {
    var s' := Next(s, agent, a);
    OldEventsStay(s, agent, a);
    forall i | 0 <= i < |s'.server.events| && ForAgent(s'.server.events[i], agent) && s'.server.events[i].id <= s'.cursor
      ensures Visible(s', s'.server.events[i].eventId) || IsApplied(s'.server, s'.server.events[i].eventId)
    {
      if i < |s.server.events| {
        assert s'.server.events[i] == s.server.events[i];
        if a == Advance { AdvanceReaches(s, agent, i); }
        if Visible(s, s.server.events[i].eventId) { FilesNeverDeleted(s, agent, a, s.server.events[i].eventId); }
      } else {
        NewEventsBeyond(s, agent, a, i);
      }
    }
    forall e | (e, Received) in s'.server.acks ensures Visible(s', e) || IsApplied(s'.server, e) {
      if Visible(s, e) { FilesNeverDeleted(s, agent, a, e); }
    }
  }

  ghost predicate NoPowerLoss(acts: seq<Action>, i: nat)
    requires i <= |acts|
  {
    forall j :: 0 <= j < i ==> !acts[j].PowerLoss?
  }

  lemma {:induction false} VisibleRun(ss: seq<State>, acts: seq<Action>, agent: string, i: nat)
    requires IsRun(ss, acts, agent) && i < |ss| && NoPowerLoss(acts, i)
    ensures NothingLost(ss[i], agent)
    decreases i
  {
    if i > 0 {
      VisibleRun(ss, acts, agent, i - 1);
      RunInv(ss, acts, agent, i - 1);
      RunStep(ss, acts, agent, i - 1);
      StepKeepsVisible(ss[i - 1], agent, acts[i - 1]);
    }
  }

  /** Across process crashes of adapter and command line at any point: an event at or below the cursor is in exactly
      one directory unless it was applied before it got there, so is a received one, and a file in applied has its ack. */
  lemma CrashSafeInbox(ss: seq<State>, acts: seq<Action>, agent: string, i: nat, e: Event)
    requires IsRun(ss, acts, agent) && i < |ss| && NoPowerLoss(acts, i) && e in ss[i].server.events && ForAgent(e, agent)
    ensures e.id <= ss[i].cursor ==> Visible(ss[i], e.eventId) || IsApplied(ss[i].server, e.eventId)
    ensures (e.eventId, Received) in ss[i].server.acks ==> Visible(ss[i], e.eventId) || IsApplied(ss[i].server, e.eventId)
    ensures !(e.eventId in ss[i].pending && e.eventId in ss[i].applied)
    ensures e.eventId in ss[i].applied ==> IsApplied(ss[i].server, e.eventId)
  {
    RunInv(ss, acts, agent, i);
    VisibleRun(ss, acts, agent, i);
  }

  // ------------------------------------------------------------- power losses

  /** The step that gives this event a file. */
  predicate Creates(s: State, a: Action, e: Id) { a.ReplaceFile? && Busy(s) && s.worker.page[0].eventId == e }

  predicate Syncs(a: Action) { a.SyncPending? || a.SyncMove? || a.PowerLoss? }

  ghost predicate CreatedUnsynced(ss: seq<State>, acts: seq<Action>, j: nat, i: nat, e: Id)
    requires j < i <= |acts| <= |ss|
  {
    Creates(ss[j], acts[j], e) && forall k :: j < k < i ==> !Syncs(acts[k])
  }

  lemma UnsyncedStep(s: State, agent: string, a: Action, e: Id)
    requires Inv(s, agent) && Enabled(s, agent, a)
    ensures Unsynced(Next(s, agent, a), e) <==> (Creates(s, a, e) || (Unsynced(s, e) && !Syncs(a)))
  {
    if a.PowerLoss? { LossKeepsFiles(s, a.undone, a.cursor); }
  }

  /** A file is at the mercy of a power loss exactly when no directory sync and no power loss came after its rename. */
  lemma {:induction false} UnsyncedExactly(ss: seq<State>, acts: seq<Action>, agent: string, i: nat, e: Id)
    requires IsRun(ss, acts, agent) && i < |ss|
    ensures Unsynced(ss[i], e) <==> exists j: nat :: j < i && CreatedUnsynced(ss, acts, j, i, e)
    decreases i
  {
    if i > 0 {
      var n := i - 1;
      UnsyncedExactly(ss, acts, agent, n, e);
      RunInv(ss, acts, agent, n);
      RunStep(ss, acts, agent, n);
      UnsyncedStep(ss[n], agent, acts[n], e);
      if Creates(ss[n], acts[n], e) { assert CreatedUnsynced(ss, acts, n, i, e); }
      if Unsynced(ss[n], e) && !Syncs(acts[n]) {
        var j: nat :| j < n && CreatedUnsynced(ss, acts, j, n, e);
        assert CreatedUnsynced(ss, acts, j, i, e);
      }
      if j: nat :| j < i && CreatedUnsynced(ss, acts, j, i, e) {
        if j < n { assert CreatedUnsynced(ss, acts, j, n, e); }
      }
    }
  }

  /** The adapter died between the rename and the directory sync. */
  predicate DiesInWindow(s: State, a: Action) { a.Crash? && At(s, ToSync) }

  lemma StepKeepsTidy(s: State, agent: string, a: Action)
    requires Inv(s, agent) && Tidy(s) && Enabled(s, agent, a) && !DiesInWindow(s, a)
    ensures Tidy(Next(s, agent, a))
  {
    var s' := Next(s, agent, a);
    forall e | Unsynced(s', e) ensures At(s', ToSync) && s'.worker.page[0].eventId == e {
      UnsyncedStep(s, agent, a, e);
    }
  }

  /** The received ack that a step gives. */
  predicate Acknowledges(s: State, a: Action, e: Id) { a.AckReceived? && Busy(s) && s.worker.page[0].eventId == e }

  ghost predicate NoDeathInWindow(ss: seq<State>, acts: seq<Action>, i: nat)
    requires i <= |acts| <= |ss|
  {
    forall j :: 0 <= j < i ==> !DiesInWindow(ss[j], acts[j])
  }

  lemma {:induction false} TidyRun(ss: seq<State>, acts: seq<Action>, agent: string, i: nat)
    requires IsRun(ss, acts, agent) && i < |ss| && NoDeathInWindow(ss, acts, i)
    ensures Tidy(ss[i])
    decreases i
  {
    if i > 0 {
      TidyRun(ss, acts, agent, i - 1);
      RunInv(ss, acts, agent, i - 1);
      RunStep(ss, acts, agent, i - 1);
      StepKeepsTidy(ss[i - 1], agent, acts[i - 1]);
    }
  }

  /** A received ack is given for a durable file exactly when a directory sync came after the file's rename;
      where none did, the adapter that renamed it died before its sync. */
  lemma AckedDurablyExactly(ss: seq<State>, acts: seq<Action>, agent: string, i: nat, e: Id)
    requires IsRun(ss, acts, agent) && i < |acts| && Acknowledges(ss[i], acts[i], e)
    ensures Durable(ss[i], e) <==> !exists j: nat :: j < i && CreatedUnsynced(ss, acts, j, i, e)
    ensures !Durable(ss[i], e) ==> !NoDeathInWindow(ss, acts, i)
  {
    RunInv(ss, acts, agent, i);
    RunStep(ss, acts, agent, i);
    UnsyncedExactly(ss, acts, agent, i, e);
    if NoDeathInWindow(ss, acts, i) { TidyRun(ss, acts, agent, i); }
  }

  lemma DurableStays(s: State, agent: string, a: Action, e: Id)
    requires Inv(s, agent) && Enabled(s, agent, a) && Durable(s, e)
    ensures Durable(Next(s, agent, a), e) && Visible(Next(s, agent, a), e)
    ensures e in s.diskApplied ==> e in Next(s, agent, a).diskApplied
  {
    if a.PowerLoss? { LossKeepsFiles(s, a.undone, a.cursor); }
  }

  lemma StepKeepsDurable(s: State, agent: string, a: Action)
    requires Inv(s, agent) && Tidy(s) && DurablyKept(s, agent) && Enabled(s, agent, a)
    ensures DurablyKept(Next(s, agent, a), agent)
  {
    var s' := Next(s, agent, a);
    OldEventsStay(s, agent, a);
    forall e | Durable(s, e) ensures Durable(s', e) { DurableStays(s, agent, a, e); }
    if At(s, ToReceive) || At(s, ToAdvance) { assert !Unsynced(s, s.worker.page[0].eventId); }
    forall i | 0 <= i < |s'.server.events| && ForAgent(s'.server.events[i], agent) && s'.server.events[i].id <= s'.cursor
      ensures Durable(s', s'.server.events[i].eventId) || IsApplied(s'.server, s'.server.events[i].eventId)
    {
      if i < |s.server.events| {
        assert s'.server.events[i] == s.server.events[i];
        if a == Advance { AdvanceReaches(s, agent, i); }
      } else {
        NewEventsBeyond(s, agent, a, i);
      }
    }
  }

  /** Across power losses too, as long as the adapter never dies between a rename and its sync: what lies at or
      below the cursor, and what was received, has a file that no power loss takes away, or was applied. */
  lemma {:induction false} PowerSafeInbox(ss: seq<State>, acts: seq<Action>, agent: string, i: nat)
    requires IsRun(ss, acts, agent) && i < |ss| && NoDeathInWindow(ss, acts, i)
    ensures DurablyKept(ss[i], agent)
    decreases i
  {
    if i > 0 {
      PowerSafeInbox(ss, acts, agent, i - 1);
      RunInv(ss, acts, agent, i - 1);
      TidyRun(ss, acts, agent, i - 1);
      RunStep(ss, acts, agent, i - 1);
      StepKeepsDurable(ss[i - 1], agent, acts[i - 1]);
    }
  }

  /** The next power loss can take a file away exactly when it is unsynced. */
  lemma LossTakesExactlyUnsynced(s: State, agent: string, e: Id)
    requires Inv(s, agent) && Visible(s, e)
    ensures Unsynced(s, e) <==> exists undone :: !Visible(AfterLoss(s, undone, s.cursor), e)
  {
    if Unsynced(s, e) { assert !Visible(AfterLoss(s, {e}, s.cursor), e); }
    forall undone ensures Durable(s, e) ==> Visible(AfterLoss(s, undone, s.cursor), e) {
      LossKeepsFiles(s, undone, s.cursor);
    }
  }

  /** A durable file never disappears, whatever happens, and never leaves applied. */
  lemma {:induction false} FilesStay(ss: seq<State>, acts: seq<Action>, agent: string, i: nat, j: nat, e: Id)
    requires IsRun(ss, acts, agent) && i <= j < |ss| && Durable(ss[i], e)
    ensures Durable(ss[j], e) && Visible(ss[j], e) && (e in ss[i].diskApplied ==> e in ss[j].diskApplied)
    decreases j
  {
    RunInv(ss, acts, agent, j);
    if i < j {
      FilesStay(ss, acts, agent, i, j - 1, e);
      RunInv(ss, acts, agent, j - 1);
      RunStep(ss, acts, agent, j - 1);
      DurableStays(ss[j - 1], agent, acts[j - 1], e);
    }
  }

  ghost predicate Reaches(ss: seq<State>, acts: seq<Action>, agent: string, s: State) {
    IsRun(ss, acts, agent) && ss[|acts|] == s
  }

  lemma RunExtends(ss: seq<State>, acts: seq<Action>, agent: string, s: State, a: Action, s': State)
    requires Reaches(ss, acts, agent, s) && Enabled(s, agent, a) && s' == Next(s, agent, a)
    ensures Reaches(ss + [s'], acts + [a], agent, s')
  {
    ChainExtends(ss, acts, StepBy(agent), a, s');
  }

  /** The adapter renames the file and dies before the sync. */
  lemma DiesUnsynced(agent: string, e: Event) returns (ss: seq<State>, acts: seq<Action>, s: State)
    requires e == Event(1, Given("request"), "sender", agent, None, false)
    ensures Reaches(ss, acts, agent, s)
    ensures s == State(Server([e], {}), 0, {e.eventId}, {}, {}, {}, Idle, map[])
  {
    s := State(Server([], {}), 0, {}, {}, {}, {}, Idle, map[]);
    ss, acts := [s], [];
    var t := s.(server := Server([e], {}));
    assert [] + [e] == [e] && Next(s, agent, Others(e)) == t;
    RunExtends(ss, acts, agent, s, Others(e), t);
    ss, acts, s := ss + [t], acts + [Others(e)], t;
    FetchOne(e, agent);
    t := s.(worker := Working([e], ToDeliver));
    RunExtends(ss, acts, agent, s, FetchPage, t);
    ss, acts, s := ss + [t], acts + [FetchPage], t;
    t := s.(pending := {e.eventId}, worker := Working([e], ToSync));
    assert {} + {e.eventId} == {e.eventId} && Next(s, agent, ReplaceFile) == t;
    RunExtends(ss, acts, agent, s, ReplaceFile, t);
    ss, acts, s := ss + [t], acts + [ReplaceFile], t;
    t := s.(worker := Idle);
    RunExtends(ss, acts, agent, s, Crash, t);
    ss, acts, s := ss + [t], acts + [Crash], t;
  }

  /** A received event that is gone: its first delivery died before the sync, its second found the file and did
      not sync, and the power failed after the cursor had passed it. */
  lemma ReceivedButLost(agent: string) returns (ss: seq<State>, acts: seq<Action>, s: State, e: Event)
    ensures Reaches(ss, acts, agent, s) && e in s.server.events && ForAgent(e, agent)
    ensures e.id <= s.cursor && (e.eventId, Received) in s.server.acks
    ensures !Visible(s, e.eventId) && !IsApplied(s.server, e.eventId)
  {
    e := Event(1, Given("request"), "sender", agent, None, false);
    ss, acts, s := DiesUnsynced(agent, e);
    FetchOne(e, agent);
    var t := s.(worker := Working([e], ToDeliver));
    RunExtends(ss, acts, agent, s, FetchPage, t);
    ss, acts, s := ss + [t], acts + [FetchPage], t;
    t := s.(worker := Working([e], ToReceive));
    RunExtends(ss, acts, agent, s, SkipFile, t);
    ss, acts, s := ss + [t], acts + [SkipFile], t;
    t := Next(s, agent, AckReceived);
    RunExtends(ss, acts, agent, s, AckReceived, t);
    ss, acts, s := ss + [t], acts + [AckReceived], t;
    t := Next(s, agent, Advance);
    RunExtends(ss, acts, agent, s, Advance, t);
    ss, acts, s := ss + [t], acts + [Advance], t;
    t := Next(s, agent, PowerLoss({e.eventId}, 1));
    RunExtends(ss, acts, agent, s, PowerLoss({e.eventId}, 1), t);
    ss, acts, s := ss + [t], acts + [PowerLoss({e.eventId}, 1)], t;
  }

  // ------------------------------------------------------------------- the code

  function ReceivedOf(es: seq<Event>): set<(Id, AckType)> { set e | e in es :: (e.eventId, Received) }

  lemma NoIds()
    ensures IdsOf([]) == {} && ReceivedOf([]) == {}
  {
  }

  lemma PageNext(page: seq<Event>, n: nat)
    requires n < |page|
    ensures IdsOf(page[..n + 1]) == IdsOf(page[..n]) + {page[n].eventId}
    ensures ReceivedOf(page[..n + 1]) == ReceivedOf(page[..n]) + {(page[n].eventId, Received)}
  {
    assert page[..n + 1] == page[..n] + [page[n]];
  }

  class Inbox {
    const agent: string
    var server: Server
    var since: nat
    var pending: set<Id>
    var applied: set<Id>
    var diskPending: set<Id>
    var diskApplied: set<Id>
    ghost var trace: seq<State>

    constructor (agent: string, server: Server, since: nat, pending: set<Id>, applied: set<Id>)
      ensures this.agent == agent && this.server == server && this.since == since
      ensures this.pending == pending && this.applied == applied && diskPending == pending && diskApplied == applied
      ensures Reached(Snapshot(Idle, map[]))
    {
      this.agent, this.server, this.since, this.pending, this.applied := agent, server, since, pending, applied;
      diskPending, diskApplied := pending, applied;
      trace := [State(server, since, pending, applied, pending, applied, Idle, map[])];
      new;
      assert Chain(trace, [], StepBy(agent));
    }

    ghost function Snapshot(worker: Worker, clis: map<nat, Cli>): State
      reads this
    {
      State(server, since, pending, applied, diskPending, diskApplied, worker, clis)
    }

    /** The trace so far is a run of the machine and ends in this state. */
    ghost predicate Reached(s: State)
      reads this
    {
      Steps(trace, StepBy(agent)) && trace[|trace| - 1] == s
    }

    ghost method Log(s: State, a: Action)
      requires Reached(s) && Enabled(s, agent, a)
      modifies this`trace
      ensures Reached(Next(s, agent, a)) && old(trace) <= trace
    {
      StepsExtend(trace, StepBy(agent), a, Next(s, agent, a));
      trace := trace + [Next(s, agent, a)];
    }

    method SyncDirectories()
      modifies this`diskPending, this`diskApplied
      ensures diskPending == pending && diskApplied == applied
    {
      diskPending, diskApplied := pending, applied;
    }

    /** A file that exists in either directory is left alone; a new one is renamed into place and synced. */
    method Deliver(event: Event, ghost page: seq<Event>, ghost clis: map<nat, Cli>)
      requires page != [] && page[0] == event && Reached(Snapshot(Working(page, ToDeliver), clis))
      modifies this`pending, this`diskPending, this`diskApplied, this`trace
      ensures Reached(Snapshot(Working(page, ToReceive), clis)) && old(trace) <= trace
      ensures pending == (if event.eventId in old(applied) then old(pending) else old(pending) + {event.eventId})
      ensures if event.eventId in old(pending) || event.eventId in old(applied)
              then diskPending == old(diskPending) && diskApplied == old(diskApplied)
              else diskPending == pending && diskApplied == applied
    {
      assert event.eventId in pending ==> pending + {event.eventId} == pending;
      if event.eventId in pending || event.eventId in applied {
        Log(Snapshot(Working(page, ToDeliver), clis), SkipFile);
        return;
      }
      Log(Snapshot(Working(page, ToDeliver), clis), ReplaceFile);
      pending := pending + {event.eventId};
      Log(Snapshot(Working(page, ToSync), clis), SyncPending);
      SyncDirectories();
    }

    method Ack(eventId: Id, t: AckType)
      modifies this`server
      ensures server == AddAck(old(server), eventId, t)
    {
      server := server.(acks := server.acks + {(eventId, t)});
    }

    /** Write, then ack, then move the cursor, for the first event of the page. */
    method Process(event: Event, ghost page: seq<Event>, ghost clis: map<nat, Cli>)
      requires page != [] && page[0] == event && Reached(Snapshot(Working(page, ToDeliver), clis))
      modifies this`server, this`since, this`pending, this`diskPending, this`diskApplied, this`trace
      ensures Reached(Snapshot(if |page| == 1 then Idle else Working(page[1..], ToDeliver), clis)) && old(trace) <= trace
      ensures server == old(server).(acks := old(server).acks + {(event.eventId, Received)})
      ensures since == if event.id > old(since) then event.id else old(since)
      ensures pending == (if event.eventId in applied then old(pending) else old(pending) + {event.eventId})
      ensures if event.eventId in old(pending) || event.eventId in applied
              then diskPending == old(diskPending) && diskApplied == old(diskApplied)
              else diskPending == pending && diskApplied == applied
    {
      Deliver(event, page, clis);
      Log(Snapshot(Working(page, ToReceive), clis), AckReceived);
      Ack(event.eventId, Received);
      Log(Snapshot(Working(page, ToAdvance), clis), Advance);
      since := if since > event.id then since else event.id;
    }

    /** One polling round of the inbox adapter, as a run of the machine: every event of the page that had no file gets a
        durable one, every event of the page is received, and the cursor ends at the last. */
    method RunOnce(ghost clis: map<nat, Cli>) returns (delivered: nat)
      requires Reached(Snapshot(Idle, clis))
      modifies this`server, this`since, this`pending, this`diskPending, this`diskApplied, this`trace
      ensures Reached(Snapshot(Idle, clis)) && old(trace) <= trace
      ensures var page := Fetch(old(server), agent, old(since));
              && delivered == |page| && server == old(server).(acks := old(server).acks + ReceivedOf(page))
              && pending == old(pending) + (IdsOf(page) - applied)
              && (Rising(old(server).events) ==> since == if page == [] then old(since) else page[|page| - 1].id)
              && forall id :: id in IdsOf(page) && id !in old(pending) && id !in applied ==> id in diskPending
    {
      var page := Fetch(server, agent, since);
      if Rising(server.events) { FetchExactly(server, agent, since); }
      Log(Snapshot(Idle, clis), FetchPage);
      delivered := DeliverPage(page, clis);
    }

    method DeliverPage(page: seq<Event>, ghost clis: map<nat, Cli>) returns (delivered: nat)
      requires Reached(Snapshot(if page == [] then Idle else Working(page, ToDeliver), clis))
      modifies this`server, this`since, this`pending, this`diskPending, this`diskApplied, this`trace
      ensures Reached(Snapshot(Idle, clis)) && old(trace) <= trace && delivered == |page|
      ensures server == old(server).(acks := old(server).acks + ReceivedOf(page))
      ensures pending == old(pending) + (IdsOf(page) - applied)
      ensures Rising(page) && (page != [] ==> old(since) < page[0].id) ==>
                since == if page == [] then old(since) else page[|page| - 1].id
      ensures forall id :: id in IdsOf(page) && id !in old(pending) && id !in applied ==> id in diskPending
    {
      hide Next, Enabled, IdsOf, ReceivedOf;
      NoIds();
      delivered := 0;
      assert page[0..] == page && page[..0] == [];
      while delivered < |page|
        invariant delivered <= |page| && old(trace) <= trace
        invariant Reached(Snapshot(if delivered == |page| then Idle else Working(page[delivered..], ToDeliver), clis))
        invariant server == old(server).(acks := old(server).acks + ReceivedOf(page[..delivered]))
        invariant pending == old(pending) + (IdsOf(page[..delivered]) - applied)
        invariant Rising(page) && (page != [] ==> old(since) < page[0].id) ==>
                    since == if delivered == 0 then old(since) else page[delivered - 1].id
        invariant forall id :: id in IdsOf(page[..delivered]) && id !in old(pending) && id !in applied ==> id in diskPending
      {
        assert page[delivered..][1..] == page[delivered + 1..];
        PageNext(page, delivered);
        Process(page[delivered], page[delivered..], clis);
        delivered := delivered + 1;
      }
      assert page[..|page|] == page;
    }

    method MarkApplied(eventId: Id)
      requires eventId in pending
      modifies this`pending, this`applied
      ensures pending == old(pending) - {eventId} && applied == old(applied) + {eventId}
    {
      pending := pending - {eventId};
      applied := applied + {eventId};
    }

    /** The apply and reply commands: reply first if asked to, then ack, then move the file and sync. */
    method Command(event: Event, reply: bool, ghost worker: Worker) returns (found: bool)
      requires Reached(Snapshot(worker, map[]))
      modifies this`server, this`pending, this`applied, this`diskPending, this`diskApplied, this`trace
      ensures Reached(Snapshot(worker, map[])) && old(trace) <= trace
      ensures found == (event.eventId in old(pending))
      ensures !found ==> Snapshot(worker, map[]) == old(Snapshot(worker, map[]))
      ensures found ==>
                && pending == old(pending) - {event.eventId} && applied == old(applied) + {event.eventId}
                && diskPending == pending && diskApplied == applied
                && server.acks == old(server).acks + {(event.eventId, Applied)}
                && if reply then RepliedTo(old(server), server, event, agent, Plain, false) else server.events == old(server).events
    {
      found := event.eventId in pending;
      if !found {
        return;
      }
      Log(Snapshot(worker, map[]), Open(0, event));
      if reply {
        Log(Snapshot(worker, One(event, Opened)), Reply(0));
        PostedIs(server, event, agent, Plain, false);
        server := Post(server, ReplyTo(event, agent, Plain, false));
      }
      AckFile(event, worker);
      MoveFileAndSync(event, worker);
    }

    method AckFile(event: Event, ghost worker: Worker)
      requires Reached(Snapshot(worker, One(event, Opened)))
      modifies this`server, this`trace
      ensures Reached(Snapshot(worker, One(event, Acked))) && old(trace) <= trace
      ensures server == old(server).(acks := old(server).acks + {(event.eventId, Applied)})
    {
      OneUpdates(event, Opened, Acked);
      Log(Snapshot(worker, One(event, Opened)), AckApplied(0));
      Ack(event.eventId, Applied);
    }

    method MoveFileAndSync(event: Event, ghost worker: Worker)
      requires event.eventId in pending && Reached(Snapshot(worker, One(event, Acked)))
      modifies this`pending, this`applied, this`diskPending, this`diskApplied, this`trace
      ensures Reached(Snapshot(worker, map[])) && old(trace) <= trace
      ensures pending == old(pending) - {event.eventId} && applied == old(applied) + {event.eventId}
      ensures diskPending == pending && diskApplied == applied
    {
      OneUpdates(event, Acked, Moved);
      Log(Snapshot(worker, One(event, Acked)), MoveFile(0));
      MarkApplied(event.eventId);
      OneUpdates(event, Moved, Moved);
      Log(Snapshot(worker, One(event, Moved)), SyncMove(0));
      SyncDirectories();
    }
  }

  function One(event: Event, progress: Progress): map<nat, Cli> { map[0 := Cli(event, progress)] }

  lemma OneUpdates(event: Event, before: Progress, after: Progress)
    ensures One(event, before)[0 := Cli(event, before).(progress := after)] == One(event, after)
    ensures One(event, before) - {0} == map[]
  {
  }
}
