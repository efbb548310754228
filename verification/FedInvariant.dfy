/** What every federation transaction keeps on one node, and what no transaction ever takes back. */
module FedInvariant {
  import opened Options
  import opened FedSchema
  import opened FedNode
  import L = Ledger

  // ----------------------------------------------------------------- invariant

  predicate OutRowOk(e: string, row: Outbound, id: Identity) {
    && row.signed.event.eventId == e && ValidEvent(row.signed) && row.signed.origin == id.family
    && row.sig == Sig(id.key, EventDoc(row.signed), 0) && row.envelope == EventEnvelope(row.signed, row.sig)
    && row.targetFamily == row.signed.event.target.family && row.notifyIntent == SendFailedIntent(e)
  }

  predicate OutboundOk(outbound: map<string, Outbound>, id: Identity) {
    forall e :: e in outbound ==> OutRowOk(e, outbound[e], id)
  }

  predicate InRowOk(k: InKey, row: Inbound, id: Identity, reg: Registry) {
    && KeyOf(row.signed) == k && row.signed.event == row.event && row.event.target == row.target
    && ValidEvent(row.signed) && row.target.family == id.family
    && k.origin in reg && row.regKey == reg[k.origin].key && Verifies(row.regKey, EventDoc(row.signed), row.sig)
  }

  predicate InboundOk(inbound: map<InKey, Inbound>, id: Identity, reg: Registry) {
    forall k :: k in inbound ==> InRowOk(k, inbound[k], id, reg)
  }

  /** The local event of a federated one, field by field. */
  predicate IsCopy(e: L.Event, s: SignedEvent) {
    var ev := s.event;
    && e.eventId == ev.eventId && e.source == AddressText(ev.source) && e.target == ev.target.agent && e.kind == ev.kind
    && e.content.createdAt == ev.createdAt && e.content.requiresAck && e.content.sourceRef == None && e.actor == None
    && L.Get(e.content.payload, "text") == L.Text(ev.text)
    && L.Get(e.content.payload, "in_reply_to") == (if ev.inReplyTo.Some? then L.Text(ev.inReplyTo.value) else L.Null)
    && e.content.payload.Keys <= {"text", "in_reply_to"}
  }

  predicate HasCopy(events: seq<L.Event>, s: SignedEvent) {
    exists i :: 0 <= i < |events| && IsCopy(events[i], s)
  }

  predicate Copied(inbound: map<InKey, Inbound>, events: seq<L.Event>) {
    forall k :: k in inbound ==> HasCopy(events, inbound[k].signed)
  }

  /** Rows are unique by event id alone, whatever the origin. */
  predicate UniqueIn(inbound: map<InKey, Inbound>) {
    forall j, k :: j in inbound && k in inbound && j.eventId == k.eventId ==> j == k
  }

  predicate ReceiptRowOk(k: ReceiptKey, row: ReceiptOut, inbound: map<InKey, Inbound>, acks: map<AckKey, string>, id: Identity) {
    var ik := InKey(row.origin, k.eventId);
    && ValidKey(k) && row.issuer == id.family && row.issuerKeyId == id.keyId && IsTimestamp(row.at)
    && ik in inbound && inbound[ik].target == k.agent && row.sigHash == Sha256(inbound[ik].sig)
    && AckKey(k.eventId, k.agent.agent, k.ackType) in acks
    && (row.original.Some? ==> row.original.value == ComposeReceipt(id, k, row))
  }

  predicate ReceiptOutOk(rs: map<ReceiptKey, ReceiptOut>, inbound: map<InKey, Inbound>, acks: map<AckKey, string>, id: Identity) {
    forall k :: k in rs ==> ReceiptRowOk(k, rs[k], inbound, acks, id)
  }

  /** Acks name stored events. */
  predicate AcksOk(acks: map<AckKey, string>, events: seq<L.Event>) {
    forall a :: a in acks ==> L.HasId(events, a.eventId)
  }

  /** A stored receipt is signed by the registered key of the target's family over this node's own original. */
  predicate OriginalOk(o: Original, outbound: map<string, Outbound>, id: Identity, reg: Registry) {
    var rc := o.signed.receipt;
    && ValidKey(o.key) && o.key == ReceiptKey(rc.eventId, rc.agent, rc.ackType)
    && rc.eventId in outbound
    && var out := outbound[rc.eventId];
       && rc.origin == id.family && rc.agent == out.signed.event.target && rc.sigHash == Sha256(out.sig)
       && o.signed.issuer == rc.agent.family && o.issuer == o.signed.issuer
       && o.issuer in reg && Verifies(reg[o.issuer].key, ReceiptDoc(o.signed), o.sig)
  }

  predicate OriginalsOk(os: seq<Original>, outbound: map<string, Outbound>, id: Identity, reg: Registry) {
    forall i :: 0 <= i < |os| ==> OriginalOk(os[i], outbound, id, reg)
  }

  /** UNIQUE(event, agent, type, signature). */
  predicate DistinctOriginals(os: seq<Original>) {
    forall i, j :: 0 <= i < j < |os| ==> !(os[i].key == os[j].key && os[i].sig == os[j].sig)
  }

  /** Each merged receipt points at its lowest original, the only one that is not a variant. */
  predicate MergedOk(os: seq<Original>, receiptIn: map<ReceiptKey, nat>) {
    && (forall k :: k in receiptIn ==> receiptIn[k] < |os| && os[receiptIn[k]].key == k)
    && (forall i :: 0 <= i < |os| ==>
          && os[i].key in receiptIn && receiptIn[os[i].key] <= i
          && (os[i].variant <==> receiptIn[os[i].key] < i))
  }

  function ReceiptIntents(ks: set<ReceiptKey>): set<Intent> { set k | k in ks :: ReceiptIntent(k) }
  function SendFailedIntents(es: set<string>): set<Intent> { set e | e in es :: SendFailedIntent(e) }
  function ReceiptFailedIntents(ks: set<ReceiptKey>): set<Intent> { set k | k in ks :: ReceiptFailedIntent(k) }

  /** One notification per merged receipt, failed send and failed receipt, and no other. */
  predicate NotesOk(notes: set<Intent>, merged: set<ReceiptKey>, failedOut: set<string>, failedReceipts: set<ReceiptKey>) {
    notes == ReceiptIntents(merged) + SendFailedIntents(failedOut) + ReceiptFailedIntents(failedReceipts)
  }

  ghost predicate NodeInv(n: Node, id: Identity, reg: Registry) {
    && L.Valid(n.ledger)
    && OutboundOk(n.outbound, id)
    && InboundOk(n.inbound, id, reg) && UniqueIn(n.inbound) && Copied(n.inbound, n.ledger.events)
    && ReceiptOutOk(n.receiptOut, n.inbound, n.acks, id) && AcksOk(n.acks, n.ledger.events)
    && OriginalsOk(n.originals, n.outbound, id, reg) && DistinctOriginals(n.originals) && MergedOk(n.originals, n.receiptIn)
    && NotesOk(n.notifications.Keys, n.receiptIn.Keys, FailedOut(n.outbound), FailedReceipts(n.receiptOut))
  }

  // -------------------------------------------------------------------- growth

  predicate StatusLe(a: Status, b: Status) { a == b || a.Pending? }

  /** Same row but for retry state, and a status that only leaves pending. */
  predicate OutRowLe(a: Outbound, b: Outbound) {
    && a.(status := b.status, attempts := b.attempts, nextRetryAt := b.nextRetryAt, lastError := b.lastError) == b
    && StatusLe(a.status, b.status)
  }

  predicate ReceiptRowLe(a: ReceiptOut, b: ReceiptOut) {
    && a.(original := b.original, status := b.status, attempts := b.attempts, nextRetryAt := b.nextRetryAt,
          lastError := b.lastError) == b
    && (a.original.Some? ==> b.original == a.original)
    && StatusLe(a.status, b.status)
  }

  predicate OutLe(a: map<string, Outbound>, b: map<string, Outbound>) {
    forall e :: e in a ==> e in b && OutRowLe(a[e], b[e])
  }

  predicate InLe(a: map<InKey, Inbound>, b: map<InKey, Inbound>) {
    forall k :: k in a ==> k in b && a[k].(delivered := b[k].delivered) == b[k] && (a[k].delivered ==> b[k].delivered)
  }

  predicate ReceiptsLe(a: map<ReceiptKey, ReceiptOut>, b: map<ReceiptKey, ReceiptOut>) {
    forall k :: k in a ==> k in b && ReceiptRowLe(a[k], b[k])
  }

  predicate MergedLe(a: map<ReceiptKey, nat>, b: map<ReceiptKey, nat>) {
    forall k :: k in a ==> k in b && b[k] == a[k]
  }

  predicate NotesLe(a: map<Intent, Notification>, b: map<Intent, Notification>) {
    forall i :: i in a ==> i in b && a[i].(hintSent := b[i].hintSent, acked := b[i].acked) == b[i]
                           && (a[i].hintSent ==> b[i].hintSent) && (a[i].acked ==> b[i].acked)
  }

  /** Nothing committed is ever removed or rewritten. */
  predicate Grows(a: Node, b: Node) {
    && a.ledger.events <= b.ledger.events && a.originals <= b.originals && a.acks.Keys <= b.acks.Keys
    && OutLe(a.outbound, b.outbound) && InLe(a.inbound, b.inbound) && ReceiptsLe(a.receiptOut, b.receiptOut)
    && MergedLe(a.receiptIn, b.receiptIn) && NotesLe(a.notifications, b.notifications)
    && a.conflicts <= b.conflicts
  }

  lemma GrowsTransitive(a: Node, b: Node, c: Node)
    requires Grows(a, b) && Grows(b, c)
    ensures Grows(a, c)
  {
  }

  /** A stage, once reached, is never taken back. */
  lemma StageNeverDrops(a: Node, b: Node, e: string, agent: Addr)
    requires Grows(a, b)
    ensures Stage(a, e, agent) == Some("applied") ==> Stage(b, e, agent) == Some("applied")
    ensures Stage(a, e, agent).Some? ==> Stage(b, e, agent).Some?
  {
    assert forall k :: k in a.receiptIn ==> k in b.receiptIn;
  }

  // ---------------------------------------------------------- putting tables back

  lemma WithOutbound(n: Node, id: Identity, reg: Registry, out: map<string, Outbound>, notes: map<Intent, Notification>)
    requires NodeInv(n, id, reg) && OutboundOk(out, id) && OriginalsOk(n.originals, out, id, reg)
    requires NotesOk(notes.Keys, n.receiptIn.Keys, FailedOut(out), FailedReceipts(n.receiptOut))
    ensures NodeInv(n.(outbound := out, notifications := notes), id, reg)
  {
  }

  lemma WithInbound(n: Node, id: Identity, reg: Registry, inbound: map<InKey, Inbound>, ledger: L.Ledger)
    requires NodeInv(n, id, reg) && L.Valid(ledger)
    requires InboundOk(inbound, id, reg) && UniqueIn(inbound) && Copied(inbound, ledger.events)
    requires ReceiptOutOk(n.receiptOut, inbound, n.acks, id) && AcksOk(n.acks, ledger.events)
    ensures NodeInv(n.(inbound := inbound, ledger := ledger), id, reg)
  {
  }

  lemma WithReceipts(n: Node, id: Identity, reg: Registry, acks: map<AckKey, string>, rs: map<ReceiptKey, ReceiptOut>,
                     notes: map<Intent, Notification>)
    requires NodeInv(n, id, reg)
    requires ReceiptOutOk(rs, n.inbound, acks, id) && AcksOk(acks, n.ledger.events)
    requires NotesOk(notes.Keys, n.receiptIn.Keys, FailedOut(n.outbound), FailedReceipts(rs))
    ensures NodeInv(n.(acks := acks, receiptOut := rs, notifications := notes), id, reg)
  {
  }

  lemma WithMerged(n: Node, id: Identity, reg: Registry, os: seq<Original>, receiptIn: map<ReceiptKey, nat>,
                   notes: map<Intent, Notification>)
    requires NodeInv(n, id, reg)
    requires OriginalsOk(os, n.outbound, id, reg) && DistinctOriginals(os) && MergedOk(os, receiptIn)
    requires NotesOk(notes.Keys, receiptIn.Keys, FailedOut(n.outbound), FailedReceipts(n.receiptOut))
    ensures NodeInv(n.(originals := os, receiptIn := receiptIn, notifications := notes), id, reg)
  {
  }

  // --------------------------------------------------- outbound transactions keep

  /** Originals judged against an outbound table stay good in any later one. */
  lemma OriginalsStay(os: seq<Original>, out: map<string, Outbound>, more: map<string, Outbound>, id: Identity, reg: Registry)
    requires OriginalsOk(os, out, id, reg) && OutLe(out, more)
    ensures OriginalsOk(os, more, id, reg)
  {
    forall i | 0 <= i < |os| ensures OriginalOk(os[i], more, id, reg) {
      assert OriginalOk(os[i], out, id, reg);
    }
  }

  /** Replacing one row by a later form of itself. */
  lemma OutboundUpdate(out: map<string, Outbound>, id: Identity, e: string, row: Outbound)
    requires OutboundOk(out, id) && e in out && OutRowLe(out[e], row)
    ensures OutboundOk(out[e := row], id) && OutLe(out, out[e := row])
  {
  }

  lemma OutboundUpdateKeeps(n: Node, id: Identity, reg: Registry, e: string, row: Outbound, notes: map<Intent, Notification>)
    requires NodeInv(n, id, reg) && e in n.outbound && OutRowLe(n.outbound[e], row)
    requires NotesOk(notes.Keys, n.receiptIn.Keys, FailedOut(n.outbound[e := row]), FailedReceipts(n.receiptOut))
    ensures NodeInv(n.(outbound := n.outbound[e := row], notifications := notes), id, reg)
  {
    OutboundUpdate(n.outbound, id, e, row);
    OriginalsStay(n.originals, n.outbound, n.outbound[e := row], id, reg);
    WithOutbound(n, id, reg, n.outbound[e := row], notes);
  }

  lemma FailedOutSame(out: map<string, Outbound>, e: string, row: Outbound)
    requires !row.status.FailedPermanent? && (e in out ==> !out[e].status.FailedPermanent?)
    ensures FailedOut(out[e := row]) == FailedOut(out)
  {
  }

  lemma EnqueueKeeps(n: Node, id: Identity, reg: Registry, row: Outbound, cap: nat)
    requires NodeInv(n, id, reg) && OutRowOk(row.signed.event.eventId, row, id) && row.status.Pending?
    ensures NodeInv(Enqueue(n, row, cap).0, id, reg)
  {
    var e := row.signed.event.eventId;
    if Enqueue(n, row, cap).1 == Queued {
      FailedOutSame(n.outbound, e, row);
      OriginalsStay(n.originals, n.outbound, n.outbound[e := row], id, reg);
      WithOutbound(n, id, reg, n.outbound[e := row], n.notifications);
    }
  }

  lemma MarkOutboundSentKeeps(n: Node, id: Identity, reg: Registry, e: string)
    requires NodeInv(n, id, reg)
    ensures NodeInv(MarkOutboundSent(n, e), id, reg)
  {
    if OutPending(n, e) {
      var row := MarkOutboundSent(n, e).outbound[e];
      FailedOutSame(n.outbound, e, row);
      OutboundUpdateKeeps(n, id, reg, e, row, n.notifications);
    }
  }

  lemma MarkOutboundRetryKeeps(n: Node, id: Identity, reg: Registry, e: string, attempts: nat, at: string, error: string)
    requires NodeInv(n, id, reg)
    ensures NodeInv(MarkOutboundRetry(n, e, attempts, at, error), id, reg)
  {
    if OutPending(n, e) {
      var row := MarkOutboundRetry(n, e, attempts, at, error).outbound[e];
      FailedOutSame(n.outbound, e, row);
      OutboundUpdateKeeps(n, id, reg, e, row, n.notifications);
    }
  }

  lemma NotesGrow(notes: map<Intent, Notification>, intent: Intent, note: Notification)
    ensures Notify(notes, intent, note).Keys == notes.Keys + {intent} && NotesLe(notes, Notify(notes, intent, note))
  {
  }

  lemma FailedOutMore(out: map<string, Outbound>, e: string, row: Outbound)
    requires row.status.FailedPermanent?
    ensures SendFailedIntents(FailedOut(out[e := row])) == SendFailedIntents(FailedOut(out)) + {SendFailedIntent(e)}
  {
    assert FailedOut(out[e := row]) == FailedOut(out) + {e};
  }

  lemma FailOutboundKeeps(n: Node, id: Identity, reg: Registry, e: string, error: string)
    requires NodeInv(n, id, reg)
    ensures NodeInv(FailOutbound(n, e, error), id, reg)
  {
    if OutPending(n, e) {
      var n' := FailOutbound(n, e, error);
      assert OutRowOk(e, n.outbound[e], id);
      FailedOutMore(n.outbound, e, n'.outbound[e]);
      NotesGrow(n.notifications, SendFailedIntent(e), Notification("send_failed", Some(n.outbound[e].sourceLocal), e, false, false));
      OutboundUpdateKeeps(n, id, reg, e, n'.outbound[e], n'.notifications);
    }
  }

  // ------------------------------------------------------------ receiving an event

  /** The four outcomes exclude each other, and each says exactly which rows existed. */
  lemma ReceiveCases(n: Node, s: SignedEvent, sig: Signature, regKey: Key, now: nat)
    ensures var (n', r) := Receive(n, s, sig, regKey, now);
            && (r == StoredIn <==> KeyOf(s) !in n.inbound && !L.HasId(n.ledger.events, s.event.eventId))
            && (r == DuplicateIn <==> KeyOf(s) in n.inbound && n.inbound[KeyOf(s)].event == s.event)
            && (r == ConflictIn(SameIdDifferentContent) <==> KeyOf(s) in n.inbound && n.inbound[KeyOf(s)].event != s.event)
            && (r == ConflictIn(LocalEventIdCollision) <==>
                  KeyOf(s) !in n.inbound && L.HasId(n.ledger.events, s.event.eventId))
            && (r != StoredIn ==> n' == n.(conflicts := n'.conflicts))
  {
  }

  lemma CopyFound(events: seq<L.Event>, s: SignedEvent)
    requires HasCopy(events, s)
    ensures L.HasId(events, s.event.eventId)
  {
    var i :| 0 <= i < |events| && IsCopy(events[i], s);
    assert events[i].eventId == s.event.eventId;
  }

  lemma CommitCopies(l: L.Ledger, s: SignedEvent, now: nat)
    requires ValidEvent(s)
    ensures var l' := L.Commit(l, LocalRequest(s), now); l.events <= l'.events && HasCopy(l'.events, s)
  {
    var l' := L.Commit(l, LocalRequest(s), now);
    assert IsCopy(l'.events[|l.events|], s);
  }

  lemma CopyStays(events: seq<L.Event>, more: seq<L.Event>, s: SignedEvent)
    requires HasCopy(events, s) && events <= more
    ensures HasCopy(more, s)
  {
    var i :| 0 <= i < |events| && IsCopy(events[i], s);
    assert IsCopy(more[i], s);
  }

  lemma CopiesStay(inbound: map<InKey, Inbound>, events: seq<L.Event>, more: seq<L.Event>)
    requires Copied(inbound, events) && events <= more
    ensures Copied(inbound, more)
  {
    forall k | k in inbound ensures HasCopy(more, inbound[k].signed) {
      CopyStays(events, more, inbound[k].signed);
    }
  }

  lemma IdsStay(events: seq<L.Event>, more: seq<L.Event>, e: string)
    requires events <= more && L.HasId(events, e)
    ensures L.HasId(more, e)
  {
    var i :| 0 <= i < |events| && events[i].eventId == e;
    assert more[i].eventId == e;
  }

  lemma AcksStay(acks: map<AckKey, string>, events: seq<L.Event>, more: seq<L.Event>)
    requires AcksOk(acks, events) && events <= more
    ensures AcksOk(acks, more)
  {
    forall a | a in acks ensures L.HasId(more, a.eventId) { IdsStay(events, more, a.eventId); }
  }

  /** No inbound row has an id that no stored event has. */
  lemma FreshIdIsNew(inbound: map<InKey, Inbound>, events: seq<L.Event>, id: Identity, reg: Registry, e: string)
    requires InboundOk(inbound, id, reg) && Copied(inbound, events) && !L.HasId(events, e)
    ensures forall k :: k in inbound ==> k.eventId != e
  {
    forall k | k in inbound ensures k.eventId != e {
      assert InRowOk(k, inbound[k], id, reg);
      CopyFound(events, inbound[k].signed);
    }
  }

  lemma ReceiptRowsStay(rs: map<ReceiptKey, ReceiptOut>, inbound: map<InKey, Inbound>, more: map<InKey, Inbound>,
                        acks: map<AckKey, string>, id: Identity)
    requires ReceiptOutOk(rs, inbound, acks, id)
    requires InLe(inbound, more)
    ensures ReceiptOutOk(rs, more, acks, id)
  {
    forall r | r in rs ensures ReceiptRowOk(r, rs[r], more, acks, id) {
      assert ReceiptRowOk(r, rs[r], inbound, acks, id);
    }
  }

  /** The tables after a store, apart from the ledger's own validity. */
  lemma StoreTables(inbound: map<InKey, Inbound>, events: seq<L.Event>, more: seq<L.Event>, acks: map<AckKey, string>,
                    rs: map<ReceiptKey, ReceiptOut>, id: Identity, reg: Registry, k: InKey, row: Inbound)
    requires InboundOk(inbound, id, reg) && UniqueIn(inbound) && Copied(inbound, events)
    requires ReceiptOutOk(rs, inbound, acks, id) && AcksOk(acks, events)
    requires InRowOk(k, row, id, reg) && k !in inbound && !L.HasId(events, k.eventId)
    requires events <= more && HasCopy(more, row.signed)
    ensures var m := inbound[k := row];
            && InboundOk(m, id, reg) && UniqueIn(m) && Copied(m, more)
            && ReceiptOutOk(rs, m, acks, id) && AcksOk(acks, more)
  {
    var m := inbound[k := row];
    FreshIdIsNew(inbound, events, id, reg, k.eventId);
    CopiesStay(inbound, events, more);
    ReceiptRowsStay(rs, inbound, m, acks, id);
    AcksStay(acks, events, more);
  }

  lemma StoreKeeps(n: Node, id: Identity, reg: Registry, s: SignedEvent, row: Inbound, now: nat)
    requires NodeInv(n, id, reg) && InRowOk(KeyOf(s), row, id, reg) && row.signed == s
    requires KeyOf(s) !in n.inbound && !L.HasId(n.ledger.events, s.event.eventId)
    ensures NodeInv(n.(inbound := n.inbound[KeyOf(s) := row], ledger := L.Commit(n.ledger, LocalRequest(s), now)), id, reg)
  {
    var l := L.Commit(n.ledger, LocalRequest(s), now);
    L.AutomaticSeqIsFree(n.ledger, LocalRequest(s).source);
    L.CommitKeepsValid(n.ledger, LocalRequest(s), now);
    CommitCopies(n.ledger, s, now);
    StoreTables(n.inbound, n.ledger.events, l.events, n.acks, n.receiptOut, id, reg, KeyOf(s), row);
    WithInbound(n, id, reg, n.inbound[KeyOf(s) := row], l);
  }

  lemma NewRowOk(id: Identity, reg: Registry, s: SignedEvent, sig: Signature)
    requires ValidEvent(s) && s.event.target.family == id.family
    requires s.origin in reg && Verifies(reg[s.origin].key, EventDoc(s), sig)
    ensures InRowOk(KeyOf(s), NewInbound(s, sig, reg[s.origin].key), id, reg)
  {
  }

  lemma ConflictKeeps(n: Node, id: Identity, reg: Registry, c: Conflict)
    requires NodeInv(n, id, reg)
    ensures NodeInv(n.(conflicts := n.conflicts + [c]), id, reg)
  {
  }

  lemma ReceiveKeeps(n: Node, id: Identity, reg: Registry, s: SignedEvent, sig: Signature, now: nat)
    requires NodeInv(n, id, reg) && ValidEvent(s) && s.event.target.family == id.family
    requires s.origin in reg && Verifies(reg[s.origin].key, EventDoc(s), sig)
    ensures NodeInv(Receive(n, s, sig, reg[s.origin].key, now).0, id, reg)
  {
    var k := KeyOf(s);
    if k in n.inbound {
      ConflictKeeps(n, id, reg, Conflict(k, s.event, sig, SameIdDifferentContent));
    } else if L.HasId(n.ledger.events, k.eventId) {
      ConflictKeeps(n, id, reg, Conflict(k, s.event, sig, LocalEventIdCollision));
    } else {
      NewRowOk(id, reg, s, sig);
      StoreKeeps(n, id, reg, s, NewInbound(s, sig, reg[s.origin].key), now);
    }
  }

  lemma DeliveredRow(inbound: map<InKey, Inbound>, events: seq<L.Event>, id: Identity, reg: Registry, k: InKey)
    requires InboundOk(inbound, id, reg) && UniqueIn(inbound) && Copied(inbound, events) && k in inbound
    ensures var m := inbound[k := inbound[k].(delivered := true)];
            InboundOk(m, id, reg) && UniqueIn(m) && Copied(m, events) && InLe(inbound, m)
  {
    assert InRowOk(k, inbound[k], id, reg);
    assert HasCopy(events, inbound[k].signed);
  }

  lemma MarkDeliveredKeeps(n: Node, id: Identity, reg: Registry, k: InKey)
    requires NodeInv(n, id, reg)
    ensures NodeInv(MarkDelivered(n, k), id, reg)
  {
    if k in n.inbound {
      var row := n.inbound[k].(delivered := true);
      var m := n.inbound[k := row];
      DeliveredRow(n.inbound, n.ledger.events, id, reg, k);
      ReceiptRowsStay(n.receiptOut, n.inbound, m, n.acks, id);
      WithInbound(n, id, reg, m, n.ledger);
    }
  }

  /** A local write never disturbs the federation tables. */
  lemma LocalInsertKeeps(n: Node, id: Identity, reg: Registry, r: L.Request, now: nat)
    requires NodeInv(n, id, reg)
    ensures NodeInv(n.(ledger := L.Insert(n.ledger, r, now).0), id, reg)
  {
    var l := L.Insert(n.ledger, r, now).0;
    L.InsertKeepsValid(n.ledger, r, now);
    LedgerGrowthKeeps(n, id, reg, l);
  }

  lemma LedgerGrowthKeeps(n: Node, id: Identity, reg: Registry, l: L.Ledger)
    requires NodeInv(n, id, reg) && L.Valid(l) && n.ledger.events <= l.events
    ensures NodeInv(n.(ledger := l), id, reg)
  {
    CopiesStay(n.inbound, n.ledger.events, l.events);
    AcksStay(n.acks, n.ledger.events, l.events);
    WithInbound(n, id, reg, n.inbound, l);
  }

  // ------------------------------------------------------------------------ acks

  lemma NewAckReceipts(rs: map<ReceiptKey, ReceiptOut>, inbound: map<InKey, Inbound>, acks: map<AckKey, string>, id: Identity,
                       a: AckKey, at: string)
    requires ReceiptOutOk(rs, inbound, acks, id)
    ensures ReceiptOutOk(rs, inbound, acks[a := at], id)
  {
    forall r | r in rs ensures ReceiptRowOk(r, rs[r], inbound, acks[a := at], id) {
      assert ReceiptRowOk(r, rs[r], inbound, acks, id);
    }
  }

  lemma FailedReceiptsSame(rs: map<ReceiptKey, ReceiptOut>, k: ReceiptKey, row: ReceiptOut)
    requires !row.status.FailedPermanent? && (k in rs ==> !rs[k].status.FailedPermanent?)
    ensures FailedReceipts(rs[k := row]) == FailedReceipts(rs)
  {
  }

  lemma InboundIsStored(inbound: map<InKey, Inbound>, events: seq<L.Event>, id: Identity, reg: Registry, k: InKey)
    requires InboundOk(inbound, id, reg) && Copied(inbound, events) && k in inbound
    ensures L.HasId(events, k.eventId)
  {
    assert InRowOk(k, inbound[k], id, reg);
    CopyFound(events, inbound[k].signed);
  }

  lemma NewReceiptRow(inbound: map<InKey, Inbound>, acks: map<AckKey, string>, id: Identity, reg: Registry,
                      k: InKey, ackType: string, at: string)
    requires k in inbound && InRowOk(k, inbound[k], id, reg) && IsAckType(ackType) && IsTimestamp(at)
    requires AckKey(k.eventId, inbound[k].target.agent, ackType) in acks
    ensures ReceiptRowOk(ReceiptKeyFor(k, inbound[k], ackType), NewReceiptOut(id, k, inbound[k], at), inbound, acks, id)
  {
  }

  lemma NewReceiptRowKeeps(rs: map<ReceiptKey, ReceiptOut>, inbound: map<InKey, Inbound>, acks: map<AckKey, string>, id: Identity,
                           rk: ReceiptKey, row: ReceiptOut)
    requires ReceiptOutOk(rs, inbound, acks, id) && ReceiptRowOk(rk, row, inbound, acks, id)
    ensures ReceiptOutOk(rs[rk := row], inbound, acks, id)
  {
  }

  lemma AckWithReceiptKeeps(n: Node, id: Identity, reg: Registry, k: InKey, ackType: string, at: string)
    requires NodeInv(n, id, reg) && k in n.inbound && IsAckType(ackType) && IsTimestamp(at)
    ensures NodeInv(AckWithReceipt(n, id, k, ackType, at), id, reg)
  {
    var n' := AckWithReceipt(n, id, k, ackType, at);
    var row := n.inbound[k];
    var rk, a := ReceiptKeyFor(k, row, ackType), AckKey(k.eventId, row.target.agent, ackType);
    NewAckReceipts(n.receiptOut, n.inbound, n.acks, id, a, at);
    if rk !in n.receiptOut {
      NewReceiptRow(n.inbound, n.acks[a := at], id, reg, k, ackType, at);
      NewReceiptRowKeeps(n.receiptOut, n.inbound, n.acks[a := at], id, rk, NewReceiptOut(id, k, row, at));
      FailedReceiptsSame(n.receiptOut, rk, NewReceiptOut(id, k, row, at));
    }
    InboundIsStored(n.inbound, n.ledger.events, id, reg, k);
    WithReceipts(n, id, reg, n'.acks, n'.receiptOut, n.notifications);
  }

  lemma LocalAckKeeps(n: Node, id: Identity, reg: Registry, a: AckKey, at: string)
    requires NodeInv(n, id, reg) && L.HasId(n.ledger.events, a.eventId)
    ensures NodeInv(n.(acks := n.acks[a := at]), id, reg)
  {
    NewAckReceipts(n.receiptOut, n.inbound, n.acks, id, a, at);
    WithReceipts(n, id, reg, n.acks[a := at], n.receiptOut, n.notifications);
  }

  lemma WriteAckKeeps(n: Node, id: Identity, reg: Registry, found: Option<InKey>, a: AckKey, at: string)
    requires NodeInv(n, id, reg) && IsTimestamp(at)
    requires found.Some? ==> found.value in n.inbound && found.value.eventId == a.eventId
    ensures NodeInv(WriteAck(n, id, found, a, at).0, id, reg)
  {
    if WriteAck(n, id, found, a, at).1 == Acked {
      if found.Some? {
        AckWithReceiptKeeps(n, id, reg, found.value, a.ackType, at);
      } else {
        LocalAckKeeps(n, id, reg, a, at);
      }
    }
  }

  // --------------------------------------------------------------- receipts sent

  lemma ReceiptUpdate(rs: map<ReceiptKey, ReceiptOut>, inbound: map<InKey, Inbound>, acks: map<AckKey, string>, id: Identity,
                      k: ReceiptKey, row: ReceiptOut)
    requires ReceiptOutOk(rs, inbound, acks, id) && k in rs && ReceiptRowLe(rs[k], row)
    requires row.original.Some? ==> row.original.value == ComposeReceipt(id, k, row)
    ensures ReceiptOutOk(rs[k := row], inbound, acks, id)
  {
    assert ReceiptRowOk(k, rs[k], inbound, acks, id);
  }

  lemma ReceiptUpdateKeeps(n: Node, id: Identity, reg: Registry, k: ReceiptKey, row: ReceiptOut, notes: map<Intent, Notification>)
    requires NodeInv(n, id, reg) && k in n.receiptOut && ReceiptRowLe(n.receiptOut[k], row)
    requires row.original.Some? ==> row.original.value == ComposeReceipt(id, k, row)
    requires NotesOk(notes.Keys, n.receiptIn.Keys, FailedOut(n.outbound), FailedReceipts(n.receiptOut[k := row]))
    ensures NodeInv(n.(receiptOut := n.receiptOut[k := row], notifications := notes), id, reg)
  {
    var rs := n.receiptOut[k := row];
    ReceiptUpdate(n.receiptOut, n.inbound, n.acks, id, k, row);
    WithReceipts(n, id, reg, n.acks, rs, notes);
  }

  lemma LedgerHolds(n: Node, id: Identity, reg: Registry)
    requires NodeInv(n, id, reg)
    ensures L.Valid(n.ledger)
  {
  }

  lemma ReceiptRowHolds(n: Node, id: Identity, reg: Registry, k: ReceiptKey)
    requires NodeInv(n, id, reg) && k in n.receiptOut
    ensures ReceiptRowOk(k, n.receiptOut[k], n.inbound, n.acks, id)
  {
  }

  lemma MaterializeKeeps(n: Node, id: Identity, reg: Registry, k: ReceiptKey)
    requires NodeInv(n, id, reg) && k in n.receiptOut
    ensures NodeInv(Materialize(n, k, ComposeReceipt(id, k, n.receiptOut[k])), id, reg)
  {
    hide L.Valid, OutboundOk, InboundOk, ReceiptOutOk, AcksOk, OriginalsOk, MergedOk, DistinctOriginals, NotesOk, FailedReceipts;
    var n' := Materialize(n, k, ComposeReceipt(id, k, n.receiptOut[k]));
    if n' != n {
      FailedReceiptsSame(n.receiptOut, k, n'.receiptOut[k]);
      ReceiptUpdateKeeps(n, id, reg, k, n'.receiptOut[k], n.notifications);
    }
  }

  lemma MarkReceiptSentKeeps(n: Node, id: Identity, reg: Registry, k: ReceiptKey)
    requires NodeInv(n, id, reg)
    ensures NodeInv(MarkReceiptSent(n, k), id, reg)
  {
    hide L.Valid, OutboundOk, InboundOk, ReceiptOutOk, AcksOk, OriginalsOk, MergedOk, DistinctOriginals, NotesOk, FailedReceipts;
    if ReceiptPending(n, k) {
      var row := MarkReceiptSent(n, k).receiptOut[k];
      ReceiptRowHolds(n, id, reg, k);
      FailedReceiptsSame(n.receiptOut, k, row);
      ReceiptUpdateKeeps(n, id, reg, k, row, n.notifications);
    }
  }

  lemma MarkReceiptRetryKeeps(n: Node, id: Identity, reg: Registry, k: ReceiptKey, attempts: nat, at: string, error: string)
    requires NodeInv(n, id, reg)
    ensures NodeInv(MarkReceiptRetry(n, k, attempts, at, error), id, reg)
  {
    hide L.Valid, OutboundOk, InboundOk, ReceiptOutOk, AcksOk, OriginalsOk, MergedOk, DistinctOriginals, NotesOk, FailedReceipts;
    if ReceiptPending(n, k) {
      var row := MarkReceiptRetry(n, k, attempts, at, error).receiptOut[k];
      ReceiptRowHolds(n, id, reg, k);
      FailedReceiptsSame(n.receiptOut, k, row);
      ReceiptUpdateKeeps(n, id, reg, k, row, n.notifications);
    }
  }

  lemma FailedReceiptsMore(rs: map<ReceiptKey, ReceiptOut>, k: ReceiptKey, row: ReceiptOut)
    requires row.status.FailedPermanent?
    ensures ReceiptFailedIntents(FailedReceipts(rs[k := row])) == ReceiptFailedIntents(FailedReceipts(rs)) + {ReceiptFailedIntent(k)}
  {
    assert FailedReceipts(rs[k := row]) == FailedReceipts(rs) + {k};
  }

  lemma NotesFailedReceipt(notes: set<Intent>, merged: set<ReceiptKey>, failedOut: set<string>,
                           rs: map<ReceiptKey, ReceiptOut>, k: ReceiptKey, row: ReceiptOut)
    requires NotesOk(notes, merged, failedOut, FailedReceipts(rs)) && row.status.FailedPermanent?
    ensures NotesOk(notes + {ReceiptFailedIntent(k)}, merged, failedOut, FailedReceipts(rs[k := row]))
  {
    FailedReceiptsMore(rs, k, row);
  }

  lemma FailReceiptKeeps(n: Node, id: Identity, reg: Registry, k: ReceiptKey, error: string)
    requires NodeInv(n, id, reg)
    ensures NodeInv(FailReceipt(n, k, error), id, reg)
  {
    if ReceiptPending(n, k) {
      var n' := FailReceipt(n, k, error);
      ReceiptRowHolds(n, id, reg, k);
      NotesFailedReceipt(n.notifications.Keys, n.receiptIn.Keys, FailedOut(n.outbound), n.receiptOut, k, n'.receiptOut[k]);
      NotesGrow(n.notifications, ReceiptFailedIntent(k), Notification("receipt_send_failed", None, k.eventId, false, false));
      ReceiptUpdateKeeps(n, id, reg, k, n'.receiptOut[k], n'.notifications);
    }
  }

  // ----------------------------------------------------------- receipts received

  lemma HasOriginalIff(os: seq<Original>, receiptIn: map<ReceiptKey, nat>, k: ReceiptKey)
    requires MergedOk(os, receiptIn)
    ensures HasOriginal(os, k) <==> k in receiptIn
  {
    if k in receiptIn { assert os[receiptIn[k]].key == k; }
  }

  /** A new original is a variant exactly when its key was merged before; the merged row never moves. */
  lemma NewOriginal(os: seq<Original>, receiptIn: map<ReceiptKey, nat>, o: Original)
    requires DistinctOriginals(os) && MergedOk(os, receiptIn) && !HasSigned(os, o.key, o.sig)
    requires o.variant <==> HasOriginal(os, o.key)
    ensures var m := if o.key in receiptIn then receiptIn else receiptIn[o.key := |os|];
            DistinctOriginals(os + [o]) && MergedOk(os + [o], m)
  {
    HasOriginalIff(os, receiptIn, o.key);
    var m := if o.key in receiptIn then receiptIn else receiptIn[o.key := |os|];
    var t := os + [o];
    assert t[|os|] == o;
    forall i | 0 <= i < |t|
      ensures t[i].key in m && m[t[i].key] <= i && (t[i].variant <==> m[t[i].key] < i)
    {
      if i < |os| { assert t[i] == os[i] && os[i].key in receiptIn; }
    }
    forall k | k in m ensures m[k] < |t| && t[m[k]].key == k {
      if k in receiptIn { assert t[receiptIn[k]] == os[receiptIn[k]]; }
    }
    forall i, j | 0 <= i < j < |t| ensures !(t[i].key == t[j].key && t[i].sig == t[j].sig) {
      if j == |os| { assert t[i] == os[i]; } else { assert t[i] == os[i] && t[j] == os[j]; }
    }
  }

  lemma RecordedId(os: seq<Original>, o: Original)
    requires !HasSigned(os, o.key, o.sig)
    ensures HasSigned(os + [o], o.key, o.sig) && IdOf(os + [o], o.key, o.sig) == |os|
  {
    var t := os + [o];
    assert t[|os|] == o;
  }

  lemma ReceiptIntentsMore(ks: set<ReceiptKey>, k: ReceiptKey)
    ensures ReceiptIntents(ks + {k}) == ReceiptIntents(ks) + {ReceiptIntent(k)}
  {
  }

  lemma NotesMerged(notes: set<Intent>, merged: set<ReceiptKey>, failedOut: set<string>, failedReceipts: set<ReceiptKey>, k: ReceiptKey)
    requires NotesOk(notes, merged, failedOut, failedReceipts)
    ensures NotesOk(notes + {ReceiptIntent(k)}, merged + {k}, failedOut, failedReceipts)
  {
    ReceiptIntentsMore(merged, k);
  }

  lemma OriginalsMore(os: seq<Original>, o: Original, out: map<string, Outbound>, id: Identity, reg: Registry)
    requires OriginalsOk(os, out, id, reg) && OriginalOk(o, out, id, reg)
    ensures OriginalsOk(os + [o], out, id, reg)
  {
  }

  /** A known signature changes nothing. */
  lemma RecordKnown(n: Node, k: ReceiptKey, signed: SignedReceipt, sig: Signature, notifyAgent: string)
    requires MergedOk(n.originals, n.receiptIn) && HasSigned(n.originals, k, sig)
    ensures RecordReceipt(n, k, signed, sig, notifyAgent) == (n, false)
  {
    SignedIsOriginal(n.originals, k, sig);
    HasOriginalIff(n.originals, n.receiptIn, k);
  }

  /** A new one adds its original, a merged row if the key had none, and the notification. */
  lemma RecordNew(n: Node, k: ReceiptKey, signed: SignedReceipt, sig: Signature, notifyAgent: string)
    requires !HasSigned(n.originals, k, sig)
    ensures var o := Original(k, signed.issuer, signed, sig, HasOriginal(n.originals, k));
            RecordReceipt(n, k, signed, sig, notifyAgent) ==
            (n.(originals := n.originals + [o],
                receiptIn := if k in n.receiptIn then n.receiptIn else n.receiptIn[k := |n.originals|],
                notifications := Notify(n.notifications, ReceiptIntent(k),
                                        Notification("receipt_received", Some(notifyAgent), k.eventId, false, false))), true)
  {
    RecordedId(n.originals, Original(k, signed.issuer, signed, sig, HasOriginal(n.originals, k)));
  }

  /** The receipt tables after a new original. */
  lemma RecordTables(os: seq<Original>, receiptIn: map<ReceiptKey, nat>, notes: map<Intent, Notification>, o: Original, note: Notification,
                     failedOut: set<string>, failedReceipts: set<ReceiptKey>)
    requires DistinctOriginals(os) && MergedOk(os, receiptIn) && NotesOk(notes.Keys, receiptIn.Keys, failedOut, failedReceipts)
    requires !HasSigned(os, o.key, o.sig) && (o.variant <==> HasOriginal(os, o.key))
    ensures var m := if o.key in receiptIn then receiptIn else receiptIn[o.key := |os|];
            && DistinctOriginals(os + [o]) && MergedOk(os + [o], m)
            && NotesOk(Notify(notes, ReceiptIntent(o.key), note).Keys, m.Keys, failedOut, failedReceipts)
  {
    var m := if o.key in receiptIn then receiptIn else receiptIn[o.key := |os|];
    NewOriginal(os, receiptIn, o);
    NotesGrow(notes, ReceiptIntent(o.key), note);
    NotesMerged(notes.Keys, receiptIn.Keys, failedOut, failedReceipts, o.key);
    assert m.Keys == receiptIn.Keys + {o.key};
  }

  lemma RecordReceiptKeeps(n: Node, id: Identity, reg: Registry, k: ReceiptKey, signed: SignedReceipt, sig: Signature, notifyAgent: string)
    requires NodeInv(n, id, reg) && OriginalOk(Original(k, signed.issuer, signed, sig, HasOriginal(n.originals, k)), n.outbound, id, reg)
    ensures NodeInv(RecordReceipt(n, k, signed, sig, notifyAgent).0, id, reg)
  {
    if HasSigned(n.originals, k, sig) {
      RecordKnown(n, k, signed, sig, notifyAgent);
    } else {
      var n' := RecordReceipt(n, k, signed, sig, notifyAgent).0;
      RecordNew(n, k, signed, sig, notifyAgent);
      var o := Original(k, signed.issuer, signed, sig, HasOriginal(n.originals, k));
      var note := Notification("receipt_received", Some(notifyAgent), k.eventId, false, false);
      RecordTables(n.originals, n.receiptIn, n.notifications, o, note, FailedOut(n.outbound), FailedReceipts(n.receiptOut));
      OriginalsMore(n.originals, o, n.outbound, id, reg);
      WithMerged(n, id, reg, n'.originals, n'.receiptIn, n'.notifications);
    }
  }

  lemma SignedIsOriginal(os: seq<Original>, k: ReceiptKey, sig: Signature)
    requires HasSigned(os, k, sig)
    ensures HasOriginal(os, k)
  {
    var i :| 0 <= i < |os| && os[i].key == k && os[i].sig == sig;
    assert os[i].key == k;
  }

  lemma WithNotes(n: Node, id: Identity, reg: Registry, notes: map<Intent, Notification>)
    requires NodeInv(n, id, reg) && notes.Keys == n.notifications.Keys
    ensures NodeInv(n.(notifications := notes), id, reg)
  {
  }

  lemma MarkHintKeeps(n: Node, id: Identity, reg: Registry, intent: Intent)
    requires NodeInv(n, id, reg)
    ensures NodeInv(MarkHintSent(n, intent), id, reg)
  {
    assert MarkHintSent(n, intent).notifications.Keys == n.notifications.Keys;
    WithNotes(n, id, reg, MarkHintSent(n, intent).notifications);
  }

  lemma AckHintsKeeps(n: Node, id: Identity, reg: Registry, intents: set<Intent>, agent: Option<string>)
    requires NodeInv(n, id, reg)
    ensures NodeInv(AckHints(n, intents, agent), id, reg)
  {
    assert AckHints(n, intents, agent).notifications.Keys == n.notifications.Keys;
    WithNotes(n, id, reg, AckHints(n, intents, agent).notifications);
  }

  // ------------------------------------------------------------------- endpoints

  lemma StoreVettedKeeps(n: Node, id: Identity, reg: Registry, env: Envelope, now: nat)
    requires NodeInv(n, id, reg) && Vetted(id, reg, env)
    ensures NodeInv(StoreVetted(n, reg, env, now).0, id, reg)
  {
    ReceiveKeeps(n, id, reg, env.event, env.sig, now);
  }

  /** A request that is not refused is vetted and addressed to a member. */
  lemma UnrefusedIsVetted(n: Node, id: Identity, reg: Registry, env: Envelope, gates: Gates)
    requires InboxRefusal(n, id, reg, env, gates).None?
    ensures Vetted(id, reg, env) && env.event.event.target.agent in n.members
  {
    hide BodySize;
  }

  /** An accepted receipt passed every check the merged state relies on. */
  lemma AcceptedReceiptIsGood(n: Node, id: Identity, reg: Registry, env: Envelope, gates: Gates)
    requires OutboundOk(n.outbound, id) && HandleReceipts(n, id, reg, env, gates).1.Ok?
    ensures env.ReceiptEnvelope? && env.receipt.receipt.eventId in n.outbound
    ensures var s, rc := env.receipt, env.receipt.receipt;
            var k := ReceiptKey(rc.eventId, rc.agent, rc.ackType);
            && OriginalOk(Original(k, s.issuer, s, env.sig, HasOriginal(n.originals, k)), n.outbound, id, reg)
            && HandleReceipts(n, id, reg, env, gates).0 ==
               RecordReceipt(n, k, s, env.sig, n.outbound[rc.eventId].sourceLocal).0
  {
    hide BodySize;
  }

  lemma ReceiptsRejectedOrOk(n: Node, id: Identity, reg: Registry, env: Envelope, gates: Gates)
    ensures HandleReceipts(n, id, reg, env, gates).1.Ok? || HandleReceipts(n, id, reg, env, gates).0 == n
  {
    hide BodySize, RecordReceipt, ValidReceipt;
  }

  lemma HandleReceiptsKeeps(n: Node, id: Identity, reg: Registry, env: Envelope, gates: Gates)
    requires NodeInv(n, id, reg)
    ensures NodeInv(HandleReceipts(n, id, reg, env, gates).0, id, reg)
  {
    ReceiptsRejectedOrOk(n, id, reg, env, gates);
    if HandleReceipts(n, id, reg, env, gates).1.Ok? {
      AcceptedReceiptIsGood(n, id, reg, env, gates);
      var rc := env.receipt.receipt;
      RecordReceiptKeeps(n, id, reg, ReceiptKey(rc.eventId, rc.agent, rc.ackType), env.receipt, env.sig,
                         n.outbound[rc.eventId].sourceLocal);
    }
  }

  lemma HandleSendKeeps(n: Node, id: Identity, reg: Registry, q: SendRequest, createdAt: string, cap: nat)
    requires NodeInv(n, id, reg) && ForeignFamily(id, q.target).Some?
    ensures NodeInv(HandleSend(n, id, reg, q, createdAt, cap).0, id, reg)
  {
    if HandleSend(n, id, reg, q, createdAt, cap).1 == Accepted(Pending) {
      EnqueueKeeps(n, id, reg, NewOutbound(id, q.source, ComposeEvent(id, q, ParseAddress(q.target).value, createdAt)), cap);
    }
  }

  // ------------------------------------------------------- every transaction grows

  lemma Reflexive(n: Node)
    ensures Grows(n, n)
  {
  }

  lemma GrowsOutbound(n: Node, out: map<string, Outbound>, notes: map<Intent, Notification>)
    requires OutLe(n.outbound, out) && NotesLe(n.notifications, notes)
    ensures Grows(n, n.(outbound := out, notifications := notes))
  {
  }

  lemma GrowsInbound(n: Node, inbound: map<InKey, Inbound>, ledger: L.Ledger, conflicts: seq<Conflict>)
    requires InLe(n.inbound, inbound) && n.ledger.events <= ledger.events && n.conflicts <= conflicts
    ensures Grows(n, n.(inbound := inbound, ledger := ledger, conflicts := conflicts))
  {
  }

  lemma GrowsReceipts(n: Node, acks: map<AckKey, string>, rs: map<ReceiptKey, ReceiptOut>, notes: map<Intent, Notification>)
    requires ReceiptsLe(n.receiptOut, rs) && n.acks.Keys <= acks.Keys && NotesLe(n.notifications, notes)
    ensures Grows(n, n.(acks := acks, receiptOut := rs, notifications := notes))
  {
  }

  lemma GrowsMerged(n: Node, os: seq<Original>, receiptIn: map<ReceiptKey, nat>, notes: map<Intent, Notification>)
    requires n.originals <= os && MergedLe(n.receiptIn, receiptIn) && NotesLe(n.notifications, notes)
    ensures Grows(n, n.(originals := os, receiptIn := receiptIn, notifications := notes))
  {
  }

  lemma OutLeUpdate(out: map<string, Outbound>, e: string, row: Outbound)
    requires e in out ==> OutRowLe(out[e], row)
    ensures OutLe(out, out[e := row])
  {
  }

  lemma ReceiptsLeUpdate(rs: map<ReceiptKey, ReceiptOut>, k: ReceiptKey, row: ReceiptOut)
    requires k in rs ==> ReceiptRowLe(rs[k], row)
    ensures ReceiptsLe(rs, rs[k := row])
  {
  }

  lemma EnqueueGrows(n: Node, row: Outbound, cap: nat)
    ensures Grows(n, Enqueue(n, row, cap).0)
  {
    Reflexive(n);
    if Enqueue(n, row, cap).1 == Queued {
      OutLeUpdate(n.outbound, row.signed.event.eventId, row);
      GrowsOutbound(n, n.outbound[row.signed.event.eventId := row], n.notifications);
    }
  }

  lemma OutboundGrows(n: Node, e: string, n': Node)
    requires OutPending(n, e) && e in n'.outbound && OutRowLe(n.outbound[e], n'.outbound[e])
    requires n' == n.(outbound := n.outbound[e := n'.outbound[e]], notifications := n'.notifications)
    requires NotesLe(n.notifications, n'.notifications)
    ensures Grows(n, n')
  {
    OutLeUpdate(n.outbound, e, n'.outbound[e]);
    GrowsOutbound(n, n.outbound[e := n'.outbound[e]], n'.notifications);
  }

  lemma MarkOutboundSentGrows(n: Node, e: string)
    ensures Grows(n, MarkOutboundSent(n, e))
  {
    if OutPending(n, e) { OutboundGrows(n, e, MarkOutboundSent(n, e)); } else { Reflexive(n); }
  }

  lemma MarkOutboundRetryGrows(n: Node, e: string, attempts: nat, at: string, error: string)
    ensures Grows(n, MarkOutboundRetry(n, e, attempts, at, error))
  {
    if OutPending(n, e) { OutboundGrows(n, e, MarkOutboundRetry(n, e, attempts, at, error)); } else { Reflexive(n); }
  }

  lemma FailOutboundGrows(n: Node, e: string, error: string)
    ensures Grows(n, FailOutbound(n, e, error))
  {
    if OutPending(n, e) {
      NotesGrow(n.notifications, n.outbound[e].notifyIntent,
                Notification("send_failed", Some(n.outbound[e].sourceLocal), e, false, false));
      OutboundGrows(n, e, FailOutbound(n, e, error));
    } else {
      Reflexive(n);
    }
  }

  lemma ReceiptGrows(n: Node, k: ReceiptKey, n': Node)
    requires ReceiptPending(n, k) && k in n'.receiptOut && ReceiptRowLe(n.receiptOut[k], n'.receiptOut[k])
    requires n' == n.(receiptOut := n.receiptOut[k := n'.receiptOut[k]], notifications := n'.notifications)
    requires NotesLe(n.notifications, n'.notifications)
    ensures Grows(n, n')
  {
    ReceiptsLeUpdate(n.receiptOut, k, n'.receiptOut[k]);
    GrowsReceipts(n, n.acks, n.receiptOut[k := n'.receiptOut[k]], n'.notifications);
  }

  lemma MaterializeGrows(n: Node, k: ReceiptKey, original: ReceiptOriginal)
    ensures Grows(n, Materialize(n, k, original))
  {
    if ReceiptPending(n, k) && n.receiptOut[k].original.None? {
      ReceiptGrows(n, k, Materialize(n, k, original));
    } else {
      Reflexive(n);
    }
  }

  lemma MarkReceiptSentGrows(n: Node, k: ReceiptKey)
    ensures Grows(n, MarkReceiptSent(n, k))
  {
    if ReceiptPending(n, k) { ReceiptGrows(n, k, MarkReceiptSent(n, k)); } else { Reflexive(n); }
  }

  lemma MarkReceiptRetryGrows(n: Node, k: ReceiptKey, attempts: nat, at: string, error: string)
    ensures Grows(n, MarkReceiptRetry(n, k, attempts, at, error))
  {
    if ReceiptPending(n, k) { ReceiptGrows(n, k, MarkReceiptRetry(n, k, attempts, at, error)); } else { Reflexive(n); }
  }

  lemma FailReceiptGrows(n: Node, k: ReceiptKey, error: string)
    ensures Grows(n, FailReceipt(n, k, error))
  {
    if ReceiptPending(n, k) {
      NotesGrow(n.notifications, ReceiptFailedIntent(k), Notification("receipt_send_failed", None, k.eventId, false, false));
      ReceiptGrows(n, k, FailReceipt(n, k, error));
    } else {
      Reflexive(n);
    }
  }

  lemma InLeUpdate(inbound: map<InKey, Inbound>, k: InKey, row: Inbound)
    requires k in inbound ==> row == inbound[k].(delivered := true)
    ensures InLe(inbound, inbound[k := row])
  {
  }

  lemma StoreGrows(n: Node, k: InKey, row: Inbound, l: L.Ledger)
    requires k !in n.inbound && n.ledger.events <= l.events
    ensures Grows(n, n.(inbound := n.inbound[k := row], ledger := l))
  {
    InLeUpdate(n.inbound, k, row);
    GrowsInbound(n, n.inbound[k := row], l, n.conflicts);
  }

  lemma ConflictGrows(n: Node, c: Conflict)
    ensures Grows(n, n.(conflicts := n.conflicts + [c]))
  {
    InLeSelf(n.inbound);
    GrowsInbound(n, n.inbound, n.ledger, n.conflicts + [c]);
  }

  lemma ReceiveGrows(n: Node, s: SignedEvent, sig: Signature, regKey: Key, now: nat)
    ensures Grows(n, Receive(n, s, sig, regKey, now).0)
  {
    var k := KeyOf(s);
    if k in n.inbound {
      Reflexive(n);
      ConflictGrows(n, Conflict(k, s.event, sig, SameIdDifferentContent));
    } else if L.HasId(n.ledger.events, k.eventId) {
      ConflictGrows(n, Conflict(k, s.event, sig, LocalEventIdCollision));
    } else {
      StoreGrows(n, k, NewInbound(s, sig, regKey), L.Commit(n.ledger, LocalRequest(s), now));
    }
  }

  lemma InLeSelf(inbound: map<InKey, Inbound>)
    ensures InLe(inbound, inbound)
  {
  }

  lemma MarkDeliveredGrows(n: Node, k: InKey)
    ensures Grows(n, MarkDelivered(n, k))
  {
    if k in n.inbound {
      InLeUpdate(n.inbound, k, n.inbound[k].(delivered := true));
      GrowsInbound(n, MarkDelivered(n, k).inbound, n.ledger, n.conflicts);
    } else {
      Reflexive(n);
    }
  }

  lemma AckWithReceiptGrows(n: Node, id: Identity, k: InKey, ackType: string, at: string)
    requires k in n.inbound
    ensures Grows(n, AckWithReceipt(n, id, k, ackType, at))
  {
    var n' := AckWithReceipt(n, id, k, ackType, at);
    var rk := ReceiptKeyFor(k, n.inbound[k], ackType);
    Reflexive(n);
    ReceiptsLeUpdate(n.receiptOut, rk, if rk in n.receiptOut then n.receiptOut[rk] else NewReceiptOut(id, k, n.inbound[k], at));
    assert rk in n.receiptOut ==> n.receiptOut[rk := n.receiptOut[rk]] == n.receiptOut;
    GrowsReceipts(n, n'.acks, n'.receiptOut, n.notifications);
  }

  lemma WriteAckGrows(n: Node, id: Identity, found: Option<InKey>, a: AckKey, at: string)
    requires found.Some? ==> found.value in n.inbound && found.value.eventId == a.eventId
    ensures Grows(n, WriteAck(n, id, found, a, at).0)
  {
    Reflexive(n);
    if found.Some? { AckWithReceiptGrows(n, id, found.value, a.ackType, at); }
    GrowsReceipts(n, n.acks[a := at], n.receiptOut, n.notifications);
  }

  lemma AdministeredKeeps(n: Node, id: Identity, reg: Registry, members: set<string>, tokens: seq<L.Token>,
                          grants: seq<L.Grant>, acl: map<string, set<string>>)
    requires NodeInv(n, id, reg)
    ensures NodeInv(Administered(n, members, tokens, grants, acl), id, reg)
  {
  }

  lemma AdministeredGrows(n: Node, members: set<string>, tokens: seq<L.Token>, grants: seq<L.Grant>, acl: map<string, set<string>>)
    ensures Grows(n, Administered(n, members, tokens, grants, acl))
  {
    Reflexive(n);
  }

  lemma RecordGrows(n: Node, k: ReceiptKey, signed: SignedReceipt, sig: Signature, notifyAgent: string)
    ensures Grows(n, RecordReceipt(n, k, signed, sig, notifyAgent).0)
  {
    var n' := RecordReceipt(n, k, signed, sig, notifyAgent).0;
    NotesGrow(n.notifications, ReceiptIntent(k), Notification("receipt_received", Some(notifyAgent), k.eventId, false, false));
    GrowsMerged(n, n'.originals, n'.receiptIn, n'.notifications);
  }

  lemma HandleReceiptsGrows(n: Node, id: Identity, reg: Registry, env: Envelope, gates: Gates)
    requires NodeInv(n, id, reg)
    ensures Grows(n, HandleReceipts(n, id, reg, env, gates).0)
  {
    ReceiptsRejectedOrOk(n, id, reg, env, gates);
    if HandleReceipts(n, id, reg, env, gates).1.Ok? {
      AcceptedReceiptIsGood(n, id, reg, env, gates);
      var rc := env.receipt.receipt;
      RecordGrows(n, ReceiptKey(rc.eventId, rc.agent, rc.ackType), env.receipt, env.sig, n.outbound[rc.eventId].sourceLocal);
    } else {
      Reflexive(n);
    }
  }

  lemma HandleSendGrows(n: Node, id: Identity, reg: Registry, q: SendRequest, createdAt: string, cap: nat)
    requires ForeignFamily(id, q.target).Some?
    ensures Grows(n, HandleSend(n, id, reg, q, createdAt, cap).0)
  {
    Reflexive(n);
    if HandleSend(n, id, reg, q, createdAt, cap).1 == Accepted(Pending) {
      EnqueueGrows(n, NewOutbound(id, q.source, ComposeEvent(id, q, ParseAddress(q.target).value, createdAt)), cap);
    }
  }

  lemma MarkHintGrows(n: Node, intent: Intent)
    ensures Grows(n, MarkHintSent(n, intent))
  {
    Reflexive(n);
    assert NotesLe(n.notifications, MarkHintSent(n, intent).notifications);
    GrowsOutbound(n, n.outbound, MarkHintSent(n, intent).notifications);
  }

  lemma AckHintsGrows(n: Node, intents: set<Intent>, agent: Option<string>)
    ensures Grows(n, AckHints(n, intents, agent))
  {
    Reflexive(n);
    assert NotesLe(n.notifications, AckHints(n, intents, agent).notifications);
    GrowsOutbound(n, n.outbound, AckHints(n, intents, agent).notifications);
  }

  lemma LocalInsertGrows(n: Node, r: L.Request, now: nat)
    requires L.Valid(n.ledger)
    ensures Grows(n, n.(ledger := L.Insert(n.ledger, r, now).0))
  {
    L.InsertKeepsValid(n.ledger, r, now);
  }

  // ------------------------------------------------------------------ accounting

  function Image<A(!new), B(!new)>(f: A -> B, s: set<A>): set<B> { set a | a in s :: f(a) }

  lemma {:induction false} ImageSize<A(!new), B(!new)>(f: A -> B, s: set<A>)
    requires forall a, b :: a in s && b in s && f(a) == f(b) ==> a == b
    ensures |Image(f, s)| == |s|
    decreases |s|
  {
    if s != {} {
      var x :| x in s;
      var rest := s - {x};
      ImageSize(f, rest);
      assert f(x) !in Image(f, rest);
      assert Image(f, s) == Image(f, rest) + {f(x)};
    }
  }

  lemma ReceiptIntentsSize(ks: set<ReceiptKey>)
    requires forall k :: k in ks ==> ValidKey(k)
    ensures |ReceiptIntents(ks)| == |ks|
  {
    var f := (k: ReceiptKey) => ReceiptIntent(k);
    forall j, k | j in ks && k in ks && f(j) == f(k) ensures j == k { ReceiptPartsInjective("receipt", "receipt", j, k); }
    ImageSize(f, ks);
    assert ReceiptIntents(ks) == Image(f, ks);
  }

  lemma ReceiptFailedIntentsSize(ks: set<ReceiptKey>)
    requires forall k :: k in ks ==> ValidKey(k)
    ensures |ReceiptFailedIntents(ks)| == |ks|
  {
    var f := (k: ReceiptKey) => ReceiptFailedIntent(k);
    forall j, k | j in ks && k in ks && f(j) == f(k) ensures j == k {
      ReceiptPartsInjective("receipt_send_failed", "receipt_send_failed", j, k);
    }
    ImageSize(f, ks);
    assert ReceiptFailedIntents(ks) == Image(f, ks);
  }

  lemma SendFailedIntentsSize(es: set<string>)
    requires forall e :: e in es ==> IsUuid(e)
    ensures |SendFailedIntents(es)| == |es|
  {
    var f := (e: string) => SendFailedIntent(e);
    forall d, e | d in es && e in es && f(d) == f(e) ensures d == e { SendFailedInjective(d, e); }
    ImageSize(f, es);
    assert SendFailedIntents(es) == Image(f, es);
  }

  lemma IntentsDisjoint(merged: set<ReceiptKey>, failedOut: set<string>, failedReceipts: set<ReceiptKey>)
    requires forall k :: k in merged || k in failedReceipts ==> ValidKey(k)
    requires forall e :: e in failedOut ==> IsUuid(e)
    ensures ReceiptIntents(merged) !! SendFailedIntents(failedOut)
    ensures (ReceiptIntents(merged) + SendFailedIntents(failedOut)) !! ReceiptFailedIntents(failedReceipts)
  {
    forall k, e | k in merged && e in failedOut ensures ReceiptIntent(k) != SendFailedIntent(e) {
      IntentsAreDistinct(e, e, k, k);
    }
    forall k, j | k in merged && j in failedReceipts ensures ReceiptIntent(k) != ReceiptFailedIntent(j) {
      if ReceiptIntent(k) == ReceiptFailedIntent(j) { ReceiptPartsInjective("receipt", "receipt_send_failed", k, j); }
    }
    forall e, j | e in failedOut && j in failedReceipts ensures SendFailedIntent(e) != ReceiptFailedIntent(j) {
      IntentsAreDistinct(e, e, j, j);
    }
  }

  lemma KeysAreValid(n: Node, id: Identity, reg: Registry)
    requires NodeInv(n, id, reg)
    ensures forall k :: k in n.receiptIn.Keys || k in FailedReceipts(n.receiptOut) ==> ValidKey(k)
    ensures forall e :: e in FailedOut(n.outbound) ==> IsUuid(e)
  {
    forall k | k in n.receiptIn ensures ValidKey(k) {
      assert OriginalOk(n.originals[n.receiptIn[k]], n.outbound, id, reg);
    }
    forall k | k in n.receiptOut ensures ValidKey(k) {
      ReceiptRowHolds(n, id, reg, k);
    }
    forall e | e in n.outbound ensures IsUuid(e) {
      assert OutRowOk(e, n.outbound[e], id);
    }
  }

  /** Notifications are merged receipts plus failed sends plus failed receipts, one for one. */
  lemma NotificationAccounting(n: Node, id: Identity, reg: Registry)
    requires NodeInv(n, id, reg)
    ensures |n.notifications| == |n.receiptIn| + |FailedOut(n.outbound)| + |FailedReceipts(n.receiptOut)|
  {
    var merged, failedOut, failedReceipts := n.receiptIn.Keys, FailedOut(n.outbound), FailedReceipts(n.receiptOut);
    KeysAreValid(n, id, reg);
    IntentsDisjoint(merged, failedOut, failedReceipts);
    ReceiptIntentsSize(merged);
    SendFailedIntentsSize(failedOut);
    ReceiptFailedIntentsSize(failedReceipts);
    var a, b, c := ReceiptIntents(merged), SendFailedIntents(failedOut), ReceiptFailedIntents(failedReceipts);
    assert |a + b| == |a| + |b|;
    assert |a + b + c| == |a + b| + |c|;
    assert n.notifications.Keys == a + b + c;
    assert |n.notifications.Keys| == |n.notifications| && |n.receiptIn.Keys| == |n.receiptIn|;
  }

  /** The original is the lowest one of its key and the only one that is not a variant. */
  predicate IsFirst(os: seq<Original>, k: ReceiptKey, m: nat) {
    && m < |os| && os[m].key == k
    && forall i :: 0 <= i < |os| && os[i].key == k ==> m <= i && (i == m <==> !os[i].variant)
  }

  lemma MergedPointsAtFirst(n: Node, id: Identity, reg: Registry, k: ReceiptKey)
    requires NodeInv(n, id, reg) && k in n.receiptIn
    ensures IsFirst(n.originals, k, n.receiptIn[k])
  {
  }

  /** Both nodes have the same first original of this key, and their merged rows point at it. */
  predicate SameFirstOriginal(a: Node, b: Node, k: ReceiptKey) {
    && k in a.receiptIn && k in b.receiptIn && a.receiptIn[k] == b.receiptIn[k]
    && IsFirst(a.originals, k, a.receiptIn[k]) && IsFirst(b.originals, k, b.receiptIn[k])
    && a.originals[a.receiptIn[k]] == b.originals[b.receiptIn[k]]
  }

  lemma MergedStays(a: Node, b: Node, id: Identity, reg: Registry, k: ReceiptKey)
    requires NodeInv(a, id, reg) && NodeInv(b, id, reg) && Grows(a, b) && k in a.receiptIn
    ensures SameFirstOriginal(a, b, k)
  {
    MergedPointsAtFirst(a, id, reg, k);
    MergedPointsAtFirst(b, id, reg, k);
  }

  /** The row is the only one with its event id, and one local event, its copy, is the only one with that id. */
  predicate RowOnce(n: Node, k: InKey)
    requires k in n.inbound
  {
    && (forall j :: j in n.inbound && j.eventId == k.eventId ==> j == k)
    && exists p :: 0 <= p < |n.ledger.events| && CopyOnce(n.ledger.events, p, n.inbound[k].signed, k.eventId)
  }

  predicate CopyOnce(events: seq<L.Event>, p: nat, s: SignedEvent, e: string)
    requires p < |events|
  {
    IsCopy(events[p], s) && forall q :: 0 <= q < |events| && events[q].eventId == e ==> q == p
  }

  lemma CopyIsOnce(events: seq<L.Event>, s: SignedEvent)
    requires L.UniqueEvents(events) && HasCopy(events, s)
    ensures exists p :: 0 <= p < |events| && CopyOnce(events, p, s, s.event.eventId)
  {
    var p :| 0 <= p < |events| && IsCopy(events[p], s);
    forall q | 0 <= q < |events| && events[q].eventId == s.event.eventId ensures q == p {
    }
    assert CopyOnce(events, p, s, s.event.eventId);
  }

  lemma NodeRowOnce(n: Node, id: Identity, reg: Registry, k: InKey)
    requires NodeInv(n, id, reg) && k in n.inbound
    ensures RowOnce(n, k)
  {
    assert InRowOk(k, n.inbound[k], id, reg);
    assert HasCopy(n.ledger.events, n.inbound[k].signed);
    CopyIsOnce(n.ledger.events, n.inbound[k].signed);
  }

  // --------------------------------------------------------- who is told, and what

  lemma IntentIsNew(n: Node, id: Identity, reg: Registry, e: string)
    requires NodeInv(n, id, reg) && OutPending(n, e)
    ensures SendFailedIntent(e) !in n.notifications
  {
    KeysAreValid(n, id, reg);
    assert OutRowOk(e, n.outbound[e], id);
    forall d | d in FailedOut(n.outbound) ensures SendFailedIntent(d) != SendFailedIntent(e) {
      if SendFailedIntent(d) == SendFailedIntent(e) { SendFailedInjective(d, e); }
    }
    forall k | k in n.receiptIn.Keys || k in FailedReceipts(n.receiptOut)
      ensures SendFailedIntent(e) != ReceiptIntent(k) && SendFailedIntent(e) != ReceiptFailedIntent(k)
    {
      IntentsAreDistinct(e, e, k, k);
    }
    NoteOrigins(n.notifications.Keys, n.receiptIn.Keys, FailedOut(n.outbound), FailedReceipts(n.receiptOut), SendFailedIntent(e));
  }

  /** A recorded intent comes from one of the three sources. */
  lemma NoteOrigins(notes: set<Intent>, merged: set<ReceiptKey>, failedOut: set<string>, failedReceipts: set<ReceiptKey>, i: Intent)
    requires NotesOk(notes, merged, failedOut, failedReceipts)
    ensures i in notes ==>
              || (exists k :: k in merged && ReceiptIntent(k) == i)
              || (exists e :: e in failedOut && SendFailedIntent(e) == i)
              || (exists k :: k in failedReceipts && ReceiptFailedIntent(k) == i)
  {
  }

  /** A send that fails for good is told to the agent that sent it, once. */
  lemma FailureIsNotified(n: Node, id: Identity, reg: Registry, e: string, error: string)
    requires NodeInv(n, id, reg) && OutPending(n, e)
    ensures var notes, i := FailOutbound(n, e, error).notifications, SendFailedIntent(e);
            i !in n.notifications && i in notes
            && notes[i] == Notification("send_failed", Some(n.outbound[e].sourceLocal), e, false, false)
  {
    IntentIsNew(n, id, reg, e);
    assert OutRowOk(e, n.outbound[e], id);
  }

  lemma ReceiptIntentIsNew(n: Node, id: Identity, reg: Registry, k: ReceiptKey)
    requires NodeInv(n, id, reg) && ValidKey(k) && k !in n.receiptIn
    ensures ReceiptIntent(k) !in n.notifications
  {
    hide L.Valid, OutboundOk, InboundOk, OriginalsOk, MergedOk, ReceiptOutOk;
    KeysAreValid(n, id, reg);
    forall j | j in n.receiptIn.Keys ensures ReceiptIntent(j) != ReceiptIntent(k) {
      if ReceiptIntent(j) == ReceiptIntent(k) { ReceiptPartsInjective("receipt", "receipt", j, k); }
    }
    forall j | j in FailedReceipts(n.receiptOut) ensures ReceiptFailedIntent(j) != ReceiptIntent(k) {
      IntentsAreDistinct(k.eventId, k.eventId, k, j);
    }
    forall e | e in FailedOut(n.outbound) ensures SendFailedIntent(e) != ReceiptIntent(k) {
      IntentsAreDistinct(e, e, k, k);
    }
    NoteOrigins(n.notifications.Keys, n.receiptIn.Keys, FailedOut(n.outbound), FailedReceipts(n.receiptOut), ReceiptIntent(k));
  }

  /** The first valid receipt of a key is told to the agent that sent the event, and later ones to nobody. */
  lemma FirstReceiptIsNotified(n: Node, id: Identity, reg: Registry, k: ReceiptKey, signed: SignedReceipt, sig: Signature, agent: string)
    requires NodeInv(n, id, reg) && ValidKey(k)
    ensures var notes, i := RecordReceipt(n, k, signed, sig, agent).0.notifications, ReceiptIntent(k);
            if k in n.receiptIn then notes == n.notifications
            else i !in n.notifications && notes == n.notifications[i := Notification("receipt_received", Some(agent), k.eventId, false, false)]
  {
    if HasSigned(n.originals, k, sig) {
      RecordKnown(n, k, signed, sig, agent);
      SignedIsOriginal(n.originals, k, sig);
      HasOriginalIff(n.originals, n.receiptIn, k);
    } else {
      RecordNew(n, k, signed, sig, agent);
      if k !in n.receiptIn {
        ReceiptIntentIsNew(n, id, reg, k);
      } else {
        MergedIntentKnown(n.notifications.Keys, n.receiptIn.Keys, FailedOut(n.outbound), FailedReceipts(n.receiptOut), k);
      }
    }
  }

  lemma MergedIntentKnown(notes: set<Intent>, merged: set<ReceiptKey>, failedOut: set<string>, failedReceipts: set<ReceiptKey>, k: ReceiptKey)
    requires NotesOk(notes, merged, failedOut, failedReceipts) && k in merged
    ensures ReceiptIntent(k) in notes
  {
  }

  // --------------------------------------------------------------- sending locally

  /** An accepted send has a row with exactly the caller's intent; a refused one changes nothing. */
  lemma SendIsFaithful(n: Node, id: Identity, reg: Registry, q: SendRequest, createdAt: string, cap: nat)
    requires ForeignFamily(id, q.target).Some?
    ensures var (n', answer) := HandleSend(n, id, reg, q, createdAt, cap);
            if answer.Accepted?
            then q.eventId in n'.outbound && SameIntent(n'.outbound[q.eventId], q) && answer.status == n'.outbound[q.eventId].status
            else n' == n
  {
    ParseAddressIff(q.target, ParseAddress(q.target).value);
  }

  /** Repeating an accepted send, whenever and with whatever timestamp, answers from the stored row and changes nothing. */
  lemma SendRetryIsIdempotent(n: Node, id: Identity, reg: Registry, q: SendRequest, createdAt: string, later: string, cap: nat, cap': nat)
    requires ForeignFamily(id, q.target).Some? && IsTimestamp(later)
    requires HandleSend(n, id, reg, q, createdAt, cap).1.Accepted?
    ensures var n' := HandleSend(n, id, reg, q, createdAt, cap).0;
            HandleSend(n', id, reg, q, later, cap') == (n', Accepted(n'.outbound[q.eventId].status))
  {
    SendIsFaithful(n, id, reg, q, createdAt, cap);
  }
}
