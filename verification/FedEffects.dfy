/** What each federation transaction and endpoint does and answers, decided by the tables before it: when it applies,
    which columns of which rows change and to what, and that everything else stays. */
module FedEffects {
  import opened Options
  import opened FedSchema
  import opened FedNode
  import L = Ledger

  // -------------------------------------------------------------------- frames

  /** Only the outbound row of e may differ. */
  predicate OneOutbound(n: Node, e: string, n': Node) {
    && e in n.outbound && n' == n.(outbound := n'.outbound, notifications := n'.notifications)
    && n'.outbound.Keys == n.outbound.Keys && forall d :: d in n.outbound && d != e ==> n'.outbound[d] == n.outbound[d]
  }

  /** Only the outgoing receipt k may differ. */
  predicate OneReceipt(n: Node, k: ReceiptKey, n': Node) {
    && k in n.receiptOut && n' == n.(receiptOut := n'.receiptOut, notifications := n'.notifications)
    && n'.receiptOut.Keys == n.receiptOut.Keys && forall j :: j in n.receiptOut && j != k ==> n'.receiptOut[j] == n.receiptOut[j]
  }

  /** The notification is there, and was added if it was not there before. */
  predicate Notified(n: Node, intent: Intent, note: Notification, n': Node) {
    && n'.notifications.Keys == n.notifications.Keys + {intent}
    && (forall i :: i in n.notifications ==> n'.notifications[i] == n.notifications[i])
    && (intent !in n.notifications ==> n'.notifications[intent] == note)
  }

  // ------------------------------------------------------------------ outbound

  predicate OutIsPending(n: Node, e: string) { e in n.outbound && n.outbound[e].status == Pending }

  /** Same row but for status, attempts, deadline and error. */
  predicate SameSend(a: Outbound, b: Outbound) {
    && b.sourceLocal == a.sourceLocal && b.targetFamily == a.targetFamily && b.signed == a.signed && b.sig == a.sig
    && b.envelope == a.envelope && b.notifyIntent == a.notifyIntent
  }

  predicate Enqueues(n: Node, row: Outbound, cap: nat, n': Node, r: Enqueued) {
    var e := row.signed.event.eventId;
    var full := |set x | x in n.outbound && n.outbound[x].status == Pending| >= cap;
    && (r == Existing <==> e in n.outbound)
    && (r == OutboxFull <==> e !in n.outbound && full)
    && (r == Queued <==> e !in n.outbound && !full)
    && (r != Queued ==> n' == n)
    && (r == Queued ==> n' == n.(outbound := n'.outbound) && n'.outbound.Keys == n.outbound.Keys + {e} && n'.outbound[e] == row
                        && forall d :: d in n.outbound ==> n'.outbound[d] == n.outbound[d])
  }

  predicate MarksSent(n: Node, e: string, n': Node) {
    if !OutIsPending(n, e) then n' == n
    else
      && OneOutbound(n, e, n') && n'.notifications == n.notifications
      && var a, b := n.outbound[e], n'.outbound[e];
         && SameSend(a, b) && b.status == Sent && b.attempts == a.attempts + 1
         && b.lastError == None && b.nextRetryAt == a.nextRetryAt
  }

  predicate MarksRetry(n: Node, e: string, attempts: nat, at: string, error: string, n': Node) {
    if !OutIsPending(n, e) then n' == n
    else
      && OneOutbound(n, e, n') && n'.notifications == n.notifications
      && var a, b := n.outbound[e], n'.outbound[e];
         && SameSend(a, b) && b.status == Pending && b.attempts == attempts
         && b.lastError == Some(error) && b.nextRetryAt == Some(at)
  }

  /** The failure is told to the agent that sent the event. */
  predicate Fails(n: Node, e: string, error: string, n': Node) {
    if !OutIsPending(n, e) then n' == n
    else
      && OneOutbound(n, e, n')
      && Notified(n, n.outbound[e].notifyIntent, Notification("send_failed", Some(n.outbound[e].sourceLocal), e, false, false), n')
      && var a, b := n.outbound[e], n'.outbound[e];
         && SameSend(a, b) && b.status == FailedPermanent && b.attempts == a.attempts + 1
         && b.lastError == Some(error) && b.nextRetryAt == a.nextRetryAt
  }

  lemma EnqueueEffect(n: Node, row: Outbound, cap: nat)
    ensures Enqueues(n, row, cap, Enqueue(n, row, cap).0, Enqueue(n, row, cap).1)
  {
    assert PendingOut(n.outbound) == set x | x in n.outbound && n.outbound[x].status == Pending;
  }

  lemma SentEffect(n: Node, e: string)
    ensures MarksSent(n, e, MarkOutboundSent(n, e))
  {
  }

  lemma RetryEffect(n: Node, e: string, attempts: nat, at: string, error: string)
    ensures MarksRetry(n, e, attempts, at, error, MarkOutboundRetry(n, e, attempts, at, error))
  {
  }

  lemma FailEffect(n: Node, e: string, error: string)
    ensures Fails(n, e, error, FailOutbound(n, e, error))
  {
  }

  // ------------------------------------------------------------------- inbound

  /** The four outcomes of receiving an event, by the rows that exist: stored with its inbound row and its local event, already
      stored, or refused with one conflict row. */
  predicate Receives(n: Node, s: SignedEvent, sig: Signature, regKey: Key, now: nat, n': Node, r: Received) {
    var k, ev := InKey(s.origin, s.event.eventId), s.event;
    var localId := exists i :: 0 <= i < |n.ledger.events| && n.ledger.events[i].eventId == ev.eventId;
    && (r == StoredIn <==> k !in n.inbound && !localId)
    && (r == DuplicateIn <==> k in n.inbound && n.inbound[k].event == ev)
    && (r == ConflictIn(SameIdDifferentContent) <==> k in n.inbound && n.inbound[k].event != ev)
    && (r == ConflictIn(LocalEventIdCollision) <==> k !in n.inbound && localId)
    && (r == DuplicateIn ==> n' == n)
    && (r.ConflictIn? ==> n' == n.(conflicts := n'.conflicts) && n'.conflicts == n.conflicts + [Conflict(k, ev, sig, r.reason)])
    && (r == StoredIn ==>
          && n' == n.(inbound := n'.inbound, ledger := n'.ledger)
          && n'.inbound == n.inbound[k := Inbound(ev.target, ev, s, sig, regKey, false)]
          && LocalCopyAdded(n.ledger, s, now, n'.ledger))
  }

  /** One local event for the addressee, with the next number of its source; it needs an ack and carries the text and the
      reply link, if any. */
  predicate LocalCopyAdded(l: L.Ledger, s: SignedEvent, now: nat, l': L.Ledger) {
    var ev, source := s.event, s.event.source.agent + "@" + s.event.source.family;
    && l'.audit == l.audit && l'.tokens == l.tokens && l'.grants == l.grants && l'.acl == l.acl
    && |l'.events| == |l.events| + 1 && l'.events[..|l.events|] == l.events
    && var e := l'.events[|l.events|];
       && e.eventId == ev.eventId && e.source == source && e.target == ev.target.agent && e.kind == ev.kind && e.storedAt == now
       && e.actor == None && e.content.createdAt == ev.createdAt && e.content.requiresAck && e.content.sourceRef == None
       && e.content.payload.Keys == (if ev.inReplyTo.Some? then {"text", "in_reply_to"} else {"text"})
       && e.content.payload["text"] == L.Text(ev.text)
       && (ev.inReplyTo.Some? ==> e.content.payload["in_reply_to"] == L.Text(ev.inReplyTo.value))
       && e.seqNo == (if source in l.counters then l.counters[source] + 1 else 1)
       && l'.counters == l.counters[source := e.seqNo]
  }

  lemma ReceiveEffect(n: Node, s: SignedEvent, sig: Signature, regKey: Key, now: nat)
    requires s.event.kind == "message" || s.event.kind == "reply"
    ensures Receives(n, s, sig, regKey, now, Receive(n, s, sig, regKey, now).0, Receive(n, s, sig, regKey, now).1)
  {
    if Receive(n, s, sig, regKey, now).1 == StoredIn { CopyEffect(n.ledger, s, now); }
  }

  lemma CopyEffect(l: L.Ledger, s: SignedEvent, now: nat)
    requires s.event.kind == "message" || s.event.kind == "reply"
    ensures LocalCopyAdded(l, s, now, L.Commit(l, LocalRequest(s), now))
  {
    assert s.event.source.agent + "@" + s.event.source.family == AddressText(s.event.source);
  }

  predicate MarksDelivered(n: Node, k: InKey, n': Node) {
    if k !in n.inbound then n' == n
    else
      && n' == n.(inbound := n'.inbound) && n'.inbound.Keys == n.inbound.Keys
      && (forall j :: j in n.inbound && j != k ==> n'.inbound[j] == n.inbound[j])
      && n'.inbound[k].delivered && n'.inbound[k].(delivered := n.inbound[k].delivered) == n.inbound[k]
  }

  lemma DeliveredEffect(n: Node, k: InKey)
    ensures MarksDelivered(n, k, MarkDelivered(n, k))
  {
  }

  // ---------------------------------------------------------------------- acks

  /** The ack is written or refreshed; the receipt intent of its addressee is written once, from this first ack. */
  predicate AcksFederated(n: Node, id: Identity, k: InKey, ackType: string, at: string, n': Node) {
    && k in n.inbound
    && var row := n.inbound[k];
       var rk := ReceiptKey(k.eventId, row.target, ackType);
       && n' == n.(acks := n'.acks, receiptOut := n'.receiptOut)
       && n'.acks == n.acks[AckKey(k.eventId, row.target.agent, ackType) := at]
       && n'.receiptOut.Keys == n.receiptOut.Keys + {rk}
       && (forall j :: j in n.receiptOut ==> n'.receiptOut[j] == n.receiptOut[j])
       && (rk !in n.receiptOut ==>
             n'.receiptOut[rk] == ReceiptOut(at, k.origin, Sha256(row.sig), id.family, id.keyId, None, Pending, 0, None, None))
  }

  lemma AckEffect(n: Node, id: Identity, k: InKey, ackType: string, at: string)
    requires k in n.inbound
    ensures AcksFederated(n, id, k, ackType, at, AckWithReceipt(n, id, k, ackType, at))
  {
  }

  predicate AnswersAck(n: Node, id: Identity, found: Option<InKey>, a: AckKey, at: string, n': Node, answer: AckAnswer)
    requires found.Some? ==> found.value in n.inbound
  {
    var mine := found.None? || a.agent == n.inbound[found.value].target.agent;
    var typed := a.ackType == "received" || a.ackType == "applied";
    var stored := exists i :: 0 <= i < |n.ledger.events| && n.ledger.events[i].eventId == a.eventId;
    && (answer == NotRecipient <==> !mine)
    && (answer == BadAckType <==> mine && !typed)
    && (answer == UnknownEvent <==> found.None? && typed && !stored)
    && (answer == Acked <==> mine && typed && (found.Some? || stored))
    && (answer != Acked ==> n' == n)
    && (answer == Acked ==>
          if found.Some? then AcksFederated(n, id, found.value, a.ackType, at, n') else n' == n.(acks := n.acks[a := at]))
  }

  lemma WriteAckEffect(n: Node, id: Identity, found: Option<InKey>, a: AckKey, at: string)
    requires found.Some? ==> found.value in n.inbound && found.value.eventId == a.eventId
    ensures AnswersAck(n, id, found, a, at, WriteAck(n, id, found, a, at).0, WriteAck(n, id, found, a, at).1)
  {
    if found.Some? { AckEffect(n, id, found.value, a.ackType, at); }
  }

  // ------------------------------------------------------------- receipts sent

  predicate ReceiptIsPending(n: Node, k: ReceiptKey) { k in n.receiptOut && n.receiptOut[k].status == Pending }

  /** Same row but for status, attempts, deadline and error. */
  predicate SameReceipt(a: ReceiptOut, b: ReceiptOut) {
    && b.at == a.at && b.origin == a.origin && b.sigHash == a.sigHash && b.issuer == a.issuer && b.issuerKeyId == a.issuerKeyId
    && b.original == a.original
  }

  /** The signed original is stored once, while the row is pending. */
  predicate Materializes(n: Node, k: ReceiptKey, original: ReceiptOriginal, n': Node) {
    if !ReceiptIsPending(n, k) || n.receiptOut[k].original.Some? then n' == n
    else
      && OneReceipt(n, k, n') && n'.notifications == n.notifications
      && n'.receiptOut[k].original == Some(original) && n'.receiptOut[k].(original := None) == n.receiptOut[k]
  }

  /** A receipt says what the first ack fixed, in the name and under the key of this family. */
  predicate IsReceiptOf(id: Identity, k: ReceiptKey, row: ReceiptOut, o: ReceiptOriginal) {
    && o.signed == SignedReceipt(id.family, id.keyId, Receipt(k.eventId, row.origin, row.sigHash, k.agent, k.ackType, row.at))
    && o.sig.key == id.key && o.sig.doc == ReceiptDoc(o.signed)
  }

  predicate MarksReceiptSent(n: Node, k: ReceiptKey, n': Node) {
    if !ReceiptIsPending(n, k) then n' == n
    else
      && OneReceipt(n, k, n') && n'.notifications == n.notifications
      && var a, b := n.receiptOut[k], n'.receiptOut[k];
         && SameReceipt(a, b) && b.status == Sent && b.attempts == a.attempts + 1
         && b.lastError == None && b.nextRetryAt == a.nextRetryAt
  }

  predicate MarksReceiptRetry(n: Node, k: ReceiptKey, attempts: nat, at: string, error: string, n': Node) {
    if !ReceiptIsPending(n, k) then n' == n
    else
      && OneReceipt(n, k, n') && n'.notifications == n.notifications
      && var a, b := n.receiptOut[k], n'.receiptOut[k];
         && SameReceipt(a, b) && b.status == Pending && b.attempts == attempts
         && b.lastError == Some(error) && b.nextRetryAt == Some(at)
  }

  /** The failure is told to the operator. */
  predicate FailsReceipt(n: Node, k: ReceiptKey, error: string, n': Node) {
    if !ReceiptIsPending(n, k) then n' == n
    else
      && OneReceipt(n, k, n')
      && Notified(n, ReceiptFailedIntent(k), Notification("receipt_send_failed", None, k.eventId, false, false), n')
      && var a, b := n.receiptOut[k], n'.receiptOut[k];
         && SameReceipt(a, b) && b.status == FailedPermanent && b.attempts == a.attempts + 1
         && b.lastError == Some(error) && b.nextRetryAt == a.nextRetryAt
  }

  lemma ReceiptIsComposed(id: Identity, k: ReceiptKey, row: ReceiptOut)
    ensures IsReceiptOf(id, k, row, ComposeReceipt(id, k, row))
  {
  }

  lemma MaterializeEffect(n: Node, k: ReceiptKey, original: ReceiptOriginal)
    ensures Materializes(n, k, original, Materialize(n, k, original))
  {
  }

  lemma ReceiptSentEffect(n: Node, k: ReceiptKey)
    ensures MarksReceiptSent(n, k, MarkReceiptSent(n, k))
  {
  }

  lemma ReceiptRetryEffect(n: Node, k: ReceiptKey, attempts: nat, at: string, error: string)
    ensures MarksReceiptRetry(n, k, attempts, at, error, MarkReceiptRetry(n, k, attempts, at, error))
  {
  }

  lemma FailReceiptEffect(n: Node, k: ReceiptKey, error: string)
    ensures FailsReceipt(n, k, error, FailReceipt(n, k, error))
  {
  }

  // --------------------------------------------------------- receipts received

  /** A known original changes nothing but a missing merged row; a new one is appended, marked a variant when its key had one,
      becomes the merged row if its key had none, and is notified. */
  predicate Records(n: Node, k: ReceiptKey, signed: SignedReceipt, sig: Signature, notifyAgent: string, n': Node, stored: bool) {
    var known := exists i :: 0 <= i < |n.originals| && n.originals[i].key == k && n.originals[i].sig == sig;
    var seen := exists i :: 0 <= i < |n.originals| && n.originals[i].key == k;
    && (stored <==> !known)
    && n' == n.(originals := n'.originals, receiptIn := n'.receiptIn, notifications := n'.notifications)
    && n'.originals == (if known then n.originals else n.originals + [Original(k, signed.issuer, signed, sig, seen)])
    && n'.receiptIn.Keys == n.receiptIn.Keys + {k} && (forall j :: j in n.receiptIn ==> n'.receiptIn[j] == n.receiptIn[j])
    && (k !in n.receiptIn ==>
          && n'.receiptIn[k] < |n'.originals|
          && n'.originals[n'.receiptIn[k]].key == k && n'.originals[n'.receiptIn[k]].sig == sig)
    && (if known then n'.notifications == n.notifications
        else Notified(n, ReceiptIntent(k), Notification("receipt_received", Some(notifyAgent), k.eventId, false, false), n'))
  }

  lemma RecordEffect(n: Node, k: ReceiptKey, signed: SignedReceipt, sig: Signature, notifyAgent: string)
    ensures Records(n, k, signed, sig, notifyAgent, RecordReceipt(n, k, signed, sig, notifyAgent).0,
                    RecordReceipt(n, k, signed, sig, notifyAgent).1)
  {
  }

  /** The applied receipt counts over the received one. */
  predicate IsStage(n: Node, e: string, agent: Addr, stage: Option<string>) {
    && (stage == Some("applied") <==> ReceiptKey(e, agent, "applied") in n.receiptIn)
    && (stage == Some("received") <==> ReceiptKey(e, agent, "received") in n.receiptIn && ReceiptKey(e, agent, "applied") !in n.receiptIn)
    && (stage == None <==> ReceiptKey(e, agent, "received") !in n.receiptIn && ReceiptKey(e, agent, "applied") !in n.receiptIn)
  }

  lemma StageExactly(n: Node, e: string, agent: Addr)
    ensures IsStage(n, e, agent, Stage(n, e, agent))
  {
  }

  // ------------------------------------------------------------- notifications

  predicate MarksHint(n: Node, intent: Intent, n': Node) {
    && n' == n.(notifications := n'.notifications) && n'.notifications.Keys == n.notifications.Keys
    && forall i :: i in n.notifications ==>
         var a, b := n.notifications[i], n'.notifications[i];
         && b.kind == a.kind && b.agent == a.agent && b.eventId == a.eventId && b.acked == a.acked
         && (b.hintSent <==> a.hintSent || i == intent)
  }

  /** Only the addressee's rows among the named ones are marked. */
  predicate AcksHints(n: Node, intents: set<Intent>, agent: Option<string>, n': Node) {
    && n' == n.(notifications := n'.notifications) && n'.notifications.Keys == n.notifications.Keys
    && forall i :: i in n.notifications ==>
         var a, b := n.notifications[i], n'.notifications[i];
         && b.kind == a.kind && b.agent == a.agent && b.eventId == a.eventId && b.hintSent == a.hintSent
         && (b.acked <==> a.acked || (i in intents && a.agent == agent))
  }

  lemma HintEffect(n: Node, intent: Intent)
    ensures MarksHint(n, intent, MarkHintSent(n, intent))
  {
  }

  lemma AckHintsEffect(n: Node, intents: set<Intent>, agent: Option<string>)
    ensures AcksHints(n, intents, agent, AckHints(n, intents, agent))
  {
  }

  // ----------------------------------------------------------------- endpoints

  /** The registered key of the family, by its key id. */
  predicate KnownSigner(reg: Registry, family: string, keyId: string, doc: Doc, sig: Signature) {
    family in reg && reg[family].keyId == keyId && sig.key == reg[family].key && sig.doc == doc
  }

  /** The event fits the schema: grammars, the source in its origin's name, the text limit, a reply link only on replies. */
  predicate FitsSchema(s: SignedEvent) {
    var ev := s.event;
    && IsFamily(s.origin) && IsKeyId(s.keyId) && IsUuid(ev.eventId) && (ev.kind == "message" || ev.kind == "reply")
    && IsAgent(ev.source.agent) && IsFamily(ev.source.family) && ev.source.family == s.origin
    && IsAgent(ev.target.agent) && IsFamily(ev.target.family) && IsTimestamp(ev.createdAt) && |ev.text| <= 8192
    && (ev.inReplyTo.Some? ==> ev.kind == "reply" && IsUuid(ev.inReplyTo.value))
  }

  predicate ReceiptFitsSchema(s: SignedReceipt) {
    var rc := s.receipt;
    && IsFamily(s.issuer) && IsKeyId(s.keyId) && IsUuid(rc.eventId) && IsFamily(rc.origin)
    && IsAgent(rc.agent.agent) && IsFamily(rc.agent.family) && (rc.ackType == "received" || rc.ackType == "applied") && IsTimestamp(rc.at)
  }

  /** Each refusal of the inbox holds exactly when its own check is the first to fail. */
  predicate AnswersInbox(n: Node, id: Identity, reg: Registry, env: Envelope, gates: Gates, refusal: Option<Answer>) {
    var sized := gates.conn && BodySize(env) <= 16384;
    var shaped := sized && env.EventEnvelope? && FitsSchema(env.event);
    var keyed := shaped && env.event.origin in reg && reg[env.event.origin].keyId == env.event.keyId;
    var signed := keyed && KnownSigner(reg, env.event.origin, env.event.keyId, EventDoc(env.event), env.sig);
    var ours := signed && gates.family && env.event.event.target.family == id.family;
    && (refusal == Some(Rejected(429, "rate_limited_conn")) <==> !gates.conn)
    && (refusal == Some(Rejected(413, "body_too_large")) <==> gates.conn && !sized)
    && (refusal == Some(Rejected(400, "schema")) <==> sized && !shaped)
    && (refusal == Some(Rejected(403, "unregistered_key")) <==> shaped && !keyed)
    && (refusal == Some(Rejected(403, "signature")) <==> keyed && !signed)
    && (refusal == Some(Rejected(429, "rate_limited_family")) <==> signed && !gates.family)
    && (refusal == Some(Rejected(422, "target_family")) <==> signed && gates.family && !ours)
    && (refusal == Some(Rejected(422, "target_member")) <==> ours && env.event.event.target.agent !in n.members)
    && (refusal == None <==> ours && env.event.event.target.agent in n.members)
  }

  lemma InboxEffect(n: Node, id: Identity, reg: Registry, env: Envelope, gates: Gates)
    ensures AnswersInbox(n, id, reg, env, gates, InboxRefusal(n, id, reg, env, gates))
  {
    hide BodySize;
    if env.EventEnvelope? { assert ValidEvent(env.event) <==> FitsSchema(env.event); }
  }

  /** A vetted event is answered by what receiving it did. */
  predicate AnswersStore(n: Node, s: SignedEvent, sig: Signature, regKey: Key, now: nat, n': Node, answer: Answer) {
    if answer == Ok(false) then Receives(n, s, sig, regKey, now, n', StoredIn)
    else if answer == Ok(true) then Receives(n, s, sig, regKey, now, n', DuplicateIn)
    else
      && answer == ConflictAnswer
      && (Receives(n, s, sig, regKey, now, n', ConflictIn(SameIdDifferentContent))
          || Receives(n, s, sig, regKey, now, n', ConflictIn(LocalEventIdCollision)))
  }

  /** The receipt is about a send of this family to the issuer's. */
  predicate AboutOurSend(n: Node, id: Identity, s: SignedReceipt) {
    && s.receipt.eventId in n.outbound && s.receipt.origin == id.family
    && s.issuer == n.outbound[s.receipt.eventId].signed.event.target.family
  }

  predicate Shaped(env: Envelope, gates: Gates) {
    gates.conn && BodySize(env) <= 16384 && env.ReceiptEnvelope? && ReceiptFitsSchema(env.receipt)
  }

  /** Each refusal of the receipt endpoint holds exactly when its own check is the first to fail: first those of the shape,
      then those of whose send it is about, then those of the signature and of the original it names. */
  predicate RefusesShape(env: Envelope, gates: Gates, answer: Answer) {
    && (answer == Rejected(429, "rate_limited_conn") <==> !gates.conn)
    && (answer == Rejected(413, "body_too_large") <==> gates.conn && BodySize(env) > 16384)
    && (answer == Rejected(400, "schema") <==> gates.conn && BodySize(env) <= 16384 && !Shaped(env, gates))
  }

  predicate RefusesForeign(n: Node, id: Identity, s: SignedReceipt, answer: Answer) {
    var sent := s.receipt.eventId in n.outbound;
    var ours := sent && s.receipt.origin == id.family;
    && (answer == Rejected(403, "unknown_event") <==> !sent)
    && (answer == Rejected(403, "origin_mismatch") <==> sent && !ours)
    && (answer == Rejected(403, "issuer_not_target_family") <==> ours && !AboutOurSend(n, id, s))
  }

  predicate RefusesLate(n: Node, reg: Registry, s: SignedReceipt, sig: Signature, gates: Gates, answer: Answer)
    requires s.receipt.eventId in n.outbound
  {
    var out := n.outbound[s.receipt.eventId];
    var keyed := s.issuer in reg && reg[s.issuer].keyId == s.keyId;
    var signed := keyed && KnownSigner(reg, s.issuer, s.keyId, ReceiptDoc(s), sig);
    var hashed := signed && gates.family && s.receipt.sigHash == Sha256(out.sig);
    var addressed := hashed && s.receipt.agent == out.signed.event.target;
    && (answer == Rejected(403, "unregistered_key") <==> !keyed)
    && (answer == Rejected(403, "signature") <==> keyed && !signed)
    && (answer == Rejected(429, "rate_limited_family") <==> signed && !gates.family)
    && (answer == Rejected(403, "hash_mismatch") <==> signed && gates.family && !hashed)
    && (answer == Rejected(403, "agent_mismatch") <==> hashed && !addressed)
    && (answer.Ok? <==> addressed)
  }

  /** A receipt that passes all checks is recorded, and answered as a duplicate exactly when the same signed original was there;
      any other changes nothing. */
  predicate AnswersReceipt(n: Node, id: Identity, reg: Registry, env: Envelope, gates: Gates, n': Node, answer: Answer) {
    && RefusesShape(env, gates, answer)
    && (Shaped(env, gates) ==> RefusesForeign(n, id, env.receipt, answer))
    && (if Shaped(env, gates) && AboutOurSend(n, id, env.receipt)
        then RefusesLate(n, reg, env.receipt, env.sig, gates, answer) else answer.Rejected?)
    && (!answer.Ok? ==> n' == n)
    && (answer.Ok? ==>
          && env.ReceiptEnvelope? && env.receipt.receipt.eventId in n.outbound
          && var rc := env.receipt.receipt;
             Records(n, ReceiptKey(rc.eventId, rc.agent, rc.ackType), env.receipt, env.sig, n.outbound[rc.eventId].sourceLocal,
                     n', !answer.duplicate))
  }

  lemma ReceiptSchema(s: SignedReceipt)
    ensures ValidReceipt(s) <==> ReceiptFitsSchema(s)
  {
  }

  lemma ShapeEffect(n: Node, id: Identity, reg: Registry, env: Envelope, gates: Gates)
    ensures RefusesShape(env, gates, HandleReceipts(n, id, reg, env, gates).1)
    ensures !Shaped(env, gates) ==> HandleReceipts(n, id, reg, env, gates).1.Rejected?
  {
    hide ValidReceipt, ReceiptFitsSchema, RecordReceipt, BodySize, Verifies, Registered;
    if env.ReceiptEnvelope? { ReceiptSchema(env.receipt); }
  }

  lemma ForeignEffect(n: Node, id: Identity, reg: Registry, env: Envelope, gates: Gates)
    requires Shaped(env, gates)
    ensures RefusesForeign(n, id, env.receipt, HandleReceipts(n, id, reg, env, gates).1)
    ensures !AboutOurSend(n, id, env.receipt) ==> HandleReceipts(n, id, reg, env, gates).1.Rejected?
  {
    hide ValidReceipt, ReceiptFitsSchema, RecordReceipt, BodySize, Verifies, Registered;
    ReceiptSchema(env.receipt);
  }

  lemma LateEffect(n: Node, id: Identity, reg: Registry, env: Envelope, gates: Gates)
    requires Shaped(env, gates) && AboutOurSend(n, id, env.receipt)
    ensures RefusesLate(n, reg, env.receipt, env.sig, gates, HandleReceipts(n, id, reg, env, gates).1)
  {
    hide ValidReceipt, ReceiptFitsSchema, RecordReceipt, BodySize;
    ReceiptSchema(env.receipt);
  }

  lemma AcceptedIsRecorded(n: Node, id: Identity, reg: Registry, env: Envelope, gates: Gates)
    ensures var (n', answer) := HandleReceipts(n, id, reg, env, gates);
            if !answer.Ok? then n' == n
            else
              && env.ReceiptEnvelope? && env.receipt.receipt.eventId in n.outbound
              && var rc := env.receipt.receipt;
                 (n', !answer.duplicate) == RecordReceipt(n, ReceiptKey(rc.eventId, rc.agent, rc.ackType), env.receipt, env.sig,
                                                          n.outbound[rc.eventId].sourceLocal)
  {
    hide ValidReceipt, RecordReceipt, BodySize, Verifies, Registered;
  }

  lemma ReceiptsEffect(n: Node, id: Identity, reg: Registry, env: Envelope, gates: Gates)
    ensures AnswersReceipt(n, id, reg, env, gates, HandleReceipts(n, id, reg, env, gates).0, HandleReceipts(n, id, reg, env, gates).1)
  {
    hide HandleReceipts, ReceiptFitsSchema, BodySize, AboutOurSend, Records, RecordReceipt, RefusesShape, RefusesForeign, RefusesLate;
    ShapeEffect(n, id, reg, env, gates);
    AcceptedIsRecorded(n, id, reg, env, gates);
    if Shaped(env, gates) {
      ForeignEffect(n, id, reg, env, gates);
      if AboutOurSend(n, id, env.receipt) { LateEffect(n, id, reg, env, gates); }
    }
    if env.ReceiptEnvelope? && env.receipt.receipt.eventId in n.outbound {
      var rc := env.receipt.receipt;
      RecordEffect(n, ReceiptKey(rc.eventId, rc.agent, rc.ackType), env.receipt, env.sig, n.outbound[rc.eventId].sourceLocal);
    }
  }

  /** The document that a send signs. */
  function Composed(id: Identity, q: SendRequest, target: Addr, createdAt: string): SignedEvent {
    SignedEvent(id.family, id.keyId,
                FedEvent(q.eventId, q.kind, Addr(q.source, id.family), target, createdAt, q.text, q.inReplyTo))
  }

  /** The stored row is of the same source, target, kind, text and reply link. */
  predicate CarriesIntent(row: Outbound, q: SendRequest) {
    var ev := row.signed.event;
    && row.sourceLocal == q.source && ev.target.agent + "@" + ev.target.family == q.target && ev.kind == q.kind
    && ev.text == q.text && ev.inReplyTo == q.inReplyTo
  }

  /** Which sends are accepted, and each refusal exactly; only an accepted send with an unused id adds a row. */
  predicate AnswersSend(n: Node, id: Identity, reg: Registry, q: SendRequest, target: Addr, createdAt: string, cap: nat,
                        n': Node, answer: SendAnswer) {
    var typed := target.family in reg && (q.kind == "message" || q.kind == "reply");
    var linked := typed && (q.inReplyTo.None? || (q.kind == "reply" && IsUuid(q.inReplyTo.value)));
    var local := linked && IsUuid(q.eventId) && '@' !in q.source;
    var signed := Composed(id, q, target, createdAt);
    var fits := local && FitsSchema(signed);
    var used, full := q.eventId in n.outbound, |set e | e in n.outbound && n.outbound[e].status == Pending| >= cap;
    var same := used && CarriesIntent(n.outbound[q.eventId], q);
    && (answer.Accepted? <==> fits && if used then same else !full)
    && (answer == TooMany <==> fits && !used && full)
    && (answer == EventIdTaken <==> fits && used && !same)
    && (answer.BadRequest? <==> !fits)
    && (answer == BadRequest("unregistered family") <==> target.family !in reg)
    && (answer == BadRequest("type") <==> target.family in reg && !typed)
    && (answer == BadRequest("in_reply_to requires reply") <==> typed && q.inReplyTo.Some? && q.kind != "reply")
    && (answer == BadRequest("in_reply_to") <==> typed && q.inReplyTo.Some? && q.kind == "reply" && !linked)
    && (answer == BadRequest("event_id") <==> linked && !IsUuid(q.eventId))
    && (answer == BadRequest("source") <==> linked && IsUuid(q.eventId) && '@' in q.source)
    && (answer == BadRequest("envelope") <==> local && !fits)
    && (answer.Accepted? && used ==> n' == n && answer.status == n.outbound[q.eventId].status)
    && (!answer.Accepted? ==> n' == n)
    && (answer.Accepted? && !used ==>
          var sig := Sig(id.key, EventDoc(signed), 0);
          && answer.status == Pending
          && n' == n.(outbound := n.outbound[q.eventId :=
                        Outbound(q.source, target.family, signed, sig, EventEnvelope(signed, sig), SendFailedIntent(q.eventId),
                                 Pending, 0, None, None)]))
  }

  lemma SendEffect(n: Node, id: Identity, reg: Registry, q: SendRequest, createdAt: string, cap: nat)
    requires ForeignFamily(id, q.target).Some?
    ensures ParseAddress(q.target).Some? && ParseAddress(q.target).value.family != id.family
    ensures AnswersSend(n, id, reg, q, ParseAddress(q.target).value, createdAt, cap,
                        HandleSend(n, id, reg, q, createdAt, cap).0, HandleSend(n, id, reg, q, createdAt, cap).1)
  {
    var target := ParseAddress(q.target).value;
    var signed := Composed(id, q, target, createdAt);
    assert ComposeEvent(id, q, target, createdAt) == signed && (ValidEvent(signed) <==> FitsSchema(signed));
    assert PendingOut(n.outbound) == set e | e in n.outbound && n.outbound[e].status == Pending;
    if q.eventId in n.outbound {
      var ev := n.outbound[q.eventId].signed.event;
      assert AddressText(ev.target) == ev.target.agent + "@" + ev.target.family;
    }
  }
}
