/** One family's federation tables and what each store transaction does to them, as functions on values. */
module FedNode {
  import opened Options
  import opened FedSchema
  import L = Ledger

  datatype Identity = Identity(family: string, keyId: string, key: Key)

  datatype Record = Record(keyId: string, key: Key)

  type Registry = map<string, Record>

  datatype Status = Pending | Sent | FailedPermanent

  datatype Outbound = Outbound(sourceLocal: string, targetFamily: string, signed: SignedEvent, sig: Signature,
                               envelope: Envelope, notifyIntent: Intent, status: Status, attempts: nat,
                               nextRetryAt: Option<string>, lastError: Option<string>)

  datatype InKey = InKey(origin: string, eventId: string)

  datatype Inbound = Inbound(target: Addr, event: FedEvent, signed: SignedEvent, sig: Signature, regKey: Key, delivered: bool)

  datatype Reason = SameIdDifferentContent | LocalEventIdCollision

  datatype Conflict = Conflict(key: InKey, event: FedEvent, sig: Signature, reason: Reason)

  datatype AckKey = AckKey(eventId: string, agent: string, ackType: string)

  datatype ReceiptOriginal = ReceiptOriginal(signed: SignedReceipt, sig: Signature)

  datatype ReceiptOut = ReceiptOut(at: string, origin: string, sigHash: Digest, issuer: string, issuerKeyId: string,
                                   original: Option<ReceiptOriginal>, status: Status, attempts: nat,
                                   nextRetryAt: Option<string>, lastError: Option<string>)

  /** A distinct signed receipt as received; its row id is its position. */
  datatype Original = Original(key: ReceiptKey, issuer: string, signed: SignedReceipt, sig: Signature, variant: bool)

  datatype Notification = Notification(kind: string, agent: Option<string>, eventId: string, hintSent: bool, acked: bool)

  datatype Node = Node(
    ledger: L.Ledger, members: set<string>,
    outbound: map<string, Outbound>, inbound: map<InKey, Inbound>, conflicts: seq<Conflict>,
    acks: map<AckKey, string>, receiptOut: map<ReceiptKey, ReceiptOut>,
    originals: seq<Original>, receiptIn: map<ReceiptKey, nat>, notifications: map<Intent, Notification>)

  /** An operator changes members, tokens, grants and target lists at any time. */
  function Administered(n: Node, members: set<string>, tokens: seq<L.Token>, grants: seq<L.Grant>, acl: map<string, set<string>>): Node {
    n.(members := members, ledger := n.ledger.(tokens := tokens, grants := grants, acl := acl))
  }

  // ------------------------------------------------------------- notifications

  /** Insert-or-ignore by intent id. */
  function Notify(notes: map<Intent, Notification>, intent: Intent, note: Notification): map<Intent, Notification> {
    if intent in notes then notes else notes[intent := note]
  }

  function MarkHintSent(n: Node, intent: Intent): Node {
    if intent in n.notifications then
      n.(notifications := n.notifications[intent := n.notifications[intent].(hintSent := true)])
    else n
  }

  function AckHints(n: Node, intents: set<Intent>, agent: Option<string>): Node {
    n.(notifications := map i | i in n.notifications ::
         if i in intents && n.notifications[i].agent == agent then n.notifications[i].(acked := true) else n.notifications[i])
  }

  // ------------------------------------------------------------------ outbound

  function FailedOut(outbound: map<string, Outbound>): set<string> {
    set e | e in outbound && outbound[e].status.FailedPermanent?
  }

  function PendingOut(outbound: map<string, Outbound>): set<string> {
    set e | e in outbound && outbound[e].status.Pending?
  }

  function NewOutbound(id: Identity, sourceLocal: string, signed: SignedEvent): Outbound {
    var sig := Sig(id.key, EventDoc(signed), 0);
    Outbound(sourceLocal, signed.event.target.family, signed, sig, EventEnvelope(signed, sig),
             SendFailedIntent(signed.event.eventId), Pending, 0, None, None)
  }

  datatype Enqueued = Queued | Existing | OutboxFull

  function Enqueue(n: Node, row: Outbound, cap: nat): (Node, Enqueued) {
    var e := row.signed.event.eventId;
    if e in n.outbound then (n, Existing)
    else if |PendingOut(n.outbound)| >= cap then (n, OutboxFull)
    else (n.(outbound := n.outbound[e := row]), Queued)
  }

  predicate OutPending(n: Node, e: string) { e in n.outbound && n.outbound[e].status.Pending? }

  function MarkOutboundSent(n: Node, e: string): Node {
    if !OutPending(n, e) then n else
      var row := n.outbound[e];
      n.(outbound := n.outbound[e := row.(status := Sent, attempts := row.attempts + 1, lastError := None)])
  }

  function MarkOutboundRetry(n: Node, e: string, attempts: nat, at: string, error: string): Node {
    if !OutPending(n, e) then n else
      n.(outbound := n.outbound[e := n.outbound[e].(attempts := attempts, nextRetryAt := Some(at), lastError := Some(error))])
  }

  function FailOutbound(n: Node, e: string, error: string): Node {
    if !OutPending(n, e) then n else
      var row := n.outbound[e];
      n.(outbound := n.outbound[e := row.(status := FailedPermanent, attempts := row.attempts + 1, lastError := Some(error))],
         notifications := Notify(n.notifications, row.notifyIntent,
                                 Notification("send_failed", Some(row.sourceLocal), e, false, false)))
  }

  // ------------------------------------------------------------------- inbound

  datatype Received = StoredIn | DuplicateIn | ConflictIn(reason: Reason)

  function KeyOf(s: SignedEvent): InKey { InKey(s.origin, s.event.eventId) }

  /** The local logical event of a federated one. */
  function LocalRequest(s: SignedEvent): L.Request {
    var ev := s.event;
    var payload := map["text" := L.Text(ev.text)];
    L.Request(ev.eventId, AddressText(ev.source), ev.target.agent, ev.kind, None,
              L.Content(ev.createdAt, if ev.inReplyTo.Some? then payload["in_reply_to" := L.Text(ev.inReplyTo.value)] else payload,
                        true, None), None)
  }

  function NewInbound(s: SignedEvent, sig: Signature, regKey: Key): Inbound {
    Inbound(s.event.target, s.event, s, sig, regKey, false)
  }

  /** The four disjoint outcomes of receiving a verified event. */
  function Receive(n: Node, s: SignedEvent, sig: Signature, regKey: Key, now: nat): (Node, Received) {
    var k := KeyOf(s);
    if k in n.inbound then
      if n.inbound[k].event == s.event then (n, DuplicateIn)
      else (n.(conflicts := n.conflicts + [Conflict(k, s.event, sig, SameIdDifferentContent)]), ConflictIn(SameIdDifferentContent))
    else if L.HasId(n.ledger.events, k.eventId) then
      (n.(conflicts := n.conflicts + [Conflict(k, s.event, sig, LocalEventIdCollision)]), ConflictIn(LocalEventIdCollision))
    else
      (n.(inbound := n.inbound[k := NewInbound(s, sig, regKey)], ledger := L.Commit(n.ledger, LocalRequest(s), now)), StoredIn)
  }

  function MarkDelivered(n: Node, k: InKey): Node {
    if k in n.inbound then n.(inbound := n.inbound[k := n.inbound[k].(delivered := true)]) else n
  }

  // ---------------------------------------------------------------------- acks

  function ReceiptKeyFor(k: InKey, row: Inbound, ackType: string): ReceiptKey { ReceiptKey(k.eventId, row.target, ackType) }

  function NewReceiptOut(id: Identity, k: InKey, row: Inbound, at: string): ReceiptOut {
    ReceiptOut(at, k.origin, Sha256(row.sig), id.family, id.keyId, None, Pending, 0, None, None)
  }

  /** The recipient's ack of an inbound event: the ack is refreshed, the receipt intent is written once. */
  function AckWithReceipt(n: Node, id: Identity, k: InKey, ackType: string, at: string): Node
    requires k in n.inbound
  {
    var row := n.inbound[k];
    var rk := ReceiptKeyFor(k, row, ackType);
    n.(acks := n.acks[AckKey(k.eventId, row.target.agent, ackType) := at],
       receiptOut := if rk in n.receiptOut then n.receiptOut else n.receiptOut[rk := NewReceiptOut(id, k, row, at)])
  }

  predicate IsInbound(n: Node, e: string) { exists k :: k in n.inbound && k.eventId == e }

  datatype AckAnswer = Acked | NotRecipient | BadAckType | UnknownEvent

  /** What the ack endpoint writes once it has looked the event up; `found` is that answer, which may be old.
      Without one this is the plain local ack, which the operator's command also runs, with no lookup at all. */
  function WriteAck(n: Node, id: Identity, found: Option<InKey>, a: AckKey, at: string): (Node, AckAnswer)
    requires found.Some? ==> found.value in n.inbound && found.value.eventId == a.eventId
  {
    if found.Some? then
      if a.agent != n.inbound[found.value].target.agent then (n, NotRecipient)
      else if !IsAckType(a.ackType) then (n, BadAckType)
      else (AckWithReceipt(n, id, found.value, a.ackType, at), Acked)
    else if !IsAckType(a.ackType) then (n, BadAckType)
    else if !L.HasId(n.ledger.events, a.eventId) then (n, UnknownEvent)
    else (n.(acks := n.acks[a := at]), Acked)
  }

  // ------------------------------------------------------------- receipts sent

  function FailedReceipts(receiptOut: map<ReceiptKey, ReceiptOut>): set<ReceiptKey> {
    set k | k in receiptOut && receiptOut[k].status.FailedPermanent?
  }

  predicate ReceiptPending(n: Node, k: ReceiptKey) { k in n.receiptOut && n.receiptOut[k].status.Pending? }

  /** Built from the fixed fields of the first ack only. */
  function ComposeReceipt(id: Identity, k: ReceiptKey, row: ReceiptOut): ReceiptOriginal {
    var signed := SignedReceipt(id.family, id.keyId, Receipt(k.eventId, row.origin, row.sigHash, k.agent, k.ackType, row.at));
    ReceiptOriginal(signed, Sig(id.key, ReceiptDoc(signed), 0))
  }

  function Materialize(n: Node, k: ReceiptKey, original: ReceiptOriginal): Node {
    if ReceiptPending(n, k) && n.receiptOut[k].original.None? then
      n.(receiptOut := n.receiptOut[k := n.receiptOut[k].(original := Some(original))])
    else n
  }

  function MarkReceiptSent(n: Node, k: ReceiptKey): Node {
    if !ReceiptPending(n, k) then n else
      var row := n.receiptOut[k];
      n.(receiptOut := n.receiptOut[k := row.(status := Sent, attempts := row.attempts + 1, lastError := None)])
  }

  function MarkReceiptRetry(n: Node, k: ReceiptKey, attempts: nat, at: string, error: string): Node {
    if !ReceiptPending(n, k) then n else
      n.(receiptOut := n.receiptOut[k := n.receiptOut[k].(attempts := attempts, nextRetryAt := Some(at), lastError := Some(error))])
  }

  function FailReceipt(n: Node, k: ReceiptKey, error: string): Node {
    if !ReceiptPending(n, k) then n else
      var row := n.receiptOut[k];
      n.(receiptOut := n.receiptOut[k := row.(status := FailedPermanent, attempts := row.attempts + 1, lastError := Some(error))],
         notifications := Notify(n.notifications, ReceiptFailedIntent(k),
                                 Notification("receipt_send_failed", None, k.eventId, false, false)))
  }

  // --------------------------------------------------------- receipts received

  predicate HasOriginal(os: seq<Original>, k: ReceiptKey) { exists i :: 0 <= i < |os| && os[i].key == k }

  predicate HasSigned(os: seq<Original>, k: ReceiptKey, sig: Signature) {
    exists i :: 0 <= i < |os| && os[i].key == k && os[i].sig == sig
  }

  /** The row id of an original. */
  function IdOf(os: seq<Original>, k: ReceiptKey, sig: Signature): (i: nat)
    requires HasSigned(os, k, sig)
    ensures i < |os| && os[i].key == k && os[i].sig == sig
    decreases |os|
  {
    var last := |os| - 1;
    if os[last].key == k && os[last].sig == sig then last
    else
      assert HasSigned(os[..last], k, sig) by {
        var i :| 0 <= i < |os| && os[i].key == k && os[i].sig == sig;
        assert os[..last][i] == os[i];
      }
      IdOf(os[..last], k, sig)
  }

  /** Original, merged state and notification in one transaction; true when the original is new. */
  function RecordReceipt(n: Node, k: ReceiptKey, signed: SignedReceipt, sig: Signature, notifyAgent: string): (Node, bool) {
    var isNew := !HasSigned(n.originals, k, sig);
    var os := if isNew then n.originals + [Original(k, signed.issuer, signed, sig, HasOriginal(n.originals, k))] else n.originals;
    assert HasSigned(os, k, sig) by { if isNew { assert os[|n.originals|].key == k; } }
    (n.(originals := os,
        receiptIn := if k in n.receiptIn then n.receiptIn else n.receiptIn[k := IdOf(os, k, sig)],
        notifications := if !isNew then n.notifications
                         else Notify(n.notifications, ReceiptIntent(k),
                                     Notification("receipt_received", Some(notifyAgent), k.eventId, false, false))), isNew)
  }

  /** The merged stage of one addressee: applied over received over nothing. */
  function Stage(n: Node, e: string, agent: Addr): Option<string> {
    if ReceiptKey(e, agent, "applied") in n.receiptIn then Some("applied")
    else if ReceiptKey(e, agent, "received") in n.receiptIn then Some("received")
    else None
  }

  // ----------------------------------------------------------------- endpoints

  datatype Answer =
    | Ok(duplicate: bool)
    | ConflictAnswer
    | Rejected(code: int, reason: string)

  /** What the rate limiters say about this request. */
  datatype Gates = Gates(conn: bool, family: bool)

  predicate Registered(reg: Registry, family: string, keyId: string) {
    family in reg && reg[family].keyId == keyId
  }

  /** Everything about an inbox request but the rate limits and the membership of its addressee. */
  predicate Vetted(id: Identity, reg: Registry, env: Envelope) {
    && env.EventEnvelope? && BodySize(env) <= REQUEST_BODY_LIMIT && ValidEvent(env.event)
    && Registered(reg, env.event.origin, env.event.keyId)
    && Verifies(reg[env.event.origin].key, EventDoc(env.event), env.sig)
    && env.event.event.target.family == id.family
  }

  /** The checks before the receive transaction, in their order. */
  function InboxRefusal(n: Node, id: Identity, reg: Registry, env: Envelope, gates: Gates): Option<Answer> {
    if !gates.conn then Some(Rejected(429, "rate_limited_conn"))
    else if BodySize(env) > REQUEST_BODY_LIMIT then Some(Rejected(413, "body_too_large"))
    else if !env.EventEnvelope? || !ValidEvent(env.event) then Some(Rejected(400, "schema"))
    else
      var s := env.event;
      if !Registered(reg, s.origin, s.keyId) then Some(Rejected(403, "unregistered_key"))
      else if !Verifies(reg[s.origin].key, EventDoc(s), env.sig) then Some(Rejected(403, "signature"))
      else if !gates.family then Some(Rejected(429, "rate_limited_family"))
      else if s.event.target.family != id.family then Some(Rejected(422, "target_family"))
      else if s.event.target.agent !in n.members then Some(Rejected(422, "target_member"))
      else None
  }

  function StoreAnswer(r: Received): Answer {
    match r case StoredIn => Ok(false) case DuplicateIn => Ok(true) case ConflictIn(_) => ConflictAnswer
  }

  /** The receive transaction of a vetted request. */
  function StoreVetted(n: Node, reg: Registry, env: Envelope, now: nat): (Node, Received)
    requires env.EventEnvelope? && env.event.origin in reg
  {
    Receive(n, env.event, env.sig, reg[env.event.origin].key, now)
  }

  /** The endpoint run with nothing in between. */
  function HandleInbox(n: Node, id: Identity, reg: Registry, env: Envelope, gates: Gates, now: nat): (Node, Answer) {
    var refusal := InboxRefusal(n, id, reg, env, gates);
    if refusal.Some? then (n, refusal.value)
    else
      var (n', r) := StoreVetted(n, reg, env, now);
      (n', StoreAnswer(r))
  }

  function HandleReceipts(n: Node, id: Identity, reg: Registry, env: Envelope, gates: Gates): (Node, Answer) {
    if !gates.conn then (n, Rejected(429, "rate_limited_conn"))
    else if BodySize(env) > REQUEST_BODY_LIMIT then (n, Rejected(413, "body_too_large"))
    else if !env.ReceiptEnvelope? || !ValidReceipt(env.receipt) then (n, Rejected(400, "schema"))
    else
      var s, rc := env.receipt, env.receipt.receipt;
      if rc.eventId !in n.outbound then (n, Rejected(403, "unknown_event"))
      else
        var out := n.outbound[rc.eventId];
        if rc.origin != id.family then (n, Rejected(403, "origin_mismatch"))
        else if s.issuer != out.signed.event.target.family then (n, Rejected(403, "issuer_not_target_family"))
        else if !Registered(reg, s.issuer, s.keyId) then (n, Rejected(403, "unregistered_key"))
        else if !Verifies(reg[s.issuer].key, ReceiptDoc(s), env.sig) then (n, Rejected(403, "signature"))
        else if !gates.family then (n, Rejected(429, "rate_limited_family"))
        else if rc.sigHash != Sha256(out.sig) then (n, Rejected(403, "hash_mismatch"))
        else if rc.agent != out.signed.event.target then (n, Rejected(403, "agent_mismatch"))
        else
          var (n', isNew) := RecordReceipt(n, ReceiptKey(rc.eventId, rc.agent, rc.ackType), s, env.sig, out.sourceLocal);
          (n', Ok(!isNew))
  }

  datatype SendRequest = SendRequest(source: string, target: string, kind: string, text: string,
                                     inReplyTo: Option<string>, eventId: string)

  datatype SendAnswer = Accepted(status: Status) | BadRequest(reason: string) | TooMany | EventIdTaken

  /** The family a local send is routed to, when its target is a foreign address. */
  function ForeignFamily(id: Identity, target: string): Option<string> {
    var a := ParseAddress(target);
    if a.None? || a.value.family == id.family then None else Some(a.value.family)
  }

  function ComposeEvent(id: Identity, q: SendRequest, target: Addr, createdAt: string): SignedEvent {
    SignedEvent(id.family, id.keyId,
                FedEvent(q.eventId, q.kind, Addr(q.source, id.family), target, createdAt, q.text, q.inReplyTo))
  }

  predicate SameIntent(row: Outbound, q: SendRequest) {
    var ev := row.signed.event;
    row.sourceLocal == q.source && AddressText(ev.target) == q.target && ev.kind == q.kind
    && ev.text == q.text && ev.inReplyTo == q.inReplyTo
  }

  function HandleSend(n: Node, id: Identity, reg: Registry, q: SendRequest, createdAt: string, cap: nat): (Node, SendAnswer)
    requires ForeignFamily(id, q.target).Some?
  {
    if ForeignFamily(id, q.target).value !in reg then (n, BadRequest("unregistered family"))
    else if !IsEventType(q.kind) then (n, BadRequest("type"))
    else if q.inReplyTo.Some? && q.kind != "reply" then (n, BadRequest("in_reply_to requires reply"))
    else if q.inReplyTo.Some? && !IsUuid(q.inReplyTo.value) then (n, BadRequest("in_reply_to"))
    else if !IsUuid(q.eventId) then (n, BadRequest("event_id"))
    else if '@' in q.source then (n, BadRequest("source"))
    else
      var signed := ComposeEvent(id, q, ParseAddress(q.target).value, createdAt);
      if !ValidEvent(signed) then (n, BadRequest("envelope"))
      else
        var (n', r) := Enqueue(n, NewOutbound(id, q.source, signed), cap);
        match r
        case OutboxFull => (n, TooMany)
        case Queued => (n', Accepted(Pending))
        case Existing =>
          if SameIntent(n.outbound[q.eventId], q) then (n, Accepted(n.outbound[q.eventId].status)) else (n, EventIdTaken)
  }
}
