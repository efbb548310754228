/** Runs of many families over a network that loses, repeats, delays and reorders, with crashes and
    outsiders. A node's tables survive a crash; what a worker holds between two steps is only a reply
    it may lose, so a crash is a reply that is never used. */
module FedRuns {
  import opened Options
  import opened FedSchema
  import opened FedNode
  import opened FedInvariant
  import E = FedEffects
  import L = Ledger
  import R = Retry

  /** The honest families with their identities, and every honest node's registry. */
  datatype Config = Config(identities: map<string, Identity>, registries: map<string, Registry>)

  /** Key ids are well formed, and registries hold the true key of every honest family they list;
      other entries are unconstrained. */
  ghost predicate GoodConfig(c: Config) {
    && c.identities.Keys == c.registries.Keys
    && (forall f :: f in c.identities ==> c.identities[f].family == f && IsKeyId(c.identities[f].keyId))
    && forall f, g :: f in c.identities && g in c.identities && f in c.registries[g] ==>
         c.registries[g][f].key == c.identities[f].key
  }

  /** A success answer of family `peer` to a request that carried this envelope. */
  datatype Reply = Reply(peer: string, env: Envelope)

  /** A request handler between its reads and its write: an ack with the answer of its lookup, or an inbox
      request that passed its checks. */
  datatype Request =
    | AckRequest(f: string, a: AckKey, found: Option<InKey>)
    | StoreRequest(f: string, env: Envelope)

  /** Envelopes never leave the wire: any of them may be delivered late, twice, or never. */
  datatype World = World(nodes: map<string, Node>, wire: set<Envelope>, replies: set<Reply>, requests: map<nat, Request>)

  /** Transactions that neither read the network nor follow a reply. What they read before they write never
      changes afterwards, except for acks and inbox requests, which are split into their steps. */
  datatype Op =
    | Send(q: SendRequest, createdAt: string, cap: nat)
    | RetryEvent(e: string, attempts: nat, at: string, error: string)
    | FailEvent(e: string, error: string)
    | AckDirectly(a: AckKey, at: string)
    | LocalWrite(r: L.Request, now: nat)
    | Administer(members: set<string>, tokens: seq<L.Token>, grants: seq<L.Grant>, acl: map<string, set<string>>)
    | MarkDelivery(key: InKey)
    | MaterializeOriginal(rk: ReceiptKey)
    | RetryReceipt(rk: ReceiptKey, attempts: nat, at: string, error: string)
    | FailReceiptSend(rk: ReceiptKey, error: string)
    | PushHint(intent: Intent)
    | AckNotifications(intents: set<Intent>, agent: Option<string>)

  datatype Action =
    | Local(f: string, op: Op)
    | Transmit(f: string, e: string)
    | Vet(f: string, run: nat, env: Envelope, gates: Gates)
    | Store(f: string, run: nat, now: nat)
    | LookUp(f: string, run: nat, a: AckKey, found: Option<InKey>)
    | AckLookedUp(f: string, run: nat, at: string)
    | Drop(f: string, run: nat)
    | EventReply(f: string, e: string)
    | TransmitReceipt(f: string, rk: ReceiptKey)
    | DeliverReceipt(f: string, env: Envelope, gates: Gates)
    | ReceiptReply(f: string, rk: ReceiptKey)
    | Outsider(env: Envelope)

  predicate OpEnabled(n: Node, id: Identity, op: Op) {
    match op
    case Send(q, _, _) => ForeignFamily(id, q.target).Some?
    case AckDirectly(_, at) => IsTimestamp(at)
    case MaterializeOriginal(rk) => rk in n.receiptOut
    case _ => true
  }

  function ApplyOp(n: Node, id: Identity, reg: Registry, op: Op): Node
    requires OpEnabled(n, id, op)
  {
    match op
    case Send(q, createdAt, cap) => HandleSend(n, id, reg, q, createdAt, cap).0
    case RetryEvent(e, attempts, at, error) => MarkOutboundRetry(n, e, attempts, at, error)
    case FailEvent(e, error) => FailOutbound(n, e, error)
    case AckDirectly(a, at) => WriteAck(n, id, None, a, at).0
    case LocalWrite(r, now) => n.(ledger := L.Insert(n.ledger, r, now).0)
    case Administer(members, tokens, grants, acl) => Administered(n, members, tokens, grants, acl)
    case MarkDelivery(key) => MarkDelivered(n, key)
    case MaterializeOriginal(rk) => Materialize(n, rk, ComposeReceipt(id, rk, n.receiptOut[rk]))
    case RetryReceipt(rk, attempts, at, error) => MarkReceiptRetry(n, rk, attempts, at, error)
    case FailReceiptSend(rk, error) => FailReceipt(n, rk, error)
    case PushHint(intent) => MarkHintSent(n, intent)
    case AckNotifications(intents, agent) => AckHints(n, intents, agent)
  }

  /** The answer of looking an event up in the inbound table. */
  predicate LookupAnswer(n: Node, e: string, found: Option<InKey>) {
    if found.Some? then found.value in n.inbound && found.value.eventId == e else !IsInbound(n, e)
  }

  /** A signature an outsider can use: not by an honest key, or seen on the wire. */
  predicate Usable(c: Config, w: World, sig: Signature) {
    || (forall f :: f in c.identities ==> c.identities[f].key != sig.key)
    || (exists seen :: seen in w.wire && seen.sig == sig)
  }

  predicate NodeEnabled(c: Config, w: World, n: Node, a: Action)
    requires !a.Outsider? && a.f in c.identities && a.f in c.registries
  {
    match a
    case Local(f, op) => OpEnabled(n, c.identities[f], op)
    case Transmit(f, e) => OutPending(n, e) && n.outbound[e].targetFamily in c.registries[f]
    case Vet(f, run, env, gates) =>
      run !in w.requests && env in w.wire && InboxRefusal(n, c.identities[f], c.registries[f], env, gates).None?
    case Store(f, run, _) =>
      && run in w.requests && w.requests[run].StoreRequest? && w.requests[run].f == f
      && w.requests[run].env.EventEnvelope? && w.requests[run].env.event.origin in c.registries[f]
    case LookUp(_, run, a, found) => run !in w.requests && LookupAnswer(n, a.eventId, found)
    case AckLookedUp(f, run, at) =>
      && run in w.requests && w.requests[run].AckRequest? && w.requests[run].f == f && IsTimestamp(at)
      && (w.requests[run].found.Some? ==>
            w.requests[run].found.value in n.inbound && w.requests[run].found.value.eventId == w.requests[run].a.eventId)
    case Drop(f, run) => run in w.requests && w.requests[run].f == f
    // The peer's endpoint answered this very envelope; a dishonest peer answers what it likes.
    case EventReply(f, e) =>
      && OutPending(n, e)
      && (n.outbound[e].targetFamily in c.identities ==>
            Reply(n.outbound[e].targetFamily, n.outbound[e].envelope) in w.replies)
    case TransmitReceipt(f, rk) =>
      ReceiptPending(n, rk) && n.receiptOut[rk].original.Some? && n.receiptOut[rk].origin in c.registries[f]
    case DeliverReceipt(_, env, _) => env in w.wire
    case ReceiptReply(f, rk) =>
      && ReceiptPending(n, rk) && n.receiptOut[rk].original.Some?
      && (n.receiptOut[rk].origin in c.identities ==>
            Reply(n.receiptOut[rk].origin, ReceiptBody(n.receiptOut[rk])) in w.replies)
  }

  predicate Enabled(c: Config, w: World, a: Action) {
    if a.Outsider? then Usable(c, w, a.env.sig)
    else a.f in w.nodes && a.f in c.identities && a.f in c.registries && NodeEnabled(c, w, w.nodes[a.f], a)
  }

  function ReceiptBody(row: ReceiptOut): Envelope
    requires row.original.Some?
  {
    ReceiptEnvelope(row.original.value.signed, row.original.value.sig)
  }

  function NodeAfter(c: Config, w: World, a: Action): Node
    requires !a.Outsider? && Enabled(c, w, a)
  {
    var n, id, reg := w.nodes[a.f], c.identities[a.f], c.registries[a.f];
    match a
    case Local(_, op) => ApplyOp(n, id, reg, op)
    case Store(_, run, now) => StoreVetted(n, reg, w.requests[run].env, now).0
    case AckLookedUp(_, run, at) => WriteAck(n, id, w.requests[run].found, w.requests[run].a, at).0
    case EventReply(_, e) => MarkOutboundSent(n, e)
    case DeliverReceipt(_, env, gates) => HandleReceipts(n, id, reg, env, gates).0
    case ReceiptReply(_, rk) => MarkReceiptSent(n, rk)
    case _ => n
  }

  /** What the step puts on the wire. */
  function Emitted(c: Config, w: World, a: Action): set<Envelope>
    requires Enabled(c, w, a)
  {
    match a
    case Transmit(f, e) => {w.nodes[f].outbound[e].envelope}
    case TransmitReceipt(f, rk) => {ReceiptBody(w.nodes[f].receiptOut[rk])}
    case Outsider(env) => {env}
    case _ => {}
  }

  function Answered(c: Config, w: World, a: Action): set<Reply>
    requires Enabled(c, w, a)
  {
    match a
    case Store(f, run, now) =>
      if StoreAnswer(StoreVetted(w.nodes[f], c.registries[f], w.requests[run].env, now).1).Ok?
      then {Reply(f, w.requests[run].env)} else {}
    case DeliverReceipt(f, env, gates) =>
      if HandleReceipts(w.nodes[f], c.identities[f], c.registries[f], env, gates).1.Ok? then {Reply(f, env)} else {}
    case _ => {}
  }

  function RequestsAfter(c: Config, w: World, a: Action): map<nat, Request>
    requires Enabled(c, w, a)
  {
    match a
    case Vet(f, run, env, _) => w.requests[run := StoreRequest(f, env)]
    case LookUp(f, run, x, found) => w.requests[run := AckRequest(f, x, found)]
    case Store(_, run, _) => w.requests - {run}
    case AckLookedUp(_, run, _) => w.requests - {run}
    case Drop(_, run) => w.requests - {run}
    case _ => w.requests
  }

  function Step(c: Config, w: World, a: Action): World
    requires Enabled(c, w, a)
  {
    World(if a.Outsider? then w.nodes else w.nodes[a.f := NodeAfter(c, w, a)],
          w.wire + Emitted(c, w, a), w.replies + Answered(c, w, a), RequestsAfter(c, w, a))
  }

  predicate EmptyNode(n: Node) {
    && n.ledger.events == [] && n.ledger.counters == map[] && n.ledger.audit == []
    && n.outbound == map[] && n.inbound == map[] && n.acks == map[] && n.receiptOut == map[]
    && n.originals == [] && n.receiptIn == map[] && n.notifications == map[]
  }

  predicate IsInit(c: Config, w: World) {
    && w.nodes.Keys == c.identities.Keys && w.wire == {} && w.replies == {} && w.requests == map[]
    && forall f :: f in w.nodes ==> EmptyNode(w.nodes[f])
  }

  ghost predicate IsRun(c: Config, ws: seq<World>, acts: seq<Action>) {
    && GoodConfig(c) && |ws| == |acts| + 1 && IsInit(c, ws[0])
    && forall i :: 0 <= i < |acts| ==> Enabled(c, ws[i], acts[i]) && ws[i + 1] == Step(c, ws[i], acts[i])
  }

  // ------------------------------------------------------------------ invariant

  /** The signature is over a row of this node's own tables. */
  predicate Issued(n: Node, sig: Signature) {
    match sig.doc
    case EventDoc(s) =>
      var e := s.event.eventId; e in n.outbound && n.outbound[e].signed == s && n.outbound[e].sig == sig
    case ReceiptDoc(s) =>
      var k := ReceiptKey(s.receipt.eventId, s.receipt.agent, s.receipt.ackType);
      k in n.receiptOut && n.receiptOut[k].original == Some(ReceiptOriginal(s, sig))
  }

  /** A signature by an honest family's key on a document in that family's name was issued by it. */
  ghost predicate Genuine(c: Config, nodes: map<string, Node>, sig: Signature) {
    forall f :: f in c.identities && f in nodes && c.identities[f].key == sig.key && IssuerOf(sig.doc) == f ==>
      Issued(nodes[f], sig)
  }

  predicate HasStored(n: Node, s: SignedEvent) {
    KeyOf(s) in n.inbound && n.inbound[KeyOf(s)].event == s.event
  }

  predicate HasRecorded(n: Node, s: SignedReceipt, sig: Signature) {
    HasSigned(n.originals, ReceiptKey(s.receipt.eventId, s.receipt.agent, s.receipt.ackType), sig)
  }

  /** What a success answer promises. */
  predicate ReplyTrue(nodes: map<string, Node>, r: Reply) {
    && r.peer in nodes
    && match r.env
       case EventEnvelope(s, _) => HasStored(nodes[r.peer], s)
       case ReceiptEnvelope(s, sig) => HasRecorded(nodes[r.peer], s, sig)
  }

  predicate EventArrived(c: Config, nodes: map<string, Node>, row: Outbound) {
    row.targetFamily in c.identities ==> row.targetFamily in nodes && HasStored(nodes[row.targetFamily], row.signed)
  }

  predicate ReceiptArrived(c: Config, nodes: map<string, Node>, row: ReceiptOut) {
    && row.original.Some?
    && (row.origin in c.identities ==>
          row.origin in nodes && HasRecorded(nodes[row.origin], row.original.value.signed, row.original.value.sig))
  }

  ghost predicate NodesOk(c: Config, nodes: map<string, Node>) {
    && nodes.Keys == c.identities.Keys == c.registries.Keys
    && forall f :: f in nodes ==> NodeInv(nodes[f], c.identities[f], c.registries[f])
  }

  ghost predicate WireOk(c: Config, nodes: map<string, Node>, wire: set<Envelope>) {
    forall env :: env in wire ==> Genuine(c, nodes, env.sig)
  }

  ghost predicate AllGenuine(c: Config, nodes: map<string, Node>, n: Node) {
    && (forall k :: k in n.inbound ==> Genuine(c, nodes, n.inbound[k].sig))
    && (forall i :: 0 <= i < |n.originals| ==> Genuine(c, nodes, n.originals[i].sig))
  }

  ghost predicate SigsOk(c: Config, nodes: map<string, Node>) {
    forall f :: f in nodes ==> AllGenuine(c, nodes, nodes[f])
  }

  predicate RepliesOk(nodes: map<string, Node>, replies: set<Reply>) { forall r :: r in replies ==> ReplyTrue(nodes, r) }

  predicate AllArrived(c: Config, nodes: map<string, Node>, n: Node) {
    && (forall e :: e in n.outbound && n.outbound[e].status.Sent? ==> EventArrived(c, nodes, n.outbound[e]))
    && (forall k :: k in n.receiptOut && n.receiptOut[k].status.Sent? ==> ReceiptArrived(c, nodes, n.receiptOut[k]))
  }

  predicate SentOk(c: Config, nodes: map<string, Node>) {
    forall f :: f in nodes ==> AllArrived(c, nodes, nodes[f])
  }

  /** What a handler read still holds when it writes. */
  ghost predicate RequestOk(c: Config, nodes: map<string, Node>, q: Request) {
    && q.f in nodes && q.f in c.identities && q.f in c.registries
    && match q
       case AckRequest(f, a, found) => found.Some? ==> found.value in nodes[f].inbound && found.value.eventId == a.eventId
       case StoreRequest(f, env) => Vetted(c.identities[f], c.registries[f], env) && Genuine(c, nodes, env.sig)
  }

  ghost predicate RequestsOk(c: Config, nodes: map<string, Node>, requests: map<nat, Request>) {
    forall run :: run in requests ==> RequestOk(c, nodes, requests[run])
  }

  ghost predicate Inv(c: Config, w: World) {
    && NodesOk(c, w.nodes) && WireOk(c, w.nodes, w.wire) && SigsOk(c, w.nodes)
    && RepliesOk(w.nodes, w.replies) && SentOk(c, w.nodes) && RequestsOk(c, w.nodes, w.requests)
  }

  // ----------------------------------------------------------- one node, one step

  predicate IsReceiptOp(op: Op) { op.MaterializeOriginal? || op.RetryReceipt? || op.FailReceiptSend? }

  predicate IsNoteOp(op: Op) { op.PushHint? || op.AckNotifications? }

  lemma EventOpKeeps(n: Node, id: Identity, reg: Registry, op: Op)
    requires NodeInv(n, id, reg) && OpEnabled(n, id, op) && !IsReceiptOp(op) && !IsNoteOp(op) && !op.AckDirectly?
    ensures NodeInv(ApplyOp(n, id, reg, op), id, reg)
  {
    match op
    case Send(q, createdAt, cap) => HandleSendKeeps(n, id, reg, q, createdAt, cap);
    case RetryEvent(e, attempts, at, error) => MarkOutboundRetryKeeps(n, id, reg, e, attempts, at, error);
    case FailEvent(e, error) => FailOutboundKeeps(n, id, reg, e, error);
    case LocalWrite(r, now) => LocalInsertKeeps(n, id, reg, r, now);
    case Administer(members, tokens, grants, acl) => AdministeredKeeps(n, id, reg, members, tokens, grants, acl);
    case MarkDelivery(key) => MarkDeliveredKeeps(n, id, reg, key);
  }

  lemma ReceiptOpKeeps(n: Node, id: Identity, reg: Registry, op: Op)
    requires NodeInv(n, id, reg) && OpEnabled(n, id, op) && IsReceiptOp(op)
    ensures NodeInv(ApplyOp(n, id, reg, op), id, reg)
  {
    if op.MaterializeOriginal? {
      MaterializeKeeps(n, id, reg, op.rk);
    } else if op.RetryReceipt? {
      MarkReceiptRetryKeeps(n, id, reg, op.rk, op.attempts, op.at, op.error);
    } else {
      FailReceiptKeeps(n, id, reg, op.rk, op.error);
    }
  }

  lemma NoteOpKeeps(n: Node, id: Identity, reg: Registry, op: Op)
    requires NodeInv(n, id, reg) && IsNoteOp(op)
    ensures NodeInv(ApplyOp(n, id, reg, op), id, reg)
  {
    match op
    case PushHint(intent) => MarkHintKeeps(n, id, reg, intent);
    case AckNotifications(intents, agent) => AckHintsKeeps(n, id, reg, intents, agent);
  }

  lemma OpKeeps(n: Node, id: Identity, reg: Registry, op: Op)
    requires NodeInv(n, id, reg) && OpEnabled(n, id, op)
    ensures NodeInv(ApplyOp(n, id, reg, op), id, reg)
  {
    if IsReceiptOp(op) {
      ReceiptOpKeeps(n, id, reg, op);
    } else if IsNoteOp(op) {
      NoteOpKeeps(n, id, reg, op);
    } else if op.AckDirectly? {
      WriteAckKeeps(n, id, reg, None, op.a, op.at);
    } else {
      EventOpKeeps(n, id, reg, op);
    }
  }

  lemma OpGrows(n: Node, id: Identity, reg: Registry, op: Op)
    requires L.Valid(n.ledger) && OpEnabled(n, id, op)
    ensures Grows(n, ApplyOp(n, id, reg, op))
  {
    match op
    case Send(q, createdAt, cap) => HandleSendGrows(n, id, reg, q, createdAt, cap);
    case RetryEvent(e, attempts, at, error) => MarkOutboundRetryGrows(n, e, attempts, at, error);
    case FailEvent(e, error) => FailOutboundGrows(n, e, error);
    case AckDirectly(a, at) => WriteAckGrows(n, id, None, a, at);
    case LocalWrite(r, now) => LocalInsertGrows(n, r, now);
    case Administer(members, tokens, grants, acl) => AdministeredGrows(n, members, tokens, grants, acl);
    case MarkDelivery(key) => MarkDeliveredGrows(n, key);
    case MaterializeOriginal(rk) => MaterializeGrows(n, rk, ComposeReceipt(id, rk, n.receiptOut[rk]));
    case RetryReceipt(rk, attempts, at, error) => MarkReceiptRetryGrows(n, rk, attempts, at, error);
    case FailReceiptSend(rk, error) => FailReceiptGrows(n, rk, error);
    case PushHint(intent) => MarkHintGrows(n, intent);
    case AckNotifications(intents, agent) => AckHintsGrows(n, intents, agent);
  }

  lemma StoreVettedGrows(n: Node, reg: Registry, env: Envelope, now: nat)
    requires env.EventEnvelope? && env.event.origin in reg
    ensures Grows(n, StoreVetted(n, reg, env, now).0)
  {
    ReceiveGrows(n, env.event, env.sig, reg[env.event.origin].key, now);
  }

  lemma NodeStepKeeps(c: Config, w: World, a: Action)
    requires !a.Outsider? && Enabled(c, w, a) && NodeInv(w.nodes[a.f], c.identities[a.f], c.registries[a.f])
    requires RequestsOk(c, w.nodes, w.requests)
    ensures NodeInv(NodeAfter(c, w, a), c.identities[a.f], c.registries[a.f])
    ensures Grows(w.nodes[a.f], NodeAfter(c, w, a))
  {
    hide NodeInv, Grows, HandleReceipts, InboxRefusal, BodySize, WriteAck;
    var n, id, reg := w.nodes[a.f], c.identities[a.f], c.registries[a.f];
    Reflexive(n);
    match a
    case Local(_, op) =>
      LedgerHolds(n, id, reg);
      OpKeeps(n, id, reg, op);
      OpGrows(n, id, reg, op);
    case Store(_, run, now) =>
      assert RequestOk(c, w.nodes, w.requests[run]);
      StoreVettedKeeps(n, id, reg, w.requests[run].env, now);
      StoreVettedGrows(n, reg, w.requests[run].env, now);
    case AckLookedUp(_, run, at) =>
      WriteAckKeeps(n, id, reg, w.requests[run].found, w.requests[run].a, at);
      WriteAckGrows(n, id, w.requests[run].found, w.requests[run].a, at);
    case EventReply(_, e) =>
      MarkOutboundSentKeeps(n, id, reg, e);
      MarkOutboundSentGrows(n, e);
    case DeliverReceipt(_, env, gates) =>
      HandleReceiptsKeeps(n, id, reg, env, gates);
      HandleReceiptsGrows(n, id, reg, env, gates);
    case ReceiptReply(_, rk) =>
      MarkReceiptSentKeeps(n, id, reg, rk);
      MarkReceiptSentGrows(n, rk);
    case _ =>
  }

  /** Inbound rows and originals that a step adds carry one of these signatures. */
  predicate NewSigs(n: Node, n': Node, sigs: set<Signature>) {
    && (forall k :: k in n'.inbound ==>
          (k in n.inbound && n.inbound[k].sig == n'.inbound[k].sig) || n'.inbound[k].sig in sigs)
    && (forall i :: 0 <= i < |n'.originals| ==>
          (i < |n.originals| && n.originals[i].sig == n'.originals[i].sig) || n'.originals[i].sig in sigs)
  }

  predicate NewSent(n: Node, n': Node, es: set<string>) {
    forall e :: e in n'.outbound && n'.outbound[e].status.Sent? ==>
      (e in n.outbound && n.outbound[e].status.Sent?) || e in es
  }

  predicate NewReceiptSent(n: Node, n': Node, ks: set<ReceiptKey>) {
    forall k :: k in n'.receiptOut && n'.receiptOut[k].status.Sent? ==>
      (k in n.receiptOut && n.receiptOut[k].status.Sent?) || k in ks
  }

  lemma OpKeepsInbound(n: Node, id: Identity, reg: Registry, op: Op)
    requires OpEnabled(n, id, op) && !op.MarkDelivery?
    ensures ApplyOp(n, id, reg, op).inbound == n.inbound && ApplyOp(n, id, reg, op).originals == n.originals
  {
    hide HandleSend, WriteAck, Materialize, MarkReceiptRetry, FailReceipt, ComposeReceipt, L.Insert;
    match op
    case Send(q, createdAt, cap) => SendKeepsInbound(n, id, reg, q, createdAt, cap);
    case AckDirectly(a, at) => E.WriteAckEffect(n, id, None, a, at);
    case MaterializeOriginal(rk) => E.MaterializeEffect(n, rk, ComposeReceipt(id, rk, n.receiptOut[rk]));
    case RetryReceipt(rk, attempts, at, error) => E.ReceiptRetryEffect(n, rk, attempts, at, error);
    case FailReceiptSend(rk, error) => E.FailReceiptEffect(n, rk, error);
    case _ =>
  }

  lemma SendKeepsInbound(n: Node, id: Identity, reg: Registry, q: SendRequest, createdAt: string, cap: nat)
    requires ForeignFamily(id, q.target).Some?
    ensures HandleSend(n, id, reg, q, createdAt, cap).0.inbound == n.inbound
    ensures HandleSend(n, id, reg, q, createdAt, cap).0.originals == n.originals
  {
    hide ParseAddress, ValidEvent, ComposeEvent, IsUuid, AddressText, PendingOut;
  }

  lemma OpNewSigs(n: Node, id: Identity, reg: Registry, op: Op)
    requires OpEnabled(n, id, op)
    ensures NewSigs(n, ApplyOp(n, id, reg, op), {})
  {
    if !op.MarkDelivery? { OpKeepsInbound(n, id, reg, op); }
  }

  predicate TouchesOutbound(op: Op) { op.Send? || op.RetryEvent? || op.FailEvent? }

  lemma OpKeepsOutbound(n: Node, id: Identity, reg: Registry, op: Op)
    requires OpEnabled(n, id, op) && !TouchesOutbound(op)
    ensures ApplyOp(n, id, reg, op).outbound == n.outbound
  {
  }

  lemma SendNewSent(n: Node, id: Identity, reg: Registry, q: SendRequest, createdAt: string, cap: nat)
    requires ForeignFamily(id, q.target).Some?
    ensures NewSent(n, HandleSend(n, id, reg, q, createdAt, cap).0, {})
  {
  }

  lemma OutboundOpNewSent(n: Node, e: string, attempts: nat, at: string, error: string)
    ensures NewSent(n, MarkOutboundRetry(n, e, attempts, at, error), {}) && NewSent(n, FailOutbound(n, e, error), {})
  {
  }

  /** No local transaction marks an event sent. */
  lemma OpNewSent(n: Node, id: Identity, reg: Registry, op: Op)
    requires OpEnabled(n, id, op)
    ensures NewSent(n, ApplyOp(n, id, reg, op), {})
  {
    if !TouchesOutbound(op) {
      OpKeepsOutbound(n, id, reg, op);
    } else if op.Send? {
      SendNewSent(n, id, reg, op.q, op.createdAt, op.cap);
    } else if op.RetryEvent? {
      OutboundOpNewSent(n, op.e, op.attempts, op.at, op.error);
    } else {
      OutboundOpNewSent(n, op.e, 0, "", op.error);
    }
  }

  predicate TouchesReceipts(op: Op) { op.MaterializeOriginal? || op.RetryReceipt? || op.FailReceiptSend? }

  lemma OpKeepsReceipts(n: Node, id: Identity, reg: Registry, op: Op)
    requires OpEnabled(n, id, op) && !TouchesReceipts(op)
    ensures ApplyOp(n, id, reg, op).receiptOut == n.receiptOut
  {
  }

  lemma AckNewSent(n: Node, id: Identity, found: Option<InKey>, a: AckKey, at: string)
    requires found.Some? ==> found.value in n.inbound && found.value.eventId == a.eventId
    ensures WriteAck(n, id, found, a, at).0.outbound == n.outbound
    ensures NewReceiptSent(n, WriteAck(n, id, found, a, at).0, {})
  {
  }

  lemma MaterializeNewSent(n: Node, k: ReceiptKey, original: ReceiptOriginal)
    ensures NewReceiptSent(n, Materialize(n, k, original), {})
  {
  }

  lemma ReceiptOpNewSent(n: Node, k: ReceiptKey, attempts: nat, at: string, error: string)
    ensures NewReceiptSent(n, FailReceipt(n, k, error), {}) && NewReceiptSent(n, MarkReceiptRetry(n, k, attempts, at, error), {})
  {
  }

  /** No local transaction marks a receipt sent. */
  lemma OpNewReceiptSent(n: Node, id: Identity, reg: Registry, op: Op)
    requires OpEnabled(n, id, op)
    ensures NewReceiptSent(n, ApplyOp(n, id, reg, op), {})
  {
    if !TouchesReceipts(op) {
      OpKeepsReceipts(n, id, reg, op);
    } else if op.MaterializeOriginal? {
      MaterializeNewSent(n, op.rk, ComposeReceipt(id, op.rk, n.receiptOut[op.rk]));
    } else if op.RetryReceipt? {
      ReceiptOpNewSent(n, op.rk, op.attempts, op.at, op.error);
    } else {
      ReceiptOpNewSent(n, op.rk, 0, "", op.error);
    }
  }

  lemma StoreNewSigs(n: Node, k: InKey, row: Inbound, l: L.Ledger)
    ensures NewSigs(n, n.(inbound := n.inbound[k := row], ledger := l), {row.sig})
  {
  }

  lemma ReceiveNewSigs(n: Node, s: SignedEvent, sig: Signature, regKey: Key, now: nat)
    ensures NewSigs(n, Receive(n, s, sig, regKey, now).0, {sig})
  {
    if KeyOf(s) !in n.inbound && !L.HasId(n.ledger.events, KeyOf(s).eventId) {
      StoreNewSigs(n, KeyOf(s), NewInbound(s, sig, regKey), L.Commit(n.ledger, LocalRequest(s), now));
    }
  }

  lemma AckNewSigs(n: Node, id: Identity, found: Option<InKey>, a: AckKey, at: string)
    requires found.Some? ==> found.value in n.inbound && found.value.eventId == a.eventId
    ensures NewSigs(n, WriteAck(n, id, found, a, at).0, {})
  {
  }

  lemma RecordNewSigs(n: Node, k: ReceiptKey, signed: SignedReceipt, sig: Signature, notifyAgent: string)
    ensures NewSigs(n, RecordReceipt(n, k, signed, sig, notifyAgent).0, {sig})
  {
  }

  lemma NewSigsSame(n: Node, sigs: set<Signature>)
    ensures NewSigs(n, n, sigs)
  {
  }

  lemma ReceiptsNewSigs(n: Node, id: Identity, reg: Registry, env: Envelope, gates: Gates)
    requires OutboundOk(n.outbound, id)
    ensures NewSigs(n, HandleReceipts(n, id, reg, env, gates).0, {env.sig})
  {
    ReceiptsRejectedOrOk(n, id, reg, env, gates);
    NewSigsSame(n, {env.sig});
    if HandleReceipts(n, id, reg, env, gates).1.Ok? {
      AcceptedReceiptIsGood(n, id, reg, env, gates);
      var rc := env.receipt.receipt;
      RecordNewSigs(n, ReceiptKey(rc.eventId, rc.agent, rc.ackType), env.receipt, env.sig, n.outbound[rc.eventId].sourceLocal);
    }
  }

  lemma ReceiveSendsNothing(n: Node, s: SignedEvent, sig: Signature, regKey: Key, now: nat)
    ensures Receive(n, s, sig, regKey, now).0.outbound == n.outbound
    ensures Receive(n, s, sig, regKey, now).0.receiptOut == n.receiptOut
  {
    hide L.Commit, LocalRequest;
  }

  lemma ReceiptsSendNothing(n: Node, id: Identity, reg: Registry, env: Envelope, gates: Gates)
    requires OutboundOk(n.outbound, id)
    ensures HandleReceipts(n, id, reg, env, gates).0.outbound == n.outbound
    ensures HandleReceipts(n, id, reg, env, gates).0.receiptOut == n.receiptOut
  {
    ReceiptsRejectedOrOk(n, id, reg, env, gates);
    if HandleReceipts(n, id, reg, env, gates).1.Ok? {
      AcceptedReceiptIsGood(n, id, reg, env, gates);
    }
  }

  function SigsOf(w: World, a: Action): set<Signature> {
    match a
    case Store(_, run, _) => if run in w.requests && w.requests[run].StoreRequest? then {w.requests[run].env.sig} else {}
    case DeliverReceipt(_, env, _) => {env.sig}
    case _ => {}
  }

  function SentBy(a: Action): set<string> { if a.EventReply? then {a.e} else {} }

  function ReceiptsSentBy(a: Action): set<ReceiptKey> { if a.ReceiptReply? then {a.rk} else {} }

  lemma StepNewSigs(c: Config, w: World, a: Action)
    requires !a.Outsider? && Enabled(c, w, a) && OutboundOk(w.nodes[a.f].outbound, c.identities[a.f])
    ensures NewSigs(w.nodes[a.f], NodeAfter(c, w, a), SigsOf(w, a))
  {
    var n, id, reg := w.nodes[a.f], c.identities[a.f], c.registries[a.f];
    match a
    case Local(_, op) => OpNewSigs(n, id, reg, op);
    case Store(_, run, now) =>
      var env := w.requests[run].env;
      ReceiveNewSigs(n, env.event, env.sig, reg[env.event.origin].key, now);
    case AckLookedUp(_, run, at) => AckNewSigs(n, id, w.requests[run].found, w.requests[run].a, at);
    case DeliverReceipt(_, env, gates) => ReceiptsNewSigs(n, id, reg, env, gates);
    case _ =>
  }

  lemma StepNewSent(c: Config, w: World, a: Action)
    requires !a.Outsider? && Enabled(c, w, a) && OutboundOk(w.nodes[a.f].outbound, c.identities[a.f])
    ensures NewSent(w.nodes[a.f], NodeAfter(c, w, a), SentBy(a))
    ensures NewReceiptSent(w.nodes[a.f], NodeAfter(c, w, a), ReceiptsSentBy(a))
  {
    var n, id, reg := w.nodes[a.f], c.identities[a.f], c.registries[a.f];
    match a
    case Local(_, op) =>
      OpNewSent(n, id, reg, op);
      OpNewReceiptSent(n, id, reg, op);
    case Store(_, run, now) =>
      var env := w.requests[run].env;
      ReceiveSendsNothing(n, env.event, env.sig, reg[env.event.origin].key, now);
    case AckLookedUp(_, run, at) => AckNewSent(n, id, w.requests[run].found, w.requests[run].a, at);
    case DeliverReceipt(_, env, gates) => ReceiptsSendNothing(n, id, reg, env, gates);
    case _ =>
  }

  // ------------------------------------------------------------- facts that stay

  predicate AllGrow(a: map<string, Node>, b: map<string, Node>) {
    a.Keys == b.Keys && forall f :: f in a ==> Grows(a[f], b[f])
  }

  lemma IssuedStays(n: Node, n': Node, sig: Signature)
    requires Grows(n, n') && Issued(n, sig)
    ensures Issued(n', sig)
  {
  }

  lemma GenuineStays(c: Config, a: map<string, Node>, b: map<string, Node>, sig: Signature)
    requires AllGrow(a, b) && Genuine(c, a, sig)
    ensures Genuine(c, b, sig)
  {
    forall f | f in c.identities && f in b && c.identities[f].key == sig.key && IssuerOf(sig.doc) == f
      ensures Issued(b[f], sig)
    {
      IssuedStays(a[f], b[f], sig);
    }
  }

  lemma StoredStays(n: Node, n': Node, s: SignedEvent)
    requires Grows(n, n') && HasStored(n, s)
    ensures HasStored(n', s)
  {
  }

  lemma RecordedStays(n: Node, n': Node, s: SignedReceipt, sig: Signature)
    requires Grows(n, n') && HasRecorded(n, s, sig)
    ensures HasRecorded(n', s, sig)
  {
    var k := ReceiptKey(s.receipt.eventId, s.receipt.agent, s.receipt.ackType);
    var i :| 0 <= i < |n.originals| && n.originals[i].key == k && n.originals[i].sig == sig;
    assert n'.originals[i] == n.originals[i];
  }

  lemma ReplyStays(a: map<string, Node>, b: map<string, Node>, r: Reply)
    requires AllGrow(a, b) && ReplyTrue(a, r)
    ensures ReplyTrue(b, r)
  {
    match r.env
    case EventEnvelope(s, _) => StoredStays(a[r.peer], b[r.peer], s);
    case ReceiptEnvelope(s, sig) => RecordedStays(a[r.peer], b[r.peer], s, sig);
  }

  lemma EventArrivedStays(c: Config, a: map<string, Node>, b: map<string, Node>, row: Outbound, row': Outbound)
    requires AllGrow(a, b) && EventArrived(c, a, row)
    requires row.signed == row'.signed && row.targetFamily == row'.targetFamily
    ensures EventArrived(c, b, row')
  {
    if row.targetFamily in c.identities { StoredStays(a[row.targetFamily], b[row.targetFamily], row.signed); }
  }

  lemma ReceiptArrivedStays(c: Config, a: map<string, Node>, b: map<string, Node>, row: ReceiptOut, row': ReceiptOut)
    requires AllGrow(a, b) && ReceiptArrived(c, a, row) && ReceiptRowLe(row, row')
    ensures ReceiptArrived(c, b, row')
  {
    if row.origin in c.identities {
      RecordedStays(a[row.origin], b[row.origin], row.original.value.signed, row.original.value.sig);
    }
  }

  // ----------------------------------------------------------------- world steps

  lemma NodesUpdate(c: Config, nodes: map<string, Node>, f: string, n: Node)
    requires NodesOk(c, nodes) && f in nodes && NodeInv(n, c.identities[f], c.registries[f])
    ensures NodesOk(c, nodes[f := n])
  {
    assert nodes[f := n].Keys == nodes.Keys;
  }

  lemma GrowUpdate(nodes: map<string, Node>, f: string, n: Node)
    requires f in nodes && Grows(nodes[f], n)
    ensures AllGrow(nodes, nodes[f := n])
  {
    forall g | g in nodes ensures Grows(nodes[g], nodes[f := n][g]) { Reflexive(nodes[g]); }
  }

  lemma NodeOk(c: Config, nodes: map<string, Node>, f: string)
    requires NodesOk(c, nodes) && f in nodes
    ensures f in c.identities && f in c.registries && NodeInv(nodes[f], c.identities[f], c.registries[f])
  {
  }

  lemma NodeParts(c: Config, nodes: map<string, Node>, f: string)
    requires NodesOk(c, nodes) && f in nodes
    ensures f in c.identities && f in c.registries && OutboundOk(nodes[f].outbound, c.identities[f])
    ensures ReceiptOutOk(nodes[f].receiptOut, nodes[f].inbound, nodes[f].acks, c.identities[f])
  {
    NodeOk(c, nodes, f);
  }

  lemma AllGrowSelf(nodes: map<string, Node>)
    ensures AllGrow(nodes, nodes)
  {
    forall f | f in nodes ensures Grows(nodes[f], nodes[f]) { Reflexive(nodes[f]); }
  }

  lemma StepGrows(c: Config, w: World, a: Action)
    requires NodesOk(c, w.nodes) && RequestsOk(c, w.nodes, w.requests) && Enabled(c, w, a)
    ensures NodesOk(c, Step(c, w, a).nodes) && AllGrow(w.nodes, Step(c, w, a).nodes)
  {
    if a.Outsider? {
      AllGrowSelf(w.nodes);
    } else {
      NodeOk(c, w.nodes, a.f);
      NodeStepKeeps(c, w, a);
      NodesUpdate(c, w.nodes, a.f, NodeAfter(c, w, a));
      GrowUpdate(w.nodes, a.f, NodeAfter(c, w, a));
    }
  }

  lemma RowGenuine(c: Config, nodes: map<string, Node>, f: string, e: string)
    requires f in nodes && f in c.identities && c.identities[f].family == f && OutboundOk(nodes[f].outbound, c.identities[f])
    requires e in nodes[f].outbound
    ensures Genuine(c, nodes, nodes[f].outbound[e].envelope.sig)
  {
    assert OutRowOk(e, nodes[f].outbound[e], c.identities[f]);
  }

  lemma ReceiptGenuine(c: Config, nodes: map<string, Node>, f: string, k: ReceiptKey)
    requires f in nodes && f in c.identities && c.identities[f].family == f
    requires ReceiptOutOk(nodes[f].receiptOut, nodes[f].inbound, nodes[f].acks, c.identities[f])
    requires k in nodes[f].receiptOut && nodes[f].receiptOut[k].original.Some?
    ensures Genuine(c, nodes, ReceiptBody(nodes[f].receiptOut[k]).sig)
  {
    assert ReceiptRowOk(k, nodes[f].receiptOut[k], nodes[f].inbound, nodes[f].acks, c.identities[f]);
  }

  lemma UsableGenuine(c: Config, w: World, sig: Signature)
    requires WireOk(c, w.nodes, w.wire) && Usable(c, w, sig)
    ensures Genuine(c, w.nodes, sig)
  {
    if seen :| seen in w.wire && seen.sig == sig {
      assert Genuine(c, w.nodes, seen.sig);
    }
  }

  /** What is put on the wire is an outsider's, or a row of the node that sends it. */
  lemma EmittedGenuine(c: Config, w: World, a: Action, env: Envelope)
    requires GoodConfig(c) && WireOk(c, w.nodes, w.wire) && Enabled(c, w, a) && env in Emitted(c, w, a)
    requires !a.Outsider? ==>
               && OutboundOk(w.nodes[a.f].outbound, c.identities[a.f])
               && ReceiptOutOk(w.nodes[a.f].receiptOut, w.nodes[a.f].inbound, w.nodes[a.f].acks, c.identities[a.f])
    ensures Genuine(c, w.nodes, env.sig)
  {
    if a.Transmit? {
      RowGenuine(c, w.nodes, a.f, a.e);
    } else if a.TransmitReceipt? {
      ReceiptGenuine(c, w.nodes, a.f, a.rk);
    } else {
      UsableGenuine(c, w, env.sig);
    }
  }

  lemma WireUpdate(c: Config, nodes: map<string, Node>, nodes': map<string, Node>, wire: set<Envelope>, more: set<Envelope>)
    requires WireOk(c, nodes, wire) && AllGrow(nodes, nodes') && WireOk(c, nodes, more)
    ensures WireOk(c, nodes', wire + more)
  {
    forall env | env in wire + more ensures Genuine(c, nodes', env.sig) { GenuineStays(c, nodes, nodes', env.sig); }
  }

  lemma StepWire(c: Config, w: World, a: Action)
    requires GoodConfig(c) && NodesOk(c, w.nodes) && WireOk(c, w.nodes, w.wire) && Enabled(c, w, a)
    requires AllGrow(w.nodes, Step(c, w, a).nodes)
    ensures WireOk(c, Step(c, w, a).nodes, Step(c, w, a).wire)
  {
    if !a.Outsider? { NodeParts(c, w.nodes, a.f); }
    forall env | env in Emitted(c, w, a) ensures Genuine(c, w.nodes, env.sig) { EmittedGenuine(c, w, a, env); }
    WireUpdate(c, w.nodes, Step(c, w, a).nodes, w.wire, Emitted(c, w, a));
  }

  lemma AllGenuineStays(c: Config, nodes: map<string, Node>, nodes': map<string, Node>, n: Node, n': Node, sigs: set<Signature>)
    requires AllGrow(nodes, nodes') && AllGenuine(c, nodes, n) && NewSigs(n, n', sigs)
    requires forall sig :: sig in sigs ==> Genuine(c, nodes, sig)
    ensures AllGenuine(c, nodes', n')
  {
    forall k | k in n'.inbound ensures Genuine(c, nodes', n'.inbound[k].sig) {
      GenuineStays(c, nodes, nodes', n'.inbound[k].sig);
    }
    forall i | 0 <= i < |n'.originals| ensures Genuine(c, nodes', n'.originals[i].sig) {
      GenuineStays(c, nodes, nodes', n'.originals[i].sig);
    }
  }

  lemma SigsUpdate(c: Config, nodes: map<string, Node>, f: string, n: Node, sigs: set<Signature>)
    requires SigsOk(c, nodes) && f in nodes && AllGrow(nodes, nodes[f := n]) && NewSigs(nodes[f], n, sigs)
    requires forall sig :: sig in sigs ==> Genuine(c, nodes, sig)
    ensures SigsOk(c, nodes[f := n])
  {
    var nodes' := nodes[f := n];
    forall g | g in nodes' ensures AllGenuine(c, nodes', nodes'[g]) {
      if g == f {
        AllGenuineStays(c, nodes, nodes', nodes[f], n, sigs);
      } else {
        AllGenuineStays(c, nodes, nodes', nodes[g], nodes[g], {});
      }
    }
  }

  lemma StepSigs(c: Config, w: World, a: Action)
    requires NodesOk(c, w.nodes) && WireOk(c, w.nodes, w.wire) && SigsOk(c, w.nodes) && RequestsOk(c, w.nodes, w.requests)
    requires Enabled(c, w, a)
    requires AllGrow(w.nodes, Step(c, w, a).nodes)
    ensures SigsOk(c, Step(c, w, a).nodes)
  {
    hide WireOk, RequestsOk, SigsOf, NodeAfter, NodeEnabled, Genuine;
    if !a.Outsider? {
      NodeParts(c, w.nodes, a.f);
      StepNewSigs(c, w, a);
      DeliveredSigs(c, w, a);
      SigsUpdate(c, w.nodes, a.f, NodeAfter(c, w, a), SigsOf(w, a));
    }
  }

  lemma DeliveredSigs(c: Config, w: World, a: Action)
    requires WireOk(c, w.nodes, w.wire) && RequestsOk(c, w.nodes, w.requests) && Enabled(c, w, a)
    ensures forall sig :: sig in SigsOf(w, a) ==> Genuine(c, w.nodes, sig)
  {
  }

  lemma StoreAnswerTrue(n: Node, reg: Registry, env: Envelope, now: nat)
    requires env.EventEnvelope? && env.event.origin in reg && StoreAnswer(StoreVetted(n, reg, env, now).1).Ok?
    ensures HasStored(StoreVetted(n, reg, env, now).0, env.event)
  {
  }

  lemma ReceiptsAnswerTrue(n: Node, id: Identity, reg: Registry, env: Envelope, gates: Gates)
    requires OutboundOk(n.outbound, id) && HandleReceipts(n, id, reg, env, gates).1.Ok?
    ensures env.ReceiptEnvelope? && HasRecorded(HandleReceipts(n, id, reg, env, gates).0, env.receipt, env.sig)
  {
    AcceptedReceiptIsGood(n, id, reg, env, gates);
    var rc := env.receipt.receipt;
    var k := ReceiptKey(rc.eventId, rc.agent, rc.ackType);
    var agent := n.outbound[rc.eventId].sourceLocal;
    if !HasSigned(n.originals, k, env.sig) {
      RecordNew(n, k, env.receipt, env.sig, agent);
      RecordedId(n.originals, Original(k, env.receipt.issuer, env.receipt, env.sig, HasOriginal(n.originals, k)));
    }
  }

  lemma AnsweredTrue(c: Config, w: World, a: Action, r: Reply)
    requires Enabled(c, w, a) && r in Answered(c, w, a)
    requires !a.Outsider? ==> OutboundOk(w.nodes[a.f].outbound, c.identities[a.f])
    ensures ReplyTrue(Step(c, w, a).nodes, r)
  {
    if a.Store? {
      StoreAnswerTrue(w.nodes[a.f], c.registries[a.f], w.requests[a.run].env, a.now);
    } else {
      ReceiptsAnswerTrue(w.nodes[a.f], c.identities[a.f], c.registries[a.f], a.env, a.gates);
    }
  }

  lemma StepReplies(c: Config, w: World, a: Action)
    requires NodesOk(c, w.nodes) && RepliesOk(w.nodes, w.replies) && Enabled(c, w, a)
    requires AllGrow(w.nodes, Step(c, w, a).nodes)
    ensures RepliesOk(Step(c, w, a).nodes, Step(c, w, a).replies)
  {
    if !a.Outsider? { NodeParts(c, w.nodes, a.f); }
    forall r | r in Step(c, w, a).replies ensures ReplyTrue(Step(c, w, a).nodes, r) {
      if r in Answered(c, w, a) { AnsweredTrue(c, w, a, r); } else { ReplyStays(w.nodes, Step(c, w, a).nodes, r); }
    }
  }

  /** A reply is only used for the row whose envelope it answered. */
  lemma UsedReplyArrived(c: Config, nodes: map<string, Node>, replies: set<Reply>, e: string, row: Outbound, id: Identity)
    requires RepliesOk(nodes, replies) && OutRowOk(e, row, id)
    requires row.targetFamily in c.identities ==> Reply(row.targetFamily, row.envelope) in replies
    ensures EventArrived(c, nodes, row)
  {
  }

  lemma UsedReceiptReplyArrived(c: Config, nodes: map<string, Node>, replies: set<Reply>, row: ReceiptOut)
    requires RepliesOk(nodes, replies) && row.original.Some?
    requires row.origin in c.identities ==> Reply(row.origin, ReceiptBody(row)) in replies
    ensures ReceiptArrived(c, nodes, row)
  {
  }

  lemma AllArrivedStays(c: Config, nodes: map<string, Node>, nodes': map<string, Node>, n: Node, n': Node,
                        es: set<string>, ks: set<ReceiptKey>)
    requires AllGrow(nodes, nodes') && AllArrived(c, nodes, n)
    requires OutLe(n.outbound, n'.outbound) && ReceiptsLe(n.receiptOut, n'.receiptOut)
    requires NewSent(n, n', es) && NewReceiptSent(n, n', ks)
    requires forall e :: e in es ==> e in n.outbound && EventArrived(c, nodes, n.outbound[e])
    requires forall k :: k in ks ==> k in n.receiptOut && ReceiptArrived(c, nodes, n.receiptOut[k])
    ensures AllArrived(c, nodes', n')
  {
    forall e | e in n'.outbound && n'.outbound[e].status.Sent? ensures EventArrived(c, nodes', n'.outbound[e]) {
      EventArrivedStays(c, nodes, nodes', n.outbound[e], n'.outbound[e]);
    }
    forall k | k in n'.receiptOut && n'.receiptOut[k].status.Sent? ensures ReceiptArrived(c, nodes', n'.receiptOut[k]) {
      ReceiptArrivedStays(c, nodes, nodes', n.receiptOut[k], n'.receiptOut[k]);
    }
  }

  lemma SentUpdate(c: Config, nodes: map<string, Node>, f: string, n: Node, es: set<string>, ks: set<ReceiptKey>)
    requires SentOk(c, nodes) && f in nodes && AllGrow(nodes, nodes[f := n])
    requires NewSent(nodes[f], n, es) && NewReceiptSent(nodes[f], n, ks)
    requires forall e :: e in es ==> e in nodes[f].outbound && EventArrived(c, nodes, nodes[f].outbound[e])
    requires forall k :: k in ks ==> k in nodes[f].receiptOut && ReceiptArrived(c, nodes, nodes[f].receiptOut[k])
    ensures SentOk(c, nodes[f := n])
  {
    var nodes' := nodes[f := n];
    forall g | g in nodes' ensures AllArrived(c, nodes', nodes'[g]) {
      if g == f {
        assert Grows(nodes[f], nodes'[f]);
        AllArrivedStays(c, nodes, nodes', nodes[f], n, es, ks);
      } else {
        AllArrivedSame(c, nodes, nodes', nodes[g]);
      }
    }
  }

  lemma AllArrivedSame(c: Config, nodes: map<string, Node>, nodes': map<string, Node>, n: Node)
    requires AllGrow(nodes, nodes') && AllArrived(c, nodes, n)
    ensures AllArrived(c, nodes', n)
  {
    Reflexive(n);
    AllArrivedStays(c, nodes, nodes', n, n, {}, {});
  }

  lemma ReplyUse(c: Config, w: World, a: Action)
    requires Enabled(c, w, a) && !a.Outsider? && RepliesOk(w.nodes, w.replies)
    requires OutboundOk(w.nodes[a.f].outbound, c.identities[a.f])
    ensures forall e :: e in SentBy(a) ==>
              e in w.nodes[a.f].outbound && EventArrived(c, w.nodes, w.nodes[a.f].outbound[e])
    ensures forall k :: k in ReceiptsSentBy(a) ==>
              k in w.nodes[a.f].receiptOut && ReceiptArrived(c, w.nodes, w.nodes[a.f].receiptOut[k])
  {
    if a.EventReply? {
      UsedReplyArrived(c, w.nodes, w.replies, a.e, w.nodes[a.f].outbound[a.e], c.identities[a.f]);
    } else if a.ReceiptReply? {
      UsedReceiptReplyArrived(c, w.nodes, w.replies, w.nodes[a.f].receiptOut[a.rk]);
    }
  }

  lemma StepSent(c: Config, w: World, a: Action)
    requires RepliesOk(w.nodes, w.replies) && SentOk(c, w.nodes) && Enabled(c, w, a)
    requires !a.Outsider? ==> OutboundOk(w.nodes[a.f].outbound, c.identities[a.f])
    requires AllGrow(w.nodes, Step(c, w, a).nodes)
    ensures SentOk(c, Step(c, w, a).nodes)
  {
    if !a.Outsider? {
      StepNewSent(c, w, a);
      ReplyUse(c, w, a);
      SentUpdate(c, w.nodes, a.f, NodeAfter(c, w, a), SentBy(a), ReceiptsSentBy(a));
    }
  }

  lemma RequestStays(c: Config, nodes: map<string, Node>, nodes': map<string, Node>, q: Request)
    requires AllGrow(nodes, nodes') && RequestOk(c, nodes, q)
    ensures RequestOk(c, nodes', q)
  {
    assert Grows(nodes[q.f], nodes'[q.f]);
    if q.StoreRequest? { GenuineStays(c, nodes, nodes', q.env.sig); }
  }

  lemma NewRequestOk(c: Config, w: World, a: Action)
    requires Enabled(c, w, a) && WireOk(c, w.nodes, w.wire) && (a.Vet? || a.LookUp?)
    ensures RequestOk(c, w.nodes, RequestsAfter(c, w, a)[a.run])
  {
    if a.Vet? {
      UnrefusedIsVetted(w.nodes[a.f], c.identities[a.f], c.registries[a.f], a.env, a.gates);
      assert Genuine(c, w.nodes, a.env.sig);
    }
  }

  lemma RequestsStay(c: Config, nodes: map<string, Node>, nodes': map<string, Node>, requests: map<nat, Request>)
    requires AllGrow(nodes, nodes') && RequestsOk(c, nodes, requests)
    ensures RequestsOk(c, nodes', requests)
  {
    forall run | run in requests ensures RequestOk(c, nodes', requests[run]) {
      RequestStays(c, nodes, nodes', requests[run]);
    }
  }

  lemma StepRequests(c: Config, w: World, a: Action)
    requires WireOk(c, w.nodes, w.wire) && RequestsOk(c, w.nodes, w.requests) && Enabled(c, w, a)
    ensures RequestsOk(c, w.nodes, RequestsAfter(c, w, a))
  {
    hide BodySize;
    if a.Vet? || a.LookUp? { NewRequestOk(c, w, a); }
  }

  /** Every step keeps the world invariant. */
  lemma StepKeepsInv(c: Config, w: World, a: Action)
    requires GoodConfig(c) && Inv(c, w) && Enabled(c, w, a)
    ensures Inv(c, Step(c, w, a))
  {
    StepGrows(c, w, a);
    StepWire(c, w, a);
    StepSigs(c, w, a);
    StepReplies(c, w, a);
    if !a.Outsider? { NodeParts(c, w.nodes, a.f); }
    StepSent(c, w, a);
    StepRequests(c, w, a);
    RequestsStay(c, w.nodes, Step(c, w, a).nodes, RequestsAfter(c, w, a));
  }

  lemma EmptyNodeInv(n: Node, id: Identity, reg: Registry)
    requires EmptyNode(n)
    ensures NodeInv(n, id, reg)
  {
  }

  lemma EmptyNodesOk(c: Config, nodes: map<string, Node>)
    requires nodes.Keys == c.identities.Keys == c.registries.Keys && forall f :: f in nodes ==> EmptyNode(nodes[f])
    ensures NodesOk(c, nodes)
  {
    forall f | f in nodes ensures NodeInv(nodes[f], c.identities[f], c.registries[f]) {
      EmptyNodeInv(nodes[f], c.identities[f], c.registries[f]);
    }
  }

  lemma EmptyNodesQuiet(c: Config, nodes: map<string, Node>)
    requires forall f :: f in nodes ==> EmptyNode(nodes[f])
    ensures SigsOk(c, nodes) && SentOk(c, nodes)
  {
  }

  lemma InitInv(c: Config, w: World)
    requires GoodConfig(c) && IsInit(c, w)
    ensures Inv(c, w)
  {
    EmptyNodesOk(c, w.nodes);
    EmptyNodesQuiet(c, w.nodes);
  }

  lemma RunStep(c: Config, ws: seq<World>, acts: seq<Action>, i: nat)
    requires IsRun(c, ws, acts) && i < |acts|
    ensures GoodConfig(c) && Enabled(c, ws[i], acts[i]) && ws[i + 1] == Step(c, ws[i], acts[i])
  {
  }

  lemma NextKeeps(c: Config, w: World, a: Action, w': World)
    requires GoodConfig(c) && Inv(c, w) && Enabled(c, w, a) && w' == Step(c, w, a)
    ensures Inv(c, w') && AllGrow(w.nodes, w'.nodes)
  {
    StepKeepsInv(c, w, a);
    StepGrows(c, w, a);
  }

  ghost predicate KeptAt(c: Config, ws: seq<World>, k: nat)
    requires k + 1 < |ws|
  {
    Inv(c, ws[k]) ==> Inv(c, ws[k + 1])
  }

  lemma RunStepKeeps(c: Config, ws: seq<World>, acts: seq<Action>, k: nat)
    requires IsRun(c, ws, acts) && k < |acts|
    ensures KeptAt(c, ws, k)
  {
    RunStep(c, ws, acts, k);
    if Inv(c, ws[k]) { NextKeeps(c, ws[k], acts[k], ws[k + 1]); }
  }

  lemma {:induction false} Chain(p: nat -> bool, i: nat)
    requires p(0) && forall k: nat :: k < i && p(k) ==> p(k + 1)
    ensures p(i)
    decreases i
  {
    if i > 0 { Chain(p, i - 1); }
  }

  /** The invariant holds in every state of every run. */
  lemma RunInv(c: Config, ws: seq<World>, acts: seq<Action>, i: nat)
    requires IsRun(c, ws, acts) && i < |ws|
    ensures Inv(c, ws[i])
  {
    InitInv(c, ws[0]);
    ghost var p := (k: nat) => k < |ws| && Inv(c, ws[k]);
    forall k: nat | k < i && p(k) ensures p(k + 1) {
      RunStepKeeps(c, ws, acts, k);
      assert KeptAt(c, ws, k);
    }
    Chain(p, i);
  }

  lemma AllGrowTransitive(a: map<string, Node>, b: map<string, Node>, d: map<string, Node>)
    requires AllGrow(a, b) && AllGrow(b, d)
    ensures AllGrow(a, d)
  {
    forall f | f in a ensures Grows(a[f], d[f]) { GrowsTransitive(a[f], b[f], d[f]); }
  }

  lemma RunStepGrows(c: Config, ws: seq<World>, acts: seq<Action>, i: nat)
    requires IsRun(c, ws, acts) && i < |acts|
    ensures AllGrow(ws[i].nodes, ws[i + 1].nodes)
  {
    RunInv(c, ws, acts, i);
    RunStep(c, ws, acts, i);
    NextKeeps(c, ws[i], acts[i], ws[i + 1]);
  }

  ghost predicate GrewAt(ws: seq<World>, k: nat)
    requires k + 1 < |ws|
  {
    AllGrow(ws[k].nodes, ws[k + 1].nodes)
  }

  lemma {:induction false} ChainGrows(ws: seq<World>, i: nat, j: nat)
    requires i <= j < |ws| && forall k :: i <= k < j ==> GrewAt(ws, k)
    ensures AllGrow(ws[i].nodes, ws[j].nodes)
    decreases j - i
  {
    if i == j {
      AllGrowSelf(ws[i].nodes);
    } else {
      ChainGrows(ws, i, j - 1);
      assert GrewAt(ws, j - 1);
      AllGrowTransitive(ws[i].nodes, ws[j - 1].nodes, ws[j].nodes);
    }
  }

  /** From any point of a run to any later one, every node only grows. */
  lemma RunGrows(c: Config, ws: seq<World>, acts: seq<Action>, i: nat, j: nat)
    requires IsRun(c, ws, acts) && i <= j < |ws|
    ensures AllGrow(ws[i].nodes, ws[j].nodes)
  {
    forall k | i <= k < j ensures GrewAt(ws, k) { RunStepGrows(c, ws, acts, k); }
    ChainGrows(ws, i, j);
  }

  // -------------------------------------------------------------------- theorems

  /** The recipient holds the sender's original, byte for byte, and the ack of the addressed agent. */
  predicate ReceiverHolds(receiver: Node, sender: string, e: string, out: Outbound, ackType: string) {
    var k := InKey(sender, e);
    && k in receiver.inbound
    && receiver.inbound[k].event == out.signed.event && receiver.inbound[k].signed == out.signed
    && receiver.inbound[k].sig == out.sig
    && AckKey(e, out.signed.event.target.agent, ackType) in receiver.acks
  }

  /** A merged receipt at an honest sender from an honest target family is the receiver's own ack. */
  lemma ReceiptIsTrue(c: Config, w: World, f: string, k: ReceiptKey)
    requires GoodConfig(c) && Inv(c, w) && f in w.nodes && k in w.nodes[f].receiptIn
    requires k.agent.family in c.identities
    ensures k.eventId in w.nodes[f].outbound && k.agent == w.nodes[f].outbound[k.eventId].signed.event.target
    ensures k.agent.family in w.nodes
    ensures ReceiverHolds(w.nodes[k.agent.family], f, k.eventId, w.nodes[f].outbound[k.eventId], k.ackType)
  {
    var n, g := w.nodes[f], k.agent.family;
    var m := w.nodes[g];
    assert NodeInv(n, c.identities[f], c.registries[f]) && NodeInv(m, c.identities[g], c.registries[g]);
    var o := n.originals[n.receiptIn[k]];
    assert OriginalOk(o, n.outbound, c.identities[f], c.registries[f]);
    var out := n.outbound[k.eventId];
    assert OutRowOk(k.eventId, out, c.identities[f]);
    assert Genuine(c, w.nodes, o.sig);
    assert Issued(m, o.sig);
    ReceiptRowHolds(m, c.identities[g], c.registries[g], k);
    var ik := InKey(f, k.eventId);
    assert m.receiptOut[k].sigHash == Sha256(out.sig);
    assert InRowOk(ik, m.inbound[ik], c.identities[g], c.registries[g]);
  }

  /** End-to-end receipt soundness, in every state of every run. */
  lemma ReceiptSoundness(c: Config, ws: seq<World>, acts: seq<Action>, i: nat, f: string, e: string)
    requires IsRun(c, ws, acts) && i < |ws| && f in ws[i].nodes && e in ws[i].nodes[f].outbound
    requires var out := ws[i].nodes[f].outbound[e];
             out.targetFamily in c.identities && Stage(ws[i].nodes[f], e, out.signed.event.target).Some?
    ensures var out := ws[i].nodes[f].outbound[e];
            && out.targetFamily in ws[i].nodes
            && ReceiverHolds(ws[i].nodes[out.targetFamily], f, e, out, Stage(ws[i].nodes[f], e, out.signed.event.target).value)
  {
    RunInv(c, ws, acts, i);
    var out := ws[i].nodes[f].outbound[e];
    assert NodeInv(ws[i].nodes[f], c.identities[f], c.registries[f]);
    assert OutRowOk(e, out, c.identities[f]);
    ReceiptIsTrue(c, ws[i], f, ReceiptKey(e, out.signed.event.target, Stage(ws[i].nodes[f], e, out.signed.event.target).value));
  }

  /** Sent means stored: the honest target family holds the event with identical bytes, then and ever after. */
  lemma SentMeansStored(c: Config, ws: seq<World>, acts: seq<Action>, i: nat, j: nat, f: string, e: string)
    requires IsRun(c, ws, acts) && i <= j < |ws| && f in ws[i].nodes && e in ws[i].nodes[f].outbound
    requires var out := ws[i].nodes[f].outbound[e]; out.status.Sent? && out.targetFamily in c.identities
    ensures var out := ws[i].nodes[f].outbound[e];
            && out.targetFamily in ws[j].nodes && InKey(f, e) in ws[j].nodes[out.targetFamily].inbound
            && ws[j].nodes[out.targetFamily].inbound[InKey(f, e)].event == out.signed.event
  {
    RunInv(c, ws, acts, i);
    RunGrows(c, ws, acts, i, j);
    var out := ws[i].nodes[f].outbound[e];
    assert NodeInv(ws[i].nodes[f], c.identities[f], c.registries[f]);
    assert OutRowOk(e, out, c.identities[f]);
    assert EventArrived(c, ws[i].nodes, out);
    StoredStays(ws[i].nodes[out.targetFamily], ws[j].nodes[out.targetFamily], out.signed);
  }

  /** No row leaves sent or failed, and its signed content is that of its first commit. */
  lemma EndedRowsStay(c: Config, ws: seq<World>, acts: seq<Action>, i: nat, j: nat, f: string, e: string)
    requires IsRun(c, ws, acts) && i <= j < |ws| && f in ws[i].nodes && e in ws[i].nodes[f].outbound
    ensures f in ws[j].nodes && e in ws[j].nodes[f].outbound
    ensures var a, b := ws[i].nodes[f].outbound[e], ws[j].nodes[f].outbound[e];
            b.envelope == a.envelope && b.signed == a.signed && b.sig == a.sig && (!a.status.Pending? ==> b.status == a.status)
  {
    RunGrows(c, ws, acts, i, j);
    assert Grows(ws[i].nodes[f], ws[j].nodes[f]);
  }

  /** Every transmission of a row, whenever it happens, puts the bytes of the first commit on the wire. */
  lemma TransmissionsCarryFirstBytes(c: Config, ws: seq<World>, acts: seq<Action>, i: nat, j: nat, f: string, e: string)
    requires IsRun(c, ws, acts) && i <= j < |acts| && f in ws[i].nodes && e in ws[i].nodes[f].outbound
    requires acts[j] == Transmit(f, e)
    ensures Emitted(c, ws[j], acts[j]) == {ws[i].nodes[f].outbound[e].envelope}
    ensures ws[i].nodes[f].outbound[e].envelope in ws[j + 1].wire
  {
    EndedRowsStay(c, ws, acts, i, j, f, e);
  }

  /** Exactly once: whatever was delivered how often, an event id has at most one inbound row and one local event,
      and that event is the row's copy. */
  lemma ExactlyOnce(c: Config, ws: seq<World>, acts: seq<Action>, i: nat, f: string, k: InKey)
    requires IsRun(c, ws, acts) && i < |ws| && f in ws[i].nodes && k in ws[i].nodes[f].inbound
    ensures RowOnce(ws[i].nodes[f], k)
  {
    RunInv(c, ws, acts, i);
    NodeOk(c, ws[i].nodes, f);
    NodeRowOnce(ws[i].nodes[f], c.identities[f], c.registries[f], k);
  }

  /** In every state the notifications are merged receipts, failed sends and failed receipts, one for one. */
  lemma RunAccounting(c: Config, ws: seq<World>, acts: seq<Action>, i: nat, f: string)
    requires IsRun(c, ws, acts) && i < |ws| && f in ws[i].nodes
    ensures var n := ws[i].nodes[f];
            |n.notifications| == |n.receiptIn| + |FailedOut(n.outbound)| + |FailedReceipts(n.receiptOut)|
  {
    RunInv(c, ws, acts, i);
    NotificationAccounting(ws[i].nodes[f], c.identities[f], c.registries[f]);
  }

  /** The merged stage of an addressee never goes down over a run. */
  lemma StageIsMonotone(c: Config, ws: seq<World>, acts: seq<Action>, i: nat, j: nat, f: string, e: string, agent: Addr)
    requires IsRun(c, ws, acts) && i <= j < |ws| && f in ws[i].nodes
    ensures f in ws[j].nodes
    ensures Stage(ws[i].nodes[f], e, agent) == Some("applied") ==> Stage(ws[j].nodes[f], e, agent) == Some("applied")
    ensures Stage(ws[i].nodes[f], e, agent).Some? ==> Stage(ws[j].nodes[f], e, agent).Some?
  {
    RunGrows(c, ws, acts, i, j);
    StageNeverDrops(ws[i].nodes[f], ws[j].nodes[f], e, agent);
  }

  /** A merged receipt points for ever at the same original, and no original of its key, however many follow, has a
      lower id or is not a variant. */
  lemma FirstOriginalStays(c: Config, ws: seq<World>, acts: seq<Action>, i: nat, j: nat, f: string, k: ReceiptKey)
    requires IsRun(c, ws, acts) && i <= j < |ws| && f in ws[i].nodes && k in ws[i].nodes[f].receiptIn
    ensures f in ws[j].nodes && SameFirstOriginal(ws[i].nodes[f], ws[j].nodes[f], k)
  {
    RunGrows(c, ws, acts, i, j);
    RunInv(c, ws, acts, i);
    RunInv(c, ws, acts, j);
    NodeOk(c, ws[i].nodes, f);
    NodeOk(c, ws[j].nodes, f);
    MergedStays(ws[i].nodes[f], ws[j].nodes[f], c.identities[f], c.registries[f], k);
  }

  // ------------------------------------------------------------ who wrote which ack

  /** The step writes this ack at this node, after a lookup that found this row, or found none or was not made. */
  predicate AckWrite(c: Config, w: World, a: Action, f: string, x: AckKey, found: Option<InKey>) {
    && !a.Outsider? && Enabled(c, w, a) && a.f == f
    && match a
       case AckLookedUp(_, run, at) =>
         && w.requests[run].a == x && w.requests[run].found == found
         && WriteAck(w.nodes[f], c.identities[f], found, x, at).1 == Acked
       case Local(_, op) =>
         found.None? && op.AckDirectly? && op.a == x && WriteAck(w.nodes[f], c.identities[f], None, x, op.at).1 == Acked
       case _ => false
  }

  lemma OpKeepsAcks(n: Node, id: Identity, reg: Registry, op: Op)
    requires OpEnabled(n, id, op) && !op.AckDirectly?
    ensures ApplyOp(n, id, reg, op).acks == n.acks
  {
  }

  lemma ReceiveKeepsAcks(n: Node, s: SignedEvent, sig: Signature, regKey: Key, now: nat)
    ensures Receive(n, s, sig, regKey, now).0.acks == n.acks
  {
  }

  lemma ReceiptsIsRecord(n: Node, id: Identity, reg: Registry, env: Envelope, gates: Gates)
    requires HandleReceipts(n, id, reg, env, gates).1.Ok?
    ensures env.ReceiptEnvelope? && env.receipt.receipt.eventId in n.outbound
    ensures var s, rc := env.receipt, env.receipt.receipt;
            HandleReceipts(n, id, reg, env, gates).0 ==
            RecordReceipt(n, ReceiptKey(rc.eventId, rc.agent, rc.ackType), s, env.sig, n.outbound[rc.eventId].sourceLocal).0
  {
    hide ValidReceipt, Verifies, BodySize, RecordReceipt;
  }

  lemma RecordKeepsAcks(n: Node, k: ReceiptKey, signed: SignedReceipt, sig: Signature, notifyAgent: string)
    ensures RecordReceipt(n, k, signed, sig, notifyAgent).0.acks == n.acks
    ensures RecordReceipt(n, k, signed, sig, notifyAgent).0.receiptOut == n.receiptOut
    ensures RecordReceipt(n, k, signed, sig, notifyAgent).0.outbound == n.outbound
  {
  }

  lemma ReceiptsKeepAcks(n: Node, id: Identity, reg: Registry, env: Envelope, gates: Gates)
    ensures HandleReceipts(n, id, reg, env, gates).0.acks == n.acks
    ensures HandleReceipts(n, id, reg, env, gates).0.receiptOut == n.receiptOut
    ensures HandleReceipts(n, id, reg, env, gates).0.outbound == n.outbound
  {
    ReceiptsRejectedOrOk(n, id, reg, env, gates);
    if HandleReceipts(n, id, reg, env, gates).1.Ok? {
      ReceiptsIsRecord(n, id, reg, env, gates);
      var rc := env.receipt.receipt;
      RecordKeepsAcks(n, ReceiptKey(rc.eventId, rc.agent, rc.ackType), env.receipt, env.sig, n.outbound[rc.eventId].sourceLocal);
    }
  }

  lemma OpKeepsReceiptKeys(n: Node, id: Identity, reg: Registry, op: Op)
    requires OpEnabled(n, id, op)
    ensures ApplyOp(n, id, reg, op).receiptOut.Keys == n.receiptOut.Keys
  {
    if !TouchesReceipts(op) { OpKeepsReceipts(n, id, reg, op); }
  }

  /** Only an ack step changes the acks and the receipt intents of a node. */
  lemma OthersKeepAcks(c: Config, w: World, a: Action)
    requires !a.Outsider? && Enabled(c, w, a) && !a.AckLookedUp?
    ensures NodeAfter(c, w, a).receiptOut.Keys == w.nodes[a.f].receiptOut.Keys
    ensures !(a.Local? && a.op.AckDirectly?) ==> NodeAfter(c, w, a).acks == w.nodes[a.f].acks
  {
    var n, id, reg := w.nodes[a.f], c.identities[a.f], c.registries[a.f];
    match a
    case Local(_, op) =>
      OpKeepsReceiptKeys(n, id, reg, op);
      if !op.AckDirectly? { OpKeepsAcks(n, id, reg, op); }
    case Store(_, run, now) =>
      var env := w.requests[run].env;
      ReceiveKeepsAcks(n, env.event, env.sig, reg[env.event.origin].key, now);
      ReceiveSendsNothing(n, env.event, env.sig, reg[env.event.origin].key, now);
    case DeliverReceipt(_, env, gates) => ReceiptsKeepAcks(n, id, reg, env, gates);
    case _ =>
  }

  lemma WriteAckAdds(n: Node, id: Identity, found: Option<InKey>, a: AckKey, at: string)
    requires found.Some? ==> found.value in n.inbound && found.value.eventId == a.eventId
    ensures var (n', r) := WriteAck(n, id, found, a, at);
            && n'.acks.Keys == n.acks.Keys + (if r == Acked then {a} else {})
            && n'.receiptOut.Keys == n.receiptOut.Keys
               + (if r == Acked && found.Some? then {ReceiptKey(a.eventId, n.inbound[found.value].target, a.ackType)} else {})
            && (r == Acked && found.Some? ==> a.agent == n.inbound[found.value].target.agent)
  {
  }

  /** A step adds an ack exactly when it writes it. */
  lemma StepAcks(c: Config, w: World, a: Action, f: string, x: AckKey)
    requires Enabled(c, w, a) && f in w.nodes
    ensures f in Step(c, w, a).nodes
    ensures x in Step(c, w, a).nodes[f].acks <==> x in w.nodes[f].acks || exists found :: AckWrite(c, w, a, f, x, found)
  {
    if !a.Outsider? && a.f == f {
      if a.AckLookedUp? {
        WriteAckAdds(w.nodes[f], c.identities[f], w.requests[a.run].found, w.requests[a.run].a, a.at);
        if x in Step(c, w, a).nodes[f].acks && x !in w.nodes[f].acks {
          assert AckWrite(c, w, a, f, x, w.requests[a.run].found);
        }
      } else {
        OthersKeepAcks(c, w, a);
        if a.Local? && a.op.AckDirectly? {
          WriteAckAdds(w.nodes[f], c.identities[f], None, a.op.a, a.op.at);
          if x in Step(c, w, a).nodes[f].acks && x !in w.nodes[f].acks { assert AckWrite(c, w, a, f, x, None); }
        }
      }
    }
  }

  ghost predicate AckWritten(c: Config, ws: seq<World>, acts: seq<Action>, i: nat, f: string, x: AckKey, found: Option<InKey>)
    requires i <= |acts| <= |ws|
  {
    exists j: nat :: j < i && AckWrite(c, ws[j], acts[j], f, x, found)
  }

  /** A node holds an ack exactly when some step wrote it. */
  lemma {:induction false} AcksAreWritten(c: Config, ws: seq<World>, acts: seq<Action>, i: nat, f: string, x: AckKey)
    requires IsRun(c, ws, acts) && i < |ws| && f in c.identities
    ensures f in ws[i].nodes
    ensures x in ws[i].nodes[f].acks <==> exists found :: AckWritten(c, ws, acts, i, f, x, found)
    decreases i
  {
    if i > 0 {
      var n := i - 1;
      AcksAreWritten(c, ws, acts, n, f, x);
      RunStep(c, ws, acts, n);
      StepAcks(c, ws[n], acts[n], f, x);
      if found :| AckWritten(c, ws, acts, n, f, x, found) { LongerAckWritten(c, ws, acts, n, f, x, found); }
      if found :| AckWrite(c, ws[n], acts[n], f, x, found) { assert AckWritten(c, ws, acts, i, f, x, found); }
      if found :| AckWritten(c, ws, acts, i, f, x, found) { LastAckWritten(c, ws, acts, n, f, x, found); }
    }
  }

  lemma LongerAckWritten(c: Config, ws: seq<World>, acts: seq<Action>, n: nat, f: string, x: AckKey, found: Option<InKey>)
    requires n < |acts| <= |ws| && AckWritten(c, ws, acts, n, f, x, found)
    ensures AckWritten(c, ws, acts, n + 1, f, x, found)
  {
    var j: nat :| j < n && AckWrite(c, ws[j], acts[j], f, x, found);
    assert j < n + 1;
  }

  lemma LastAckWritten(c: Config, ws: seq<World>, acts: seq<Action>, n: nat, f: string, x: AckKey, found: Option<InKey>)
    requires n < |acts| <= |ws| && AckWritten(c, ws, acts, n + 1, f, x, found)
    ensures AckWritten(c, ws, acts, n, f, x, found) || AckWrite(c, ws[n], acts[n], f, x, found)
  {
    var j: nat :| j < n + 1 && AckWrite(c, ws[j], acts[j], f, x, found);
    if j < n { assert AckWrite(c, ws[j], acts[j], f, x, found); }
  }

  /** An ack by somebody else than the addressee sits on a federated event exactly when it was written without
      the inbound row: directly, or after a lookup that found none. */
  lemma OtherAgentsAckExactly(c: Config, ws: seq<World>, acts: seq<Action>, i: nat, f: string, k: InKey, x: AckKey)
    requires IsRun(c, ws, acts) && i < |ws| && f in ws[i].nodes && k in ws[i].nodes[f].inbound
    requires x.eventId == k.eventId && x.agent != ws[i].nodes[f].inbound[k].target.agent
    ensures x in ws[i].nodes[f].acks <==> AckWritten(c, ws, acts, i, f, x, None)
  {
    RunInv(c, ws, acts, i);
    NodeOk(c, ws[i].nodes, f);
    AcksAreWritten(c, ws, acts, i, f, x);
    if x in ws[i].nodes[f].acks {
      var found :| AckWritten(c, ws, acts, i, f, x, found);
      if found.Some? { GuardedAckIsAddressees(c, ws, acts, i, f, k, x, found.value); }
    }
  }

  lemma GuardedAckIsAddressees(c: Config, ws: seq<World>, acts: seq<Action>, i: nat, f: string, k: InKey, x: AckKey, found: InKey)
    requires IsRun(c, ws, acts) && i < |ws| && f in ws[i].nodes && k in ws[i].nodes[f].inbound && UniqueIn(ws[i].nodes[f].inbound)
    requires x.eventId == k.eventId && AckWritten(c, ws, acts, i, f, x, Some(found))
    ensures x.agent == ws[i].nodes[f].inbound[k].target.agent
  {
    var j: nat :| j < i && AckWrite(c, ws[j], acts[j], f, x, Some(found));
    WriteAckAdds(ws[j].nodes[f], c.identities[f], Some(found), x, acts[j].at);
    RunGrows(c, ws, acts, j, i);
    assert Grows(ws[j].nodes[f], ws[i].nodes[f]);
    assert found in ws[i].nodes[f].inbound && found == k;
  }

  ghost predicate LookedUpEarlier(ws: seq<World>, acts: seq<Action>, j: nat, f: string, run: nat, x: AckKey)
    requires j <= |acts| <= |ws|
  {
    exists l: nat :: l < j && acts[l] == LookUp(f, run, x, None) && f in ws[l].nodes && !IsInbound(ws[l].nodes[f], x.eventId)
  }

  /** A pending ack without a row was looked up when the event was not in the inbound table: before it was received,
      if it ever was. */
  lemma {:induction false} LookupWasEarlier(c: Config, ws: seq<World>, acts: seq<Action>, j: nat, f: string, run: nat, x: AckKey)
    requires IsRun(c, ws, acts) && j < |ws| && run in ws[j].requests && ws[j].requests[run] == AckRequest(f, x, None)
    ensures LookedUpEarlier(ws, acts, j, f, run, x)
    decreases j
  {
    if j > 0 {
      RunStep(c, ws, acts, j - 1);
      if run in ws[j - 1].requests && ws[j - 1].requests[run] == AckRequest(f, x, None) {
        LookupWasEarlier(c, ws, acts, j - 1, f, run, x);
        var l: nat :| l < j - 1 && acts[l] == LookUp(f, run, x, None) && f in ws[l].nodes && !IsInbound(ws[l].nodes[f], x.eventId);
        assert l < j;
      } else {
        assert acts[j - 1] == LookUp(f, run, x, None);
      }
    }
  }

  ghost predicate IntentWritten(c: Config, ws: seq<World>, acts: seq<Action>, i: nat, f: string, k: ReceiptKey)
    requires i <= |acts| <= |ws|
  {
    exists j: nat :: j < i && WritesIntent(c, ws[j], acts[j], f, k)
  }

  lemma IntentWrittenNext(c: Config, ws: seq<World>, acts: seq<Action>, n: nat, f: string, k: ReceiptKey)
    requires n < |acts| <= |ws|
    ensures IntentWritten(c, ws, acts, n + 1, f, k) <==> IntentWritten(c, ws, acts, n, f, k) || WritesIntent(c, ws[n], acts[n], f, k)
  {
    if j: nat :| j < n && WritesIntent(c, ws[j], acts[j], f, k) { assert j < n + 1; }
  }

  /** A receipt intent exists exactly when an ack by its addressee was written after a lookup that found the event. */
  lemma {:induction false} ReceiptIntentExactly(c: Config, ws: seq<World>, acts: seq<Action>, i: nat, f: string, k: ReceiptKey)
    requires IsRun(c, ws, acts) && i < |ws| && f in c.identities
    ensures f in ws[i].nodes
    ensures k in ws[i].nodes[f].receiptOut <==> IntentWritten(c, ws, acts, i, f, k)
    decreases i
  {
    hide Step, Enabled, WritesIntent, GoodConfig;
    if i > 0 {
      ReceiptIntentExactly(c, ws, acts, i - 1, f, k);
      RunStep(c, ws, acts, i - 1);
      StepIntents(c, ws[i - 1], acts[i - 1], f, k);
      IntentWrittenNext(c, ws, acts, i - 1, f, k);
    }
  }

  predicate WritesIntent(c: Config, w: World, a: Action, f: string, k: ReceiptKey) {
    && a.AckLookedUp? && a.f == f && Enabled(c, w, a) && w.requests[a.run].found.Some?
    && AckWrite(c, w, a, f, AckKey(k.eventId, k.agent.agent, k.ackType), w.requests[a.run].found)
    && w.nodes[f].inbound[w.requests[a.run].found.value].target == k.agent
  }

  lemma StepIntents(c: Config, w: World, a: Action, f: string, k: ReceiptKey)
    requires Enabled(c, w, a) && f in w.nodes
    ensures f in Step(c, w, a).nodes
    ensures k in Step(c, w, a).nodes[f].receiptOut <==> k in w.nodes[f].receiptOut || WritesIntent(c, w, a, f, k)
  {
    if !a.Outsider? && a.f == f {
      if a.AckLookedUp? {
        WriteAckAdds(w.nodes[f], c.identities[f], w.requests[a.run].found, w.requests[a.run].a, a.at);
      } else {
        OthersKeepAcks(c, w, a);
      }
    }
  }

  // ------------------------------------------------------------- what each step does

  /** The effect of a local transaction on the node's tables. */
  ghost predicate OpDoes(n: Node, id: Identity, reg: Registry, op: Op, n': Node)
    requires OpEnabled(n, id, op)
  {
    match op
    case Send(q, createdAt, cap) =>
      exists answer :: E.AnswersSend(n, id, reg, q, ParseAddress(q.target).value, createdAt, cap, n', answer)
    case RetryEvent(e, attempts, at, error) => E.MarksRetry(n, e, attempts, at, error, n')
    case FailEvent(e, error) => E.Fails(n, e, error, n')
    case AckDirectly(a, at) => exists answer :: E.AnswersAck(n, id, None, a, at, n', answer)
    case LocalWrite(r, now) =>
      && n' == n.(ledger := n'.ledger)
      && exists o :: L.Answers(n.ledger, r, now, o) && L.Effects(n.ledger, r, now, o, n'.ledger)
    case Administer(members, tokens, grants, acl) =>
      && n' == n.(members := members, ledger := n'.ledger)
      && n'.ledger == n.ledger.(tokens := tokens, grants := grants, acl := acl)
    case MarkDelivery(key) => E.MarksDelivered(n, key, n')
    case MaterializeOriginal(rk) =>
      exists original :: E.IsReceiptOf(id, rk, n.receiptOut[rk], original) && E.Materializes(n, rk, original, n')
    case RetryReceipt(rk, attempts, at, error) => E.MarksReceiptRetry(n, rk, attempts, at, error, n')
    case FailReceiptSend(rk, error) => E.FailsReceipt(n, rk, error, n')
    case PushHint(intent) => E.MarksHint(n, intent, n')
    case AckNotifications(intents, agent) => E.AcksHints(n, intents, agent, n')
  }

  lemma EventOpExactly(n: Node, id: Identity, reg: Registry, op: Op)
    requires OpEnabled(n, id, op) && !IsReceiptOp(op) && !IsNoteOp(op) && !op.AckDirectly? && !op.Send? && !op.LocalWrite?
    ensures OpDoes(n, id, reg, op, ApplyOp(n, id, reg, op))
  {
    hide E.MarksRetry, E.Fails, E.MarksDelivered, MarkOutboundRetry, FailOutbound, MarkDelivered;
    match op
    case RetryEvent(e, attempts, at, error) => E.RetryEffect(n, e, attempts, at, error);
    case FailEvent(e, error) => E.FailEffect(n, e, error);
    case Administer(_, _, _, _) =>
    case MarkDelivery(key) => E.DeliveredEffect(n, key);
  }

  lemma AnsweredOpExactly(n: Node, id: Identity, reg: Registry, op: Op)
    requires L.Valid(n.ledger) && OpEnabled(n, id, op) && (op.AckDirectly? || op.Send? || op.LocalWrite?)
    ensures OpDoes(n, id, reg, op, ApplyOp(n, id, reg, op))
  {
    hide E.AnswersSend, E.AnswersAck, L.Answers, L.Effects, HandleSend, WriteAck, L.Insert, ParseAddress;
    if op.Send? {
      E.SendEffect(n, id, reg, op.q, op.createdAt, op.cap);
      assert E.AnswersSend(n, id, reg, op.q, ParseAddress(op.q.target).value, op.createdAt, op.cap,
                           ApplyOp(n, id, reg, op), HandleSend(n, id, reg, op.q, op.createdAt, op.cap).1);
    } else if op.AckDirectly? {
      E.WriteAckEffect(n, id, None, op.a, op.at);
      assert E.AnswersAck(n, id, None, op.a, op.at, ApplyOp(n, id, reg, op), WriteAck(n, id, None, op.a, op.at).1);
    } else {
      L.InsertAnswers(n.ledger, op.r, op.now);
      assert L.Answers(n.ledger, op.r, op.now, L.Insert(n.ledger, op.r, op.now).1);
    }
  }

  lemma ReceiptOpExactly(n: Node, id: Identity, reg: Registry, op: Op)
    requires OpEnabled(n, id, op) && IsReceiptOp(op)
    ensures OpDoes(n, id, reg, op, ApplyOp(n, id, reg, op))
  {
    hide E.IsReceiptOf, E.Materializes, E.MarksReceiptRetry, E.FailsReceipt, Materialize, MarkReceiptRetry, FailReceipt, ComposeReceipt;
    if op.MaterializeOriginal? {
      var original := ComposeReceipt(id, op.rk, n.receiptOut[op.rk]);
      E.ReceiptIsComposed(id, op.rk, n.receiptOut[op.rk]);
      E.MaterializeEffect(n, op.rk, original);
      assert E.IsReceiptOf(id, op.rk, n.receiptOut[op.rk], original);
    } else if op.RetryReceipt? {
      E.ReceiptRetryEffect(n, op.rk, op.attempts, op.at, op.error);
    } else {
      E.FailReceiptEffect(n, op.rk, op.error);
    }
  }

  lemma NoteOpExactly(n: Node, id: Identity, reg: Registry, op: Op)
    requires OpEnabled(n, id, op) && IsNoteOp(op)
    ensures OpDoes(n, id, reg, op, ApplyOp(n, id, reg, op))
  {
    hide E.MarksHint, E.AcksHints, MarkHintSent, AckHints;
    if op.PushHint? {
      E.HintEffect(n, op.intent);
    } else {
      E.AckHintsEffect(n, op.intents, op.agent);
    }
  }

  lemma OpExactly(n: Node, id: Identity, reg: Registry, op: Op)
    requires L.Valid(n.ledger) && OpEnabled(n, id, op)
    ensures OpDoes(n, id, reg, op, ApplyOp(n, id, reg, op))
  {
    hide OpDoes, ApplyOp, OpEnabled, L.Valid;
    if IsReceiptOp(op) {
      ReceiptOpExactly(n, id, reg, op);
    } else if IsNoteOp(op) {
      NoteOpExactly(n, id, reg, op);
    } else if op.AckDirectly? || op.Send? || op.LocalWrite? {
      AnsweredOpExactly(n, id, reg, op);
    } else {
      EventOpExactly(n, id, reg, op);
    }
  }

  /** What a step does at its own node, on the wire and to the answers: local transactions and marks say nothing; a transmission
      puts the stored envelope on the wire; an event that is stored or known, and a receipt that is recorded, are answered. */
  ghost predicate StepDoes(c: Config, w: World, a: Action, n': Node, sent: set<Envelope>, answered: set<Reply>)
    requires Enabled(c, w, a) && !a.Outsider?
  {
    var n, id, reg := w.nodes[a.f], c.identities[a.f], c.registries[a.f];
    match a
    case Local(_, op) => OpDoes(n, id, reg, op, n') && sent == {} && answered == {}
    case Transmit(_, e) => n' == n && sent == {n.outbound[e].envelope} && answered == {}
    case Store(f, run, now) =>
      var env := w.requests[run].env;
      && sent == {}
      && exists r ::
           && E.Receives(n, env.event, env.sig, reg[env.event.origin].key, now, n', r)
           && answered == if r == StoredIn || r == DuplicateIn then {Reply(f, env)} else {}
    case AckLookedUp(_, run, at) =>
      && sent == {} && answered == {}
      && exists answer :: E.AnswersAck(n, id, w.requests[run].found, w.requests[run].a, at, n', answer)
    case EventReply(_, e) => E.MarksSent(n, e, n') && sent == {} && answered == {}
    case TransmitReceipt(_, rk) =>
      var o := n.receiptOut[rk].original.value;
      n' == n && sent == {ReceiptEnvelope(o.signed, o.sig)} && answered == {}
    case DeliverReceipt(f, env, gates) =>
      && sent == {}
      && exists answer :: E.AnswersReceipt(n, id, reg, env, gates, n', answer) && answered == if answer.Ok? then {Reply(f, env)} else {}
    case ReceiptReply(_, rk) => E.MarksReceiptSent(n, rk, n') && sent == {} && answered == {}
    case _ => n' == n && sent == {} && answered == {}
  }

  lemma LocalExactly(c: Config, w: World, a: Action)
    requires a.Local? && Enabled(c, w, a) && NodeInv(w.nodes[a.f], c.identities[a.f], c.registries[a.f])
    ensures StepDoes(c, w, a, NodeAfter(c, w, a), Emitted(c, w, a), Answered(c, w, a))
  {
    hide OpDoes, ApplyOp, OpEnabled, L.Valid;
    LedgerHolds(w.nodes[a.f], c.identities[a.f], c.registries[a.f]);
    hide NodeInv;
    OpExactly(w.nodes[a.f], c.identities[a.f], c.registries[a.f], a.op);
  }

  lemma StoreExactly(c: Config, w: World, a: Action)
    requires a.Store? && Enabled(c, w, a) && RequestsOk(c, w.nodes, w.requests)
    ensures StepDoes(c, w, a, NodeAfter(c, w, a), Emitted(c, w, a), Answered(c, w, a))
  {
    hide E.Receives, Receive, Genuine, ValidEvent, Verifies, BodySize;
    var n, reg, env := w.nodes[a.f], c.registries[a.f], w.requests[a.run].env;
    assert RequestOk(c, w.nodes, w.requests[a.run]);
    KindOfEvent(env.event);
    E.ReceiveEffect(n, env.event, env.sig, reg[env.event.origin].key, a.now);
    assert E.Receives(n, env.event, env.sig, reg[env.event.origin].key, a.now, NodeAfter(c, w, a), StoreVetted(n, reg, env, a.now).1);
  }

  lemma AckExactly(c: Config, w: World, a: Action)
    requires a.AckLookedUp? && Enabled(c, w, a)
    ensures StepDoes(c, w, a, NodeAfter(c, w, a), Emitted(c, w, a), Answered(c, w, a))
  {
    var n, id, q := w.nodes[a.f], c.identities[a.f], w.requests[a.run];
    hide E.AnswersAck, WriteAck;
    E.WriteAckEffect(n, id, q.found, q.a, a.at);
    assert E.AnswersAck(n, id, q.found, q.a, a.at, NodeAfter(c, w, a), WriteAck(n, id, q.found, q.a, a.at).1);
  }

  lemma DeliverReceiptExactly(c: Config, w: World, a: Action)
    requires a.DeliverReceipt? && Enabled(c, w, a)
    ensures StepDoes(c, w, a, NodeAfter(c, w, a), Emitted(c, w, a), Answered(c, w, a))
  {
    var n, id, reg := w.nodes[a.f], c.identities[a.f], c.registries[a.f];
    hide E.AnswersReceipt, HandleReceipts;
    E.ReceiptsEffect(n, id, reg, a.env, a.gates);
    assert E.AnswersReceipt(n, id, reg, a.env, a.gates, NodeAfter(c, w, a), HandleReceipts(n, id, reg, a.env, a.gates).1);
  }

  lemma OtherExactly(c: Config, w: World, a: Action)
    requires !a.Outsider? && !a.Local? && !a.Store? && !a.AckLookedUp? && !a.DeliverReceipt? && Enabled(c, w, a)
    ensures StepDoes(c, w, a, NodeAfter(c, w, a), Emitted(c, w, a), Answered(c, w, a))
  {
    hide E.MarksSent, E.MarksReceiptSent, MarkOutboundSent, MarkReceiptSent, InboxRefusal;
    match a
    case EventReply(f, e) => E.SentEffect(w.nodes[f], e);
    case ReceiptReply(f, rk) => E.ReceiptSentEffect(w.nodes[f], rk);
    case _ =>
  }

  lemma StepAtNode(c: Config, w: World, a: Action)
    requires !a.Outsider? && Enabled(c, w, a) && NodeInv(w.nodes[a.f], c.identities[a.f], c.registries[a.f])
    requires RequestsOk(c, w.nodes, w.requests)
    ensures StepDoes(c, w, a, NodeAfter(c, w, a), Emitted(c, w, a), Answered(c, w, a))
  {
    hide StepDoes, NodeAfter, Emitted, Answered, NodeInv, RequestsOk, NodeEnabled;
    if a.Local? {
      LocalExactly(c, w, a);
    } else if a.Store? {
      StoreExactly(c, w, a);
    } else if a.AckLookedUp? {
      AckExactly(c, w, a);
    } else if a.DeliverReceipt? {
      DeliverReceiptExactly(c, w, a);
    } else {
      OtherExactly(c, w, a);
    }
  }

  /** Every step does that and nothing else. */
  lemma StepExactly(c: Config, w: World, a: Action)
    requires Inv(c, w) && Enabled(c, w, a)
    ensures var w' := Step(c, w, a);
            if a.Outsider? then w' == w.(wire := w.wire + {a.env})
            else
              && w'.nodes.Keys == w.nodes.Keys && (forall g :: g in w.nodes && g != a.f ==> w'.nodes[g] == w.nodes[g])
              && StepDoes(c, w, a, w'.nodes[a.f], Emitted(c, w, a), Answered(c, w, a))
              && w'.wire == w.wire + Emitted(c, w, a) && w'.replies == w.replies + Answered(c, w, a)
  {
    hide StepDoes, NodeAfter, NodeEnabled, NodesOk, WireOk, SigsOk, RepliesOk, SentOk, RequestsOk, NodeInv;
    if !a.Outsider? {
      NodeOk(c, w.nodes, a.f);
      StepAtNode(c, w, a);
    }
  }

  lemma KindOfEvent(s: SignedEvent)
    requires ValidEvent(s)
    ensures s.event.kind == "message" || s.event.kind == "reply"
  {
  }

  // ------------------------------------------------------- how a send comes to its end

  predicate HasStatus(n: Node, e: string, status: Status) { e in n.outbound && n.outbound[e].status == status }

  predicate ReceiptHasStatus(n: Node, k: ReceiptKey, status: Status) { k in n.receiptOut && n.receiptOut[k].status == status }

  /** Local transactions mark nothing sent, and fail what they are told to fail while it is pending. */
  lemma OpStatus(n: Node, id: Identity, reg: Registry, op: Op, e: string)
    requires OpEnabled(n, id, op)
    ensures var n' := ApplyOp(n, id, reg, op);
            && (HasStatus(n', e, Sent) <==> HasStatus(n, e, Sent))
            && (HasStatus(n', e, FailedPermanent) <==>
                  HasStatus(n, e, FailedPermanent) || (op.FailEvent? && op.e == e && HasStatus(n, e, Pending)))
  {
    hide E.Notified, E.FitsSchema, E.CarriesIntent, E.Composed, HandleSend;
    match op
    case Send(q, createdAt, cap) => E.SendEffect(n, id, reg, q, createdAt, cap);
    case RetryEvent(d, attempts, at, error) => E.RetryEffect(n, d, attempts, at, error);
    case FailEvent(d, error) => E.FailEffect(n, d, error);
    case _ => OpKeepsOutbound(n, id, reg, op);
  }

  lemma OpReceiptStatus(n: Node, id: Identity, reg: Registry, op: Op, k: ReceiptKey)
    requires OpEnabled(n, id, op)
    ensures var n' := ApplyOp(n, id, reg, op);
            && (ReceiptHasStatus(n', k, Sent) <==> ReceiptHasStatus(n, k, Sent))
            && (ReceiptHasStatus(n', k, FailedPermanent) <==>
                  ReceiptHasStatus(n, k, FailedPermanent) || (op.FailReceiptSend? && op.rk == k && ReceiptHasStatus(n, k, Pending)))
  {
    hide HandleSend, WriteAck, Materialize, MarkReceiptRetry, FailReceipt, ComposeReceipt, L.Insert, E.Notified, ForeignFamily;
    match op
    case MaterializeOriginal(rk) => E.MaterializeEffect(n, rk, ComposeReceipt(id, rk, n.receiptOut[rk]));
    case RetryReceipt(rk, attempts, at, error) => E.ReceiptRetryEffect(n, rk, attempts, at, error);
    case FailReceiptSend(rk, error) => E.FailReceiptEffect(n, rk, error);
    case _ => OtherOpKeepsReceipts(n, id, reg, op);
  }

  lemma OtherOpKeepsReceipts(n: Node, id: Identity, reg: Registry, op: Op)
    requires OpEnabled(n, id, op) && !op.MaterializeOriginal? && !op.RetryReceipt? && !op.FailReceiptSend?
    ensures ApplyOp(n, id, reg, op).receiptOut == n.receiptOut
  {
    if op.AckDirectly? { E.WriteAckEffect(n, id, None, op.a, op.at); }
    if op.Send? { E.SendEffect(n, id, reg, op.q, op.createdAt, op.cap); }
  }

  /** The step fails this send while it is pending. */
  predicate FailsSend(w: World, a: Action, f: string, e: string) {
    a.Local? && a.f == f && a.op.FailEvent? && a.op.e == e && f in w.nodes && HasStatus(w.nodes[f], e, Pending)
  }

  predicate FailsReceiptSend(w: World, a: Action, f: string, k: ReceiptKey) {
    a.Local? && a.f == f && a.op.FailReceiptSend? && a.op.rk == k && f in w.nodes && ReceiptHasStatus(w.nodes[f], k, Pending)
  }

  /** A send is marked by the success answer to it and by nothing else. */
  lemma StepStatus(c: Config, w: World, a: Action, f: string, e: string)
    requires Enabled(c, w, a) && f in w.nodes
    ensures f in Step(c, w, a).nodes
    ensures var n, n' := w.nodes[f], Step(c, w, a).nodes[f];
            && (HasStatus(n', e, Sent) <==> HasStatus(n, e, Sent) || a == EventReply(f, e))
            && (HasStatus(n', e, FailedPermanent) <==> HasStatus(n, e, FailedPermanent) || FailsSend(w, a, f, e))
  {
    hide ApplyOp, OpEnabled, Emitted, Answered, RequestsAfter, Receive, WriteAck, HandleReceipts;
    if !a.Outsider? && a.f == f {
      var n, id, reg := w.nodes[f], c.identities[f], c.registries[f];
      match a
      case Local(_, op) => OpStatus(n, id, reg, op, e);
      case Store(_, run, now) =>
        var env := w.requests[run].env;
        ReceiveSendsNothing(n, env.event, env.sig, reg[env.event.origin].key, now);
      case AckLookedUp(_, run, at) => AckKeepsOutbound(n, id, w.requests[run].found, w.requests[run].a, at);
      case EventReply(_, d) => E.SentEffect(n, d);
      case DeliverReceipt(_, env, gates) => ReceiptsKeepAcks(n, id, reg, env, gates);
      case _ =>
    }
  }

  lemma AckKeepsOutbound(n: Node, id: Identity, found: Option<InKey>, a: AckKey, at: string)
    requires found.Some? ==> found.value in n.inbound && found.value.eventId == a.eventId
    ensures WriteAck(n, id, found, a, at).0.outbound == n.outbound
    ensures forall k :: k in n.receiptOut ==>
              k in WriteAck(n, id, found, a, at).0.receiptOut && WriteAck(n, id, found, a, at).0.receiptOut[k] == n.receiptOut[k]
    ensures forall k :: k in WriteAck(n, id, found, a, at).0.receiptOut && k !in n.receiptOut ==>
              WriteAck(n, id, found, a, at).0.receiptOut[k].status == Pending
  {
    E.WriteAckEffect(n, id, found, a, at);
  }

  lemma StepReceiptStatus(c: Config, w: World, a: Action, f: string, k: ReceiptKey)
    requires Enabled(c, w, a) && f in w.nodes
    ensures f in Step(c, w, a).nodes
    ensures var n, n' := w.nodes[f], Step(c, w, a).nodes[f];
            && (ReceiptHasStatus(n', k, Sent) <==> ReceiptHasStatus(n, k, Sent) || a == ReceiptReply(f, k))
            && (ReceiptHasStatus(n', k, FailedPermanent) <==> ReceiptHasStatus(n, k, FailedPermanent) || FailsReceiptSend(w, a, f, k))
  {
    hide ApplyOp, OpEnabled, Emitted, Answered, RequestsAfter, Receive, WriteAck, HandleReceipts;
    if !a.Outsider? && a.f == f {
      var n, id, reg := w.nodes[f], c.identities[f], c.registries[f];
      match a
      case Local(_, op) => OpReceiptStatus(n, id, reg, op, k);
      case Store(_, run, now) =>
        var env := w.requests[run].env;
        ReceiveSendsNothing(n, env.event, env.sig, reg[env.event.origin].key, now);
      case AckLookedUp(_, run, at) => AckKeepsOutbound(n, id, w.requests[run].found, w.requests[run].a, at);
      case ReceiptReply(_, rk) => E.ReceiptSentEffect(n, rk);
      case DeliverReceipt(_, env, gates) => ReceiptsKeepAcks(n, id, reg, env, gates);
      case _ =>
    }
  }

  /** What every step either keeps or brings about holds exactly when some step brought it about. */
  lemma {:induction false} BroughtAbout(holds: nat -> bool, brings: nat -> bool, i: nat)
    requires !holds(0) && forall k: nat :: k < i ==> (holds(k + 1) <==> holds(k) || brings(k))
    ensures holds(i) <==> exists j: nat :: j < i && brings(j)
  {
    if i > 0 {
      BroughtAbout(holds, brings, i - 1);
      assert holds(i - 1 + 1) <==> holds(i - 1) || brings(i - 1);
      if j: nat :| j < i && brings(j) { assert j < i - 1 || j == i - 1; }
    }
  }

  lemma {:induction false} NodesStay(c: Config, ws: seq<World>, acts: seq<Action>, i: nat, f: string)
    requires IsRun(c, ws, acts) && i < |ws| && f in c.identities
    ensures f in ws[i].nodes
    decreases i
  {
    if i > 0 {
      NodesStay(c, ws, acts, i - 1, f);
      RunStep(c, ws, acts, i - 1);
    }
  }

  /** A row is sent exactly when a success answer to its transmission was taken. */
  lemma SentExactly(c: Config, ws: seq<World>, acts: seq<Action>, i: nat, f: string, e: string)
    requires IsRun(c, ws, acts) && i < |ws| && f in c.identities
    ensures f in ws[i].nodes
    ensures HasStatus(ws[i].nodes[f], e, Sent) <==> exists j: nat :: j < i && acts[j] == EventReply(f, e)
  {
    hide Enabled, Step, GoodConfig, FailsSend;
    var holds := (k: nat) => k < |ws| && f in ws[k].nodes && HasStatus(ws[k].nodes[f], e, Sent);
    var brings := (k: nat) => k < |acts| && acts[k] == EventReply(f, e);
    NodesStay(c, ws, acts, i, f);
    forall k: nat | k < i ensures holds(k + 1) <==> holds(k) || brings(k) {
      NodesStay(c, ws, acts, k, f);
      RunStep(c, ws, acts, k);
      StepStatus(c, ws[k], acts[k], f, e);
    }
    BroughtAbout(holds, brings, i);
    if j: nat :| j < i && acts[j] == EventReply(f, e) { assert brings(j); }
    if j: nat :| j < i && brings(j) { assert acts[j] == EventReply(f, e); }
  }

  /** A row has failed for good exactly when the worker gave it up while it was pending. */
  lemma FailedExactly(c: Config, ws: seq<World>, acts: seq<Action>, i: nat, f: string, e: string)
    requires IsRun(c, ws, acts) && i < |ws| && f in c.identities
    ensures f in ws[i].nodes
    ensures HasStatus(ws[i].nodes[f], e, FailedPermanent) <==> exists j: nat :: j < i && FailsSend(ws[j], acts[j], f, e)
  {
    hide Enabled, Step, GoodConfig, FailsSend;
    var holds := (k: nat) => k < |ws| && f in ws[k].nodes && HasStatus(ws[k].nodes[f], e, FailedPermanent);
    var brings := (k: nat) => k < |acts| && k < |ws| && FailsSend(ws[k], acts[k], f, e);
    NodesStay(c, ws, acts, i, f);
    forall k: nat | k < i ensures holds(k + 1) <==> holds(k) || brings(k) {
      NodesStay(c, ws, acts, k, f);
      RunStep(c, ws, acts, k);
      StepStatus(c, ws[k], acts[k], f, e);
    }
    BroughtAbout(holds, brings, i);
    if j: nat :| j < i && FailsSend(ws[j], acts[j], f, e) { assert brings(j); }
    if j: nat :| j < i && brings(j) { assert FailsSend(ws[j], acts[j], f, e); }
  }

  /** The same for receipts. */
  lemma ReceiptSentExactly(c: Config, ws: seq<World>, acts: seq<Action>, i: nat, f: string, k: ReceiptKey)
    requires IsRun(c, ws, acts) && i < |ws| && f in c.identities
    ensures f in ws[i].nodes
    ensures ReceiptHasStatus(ws[i].nodes[f], k, Sent) <==> exists j: nat :: j < i && acts[j] == ReceiptReply(f, k)
  {
    hide Enabled, Step, GoodConfig, FailsSend;
    var holds := (m: nat) => m < |ws| && f in ws[m].nodes && ReceiptHasStatus(ws[m].nodes[f], k, Sent);
    var brings := (m: nat) => m < |acts| && acts[m] == ReceiptReply(f, k);
    NodesStay(c, ws, acts, i, f);
    forall m: nat | m < i ensures holds(m + 1) <==> holds(m) || brings(m) {
      NodesStay(c, ws, acts, m, f);
      RunStep(c, ws, acts, m);
      StepReceiptStatus(c, ws[m], acts[m], f, k);
    }
    BroughtAbout(holds, brings, i);
    if j: nat :| j < i && acts[j] == ReceiptReply(f, k) { assert brings(j); }
    if j: nat :| j < i && brings(j) { assert acts[j] == ReceiptReply(f, k); }
  }

  // ------------------------------------------------------ a run with such an ack

  ghost predicate Reaches(c: Config, ws: seq<World>, acts: seq<Action>, w: World) {
    IsRun(c, ws, acts) && ws[|acts|] == w
  }

  lemma RunExtends(c: Config, ws: seq<World>, acts: seq<Action>, w: World, a: Action)
    requires Reaches(c, ws, acts, w) && Enabled(c, w, a)
    ensures Reaches(c, ws + [Step(c, w, a)], acts + [a], Step(c, w, a))
  {
    hide Enabled, Step, GoodConfig, IsInit;
    var ts, bs := ws + [Step(c, w, a)], acts + [a];
    forall i | 0 <= i < |bs| ensures Enabled(c, ts[i], bs[i]) && ts[i + 1] == Step(c, ts[i], bs[i]) {
      if i < |acts| { assert ts[i] == ws[i] && ts[i + 1] == ws[i + 1] && bs[i] == acts[i]; }
    }
  }

  const MIDNIGHT := R.Stamp(2026, 1, 1, 0, 0, 0, 0)

  function ZeroUuid(): (s: string)
    ensures IsUuid(s)
  {
    seq(36, i => if i == 8 || i == 13 || i == 18 || i == 23 then '-' else '0')
  }

  /** A registered family "b" outside this model writes to agent "y" of the honest family "a". */
  function SampleEvent(): SignedEvent {
    SignedEvent("b", "k", FedEvent(ZeroUuid(), "message", Addr("s", "b"), Addr("y", "a"), R.Iso(MIDNIGHT), "", None))
  }

  function SampleEnvelope(): Envelope { EventEnvelope(SampleEvent(), Sig(Key(1), EventDoc(SampleEvent()), 0)) }

  function SampleConfig(): Config {
    Config(map["a" := Identity("a", "k", Key(0))], map["a" := map["b" := Record("k", Key(1))]])
  }

  function SampleNode(): Node {
    Node(L.Ledger([], map[], [], [], [], map[]), {"y"}, map[], map[], [], map[], map[], [], map[], map[])
  }

  lemma SampleIsVetted()
    ensures InboxRefusal(SampleNode(), SampleConfig().identities["a"], SampleConfig().registries["a"], SampleEnvelope(),
                         Gates(true, true)).None?
    ensures IsTimestamp(R.Iso(MIDNIGHT))
  {
    hide BodySize, R.Iso, IsTimestamp;
    SampleFits();
  }

  lemma SampleFits()
    ensures ValidEvent(SampleEvent()) && BodySize(SampleEnvelope()) <= REQUEST_BODY_LIMIT && IsTimestamp(R.Iso(MIDNIGHT))
  {
    hide EventOverhead, R.Iso, IsTimestamp;
    assert R.Valid(MIDNIGHT);
    IsoIsTimestamp(MIDNIGHT);
    EventOverheadBound(SampleEvent());
  }

  /** The node after the sample event was received. */
  function SampleReceived(): Node { StoreVetted(SampleNode(), SampleConfig().registries["a"], SampleEnvelope(), 0).0 }

  lemma SampleIsReceived()
    ensures KeyOf(SampleEvent()) in SampleReceived().inbound
    ensures SampleReceived().inbound[KeyOf(SampleEvent())].target == Addr("y", "a")
    ensures L.HasId(SampleReceived().ledger.events, ZeroUuid())
  {
    assert SampleReceived().ledger.events[0].eventId == ZeroUuid();
  }

  lemma LookUpMiss(c: Config, ws: seq<World>, acts: seq<Action>, w: World, f: string, run: nat, x: AckKey)
    returns (ts: seq<World>, bs: seq<Action>, v: World)
    requires Reaches(c, ws, acts, w) && f in w.nodes && f in c.identities && f in c.registries
    requires run !in w.requests && !IsInbound(w.nodes[f], x.eventId)
    ensures Reaches(c, ts, bs, v) && v.nodes == w.nodes && v.wire == w.wire
    ensures v.requests == w.requests[run := AckRequest(f, x, None)]
  {
    var act := LookUp(f, run, x, None);
    RunExtends(c, ws, acts, w, act);
    ts, bs, v := ws + [Step(c, w, act)], acts + [act], Step(c, w, act);
    assert v.nodes == w.nodes[f := w.nodes[f]] == w.nodes;
  }

  lemma Arrives(c: Config, ws: seq<World>, acts: seq<Action>, w: World, env: Envelope)
    returns (ts: seq<World>, bs: seq<Action>, v: World)
    requires Reaches(c, ws, acts, w) && Usable(c, w, env.sig)
    ensures Reaches(c, ts, bs, v) && v.nodes == w.nodes && v.requests == w.requests && env in v.wire
  {
    var act := Outsider(env);
    RunExtends(c, ws, acts, w, act);
    ts, bs, v := ws + [Step(c, w, act)], acts + [act], Step(c, w, act);
  }

  lemma Passes(c: Config, ws: seq<World>, acts: seq<Action>, w: World, f: string, run: nat, env: Envelope)
    returns (ts: seq<World>, bs: seq<Action>, v: World)
    requires Reaches(c, ws, acts, w) && f in w.nodes && f in c.identities && f in c.registries && run !in w.requests && env in w.wire
    requires InboxRefusal(w.nodes[f], c.identities[f], c.registries[f], env, Gates(true, true)).None?
    ensures ws <= ts && acts <= bs && Reaches(c, ts, bs, v) && v.nodes == w.nodes && v.replies == w.replies
    ensures v.requests == w.requests[run := StoreRequest(f, env)]
  {
    hide InboxRefusal;
    var act := Vet(f, run, env, Gates(true, true));
    RunExtends(c, ws, acts, w, act);
    ts, bs, v := ws + [Step(c, w, act)], acts + [act], Step(c, w, act);
    assert v.nodes == w.nodes[f := w.nodes[f]] == w.nodes;
  }

  lemma Stores(c: Config, ws: seq<World>, acts: seq<Action>, w: World, f: string, run: nat, env: Envelope, now: nat, n: Node)
    returns (ts: seq<World>, bs: seq<Action>, v: World)
    requires Reaches(c, ws, acts, w) && f in w.nodes && f in c.identities && f in c.registries
    requires run in w.requests && w.requests[run] == StoreRequest(f, env) && env.EventEnvelope? && env.event.origin in c.registries[f]
    requires n == StoreVetted(w.nodes[f], c.registries[f], env, now).0
    ensures ws <= ts && acts <= bs && Reaches(c, ts, bs, v) && v.requests == w.requests - {run} && v.nodes == w.nodes[f := n]
    ensures StoreAnswer(StoreVetted(w.nodes[f], c.registries[f], env, now).1).Ok? ==> Reply(f, env) in v.replies
  {
    var act := Store(f, run, now);
    RunExtends(c, ws, acts, w, act);
    ts, bs, v := ws + [Step(c, w, act)], acts + [act], Step(c, w, act);
  }

  lemma AcksUnguarded(c: Config, ws: seq<World>, acts: seq<Action>, w: World, f: string, run: nat, x: AckKey, at: string)
    returns (ts: seq<World>, bs: seq<Action>, v: World)
    requires Reaches(c, ws, acts, w) && f in w.nodes && f in c.identities && f in c.registries
    requires run in w.requests && w.requests[run] == AckRequest(f, x, None) && IsTimestamp(at)
    requires IsAckType(x.ackType) && L.HasId(w.nodes[f].ledger.events, x.eventId)
    ensures Reaches(c, ts, bs, v) && f in v.nodes
    ensures v.nodes[f] == w.nodes[f].(acks := w.nodes[f].acks[x := at])
  {
    var act := AckLookedUp(f, run, at);
    RunExtends(c, ws, acts, w, act);
    ts, bs, v := ws + [Step(c, w, act)], acts + [act], Step(c, w, act);
  }

  lemma SampleStarts() returns (w: World)
    ensures Reaches(SampleConfig(), [w], [], w) && w == World(map["a" := SampleNode()], {}, {}, map[])
    ensures Usable(SampleConfig(), w, SampleEnvelope().sig)
  {
    w := World(map["a" := SampleNode()], {}, {}, map[]);
  }

  /** The lookup runs first, then the event passes the checks. */
  lemma BothPending(c: Config, w0: World, f: string, env: Envelope, x: AckKey)
    returns (ws: seq<World>, acts: seq<Action>, w: World)
    requires Reaches(c, [w0], [], w0) && f in w0.nodes && f in c.identities && f in c.registries && w0.requests == map[]
    requires !IsInbound(w0.nodes[f], x.eventId) && Usable(c, w0, env.sig)
    requires InboxRefusal(w0.nodes[f], c.identities[f], c.registries[f], env, Gates(true, true)).None?
    ensures Reaches(c, ws, acts, w) && w.nodes == w0.nodes
    ensures 0 in w.requests && w.requests[0] == AckRequest(f, x, None) && 1 in w.requests && w.requests[1] == StoreRequest(f, env)
  {
    hide *;
    ws, acts, w := Arrives(c, [w0], [], w0, env);
    ws, acts, w := LookUpMiss(c, ws, acts, w, f, 0, x);
    ws, acts, w := Passes(c, ws, acts, w, f, 1, env);
  }

  /** The event is stored, then the ack is written without its row. */
  lemma StoredThenAcked(c: Config, ws: seq<World>, acts: seq<Action>, w: World, f: string, env: Envelope, n: Node, x: AckKey, at: string)
    returns (ts: seq<World>, bs: seq<Action>, v: World)
    requires Reaches(c, ws, acts, w) && f in w.nodes && f in c.identities && f in c.registries
    requires 0 in w.requests && w.requests[0] == AckRequest(f, x, None) && 1 in w.requests && w.requests[1] == StoreRequest(f, env)
    requires env.EventEnvelope? && env.event.origin in c.registries[f] && IsAckType(x.ackType) && IsTimestamp(at)
    requires n == StoreVetted(w.nodes[f], c.registries[f], env, 0).0 && L.HasId(n.ledger.events, x.eventId)
    ensures Reaches(c, ts, bs, v) && f in v.nodes && v.nodes[f] == n.(acks := n.acks[x := at])
  {
    hide *;
    ts, bs, v := Stores(c, ws, acts, w, f, 1, env, 0, n);
    assert v.requests[0] == AckRequest(f, x, None);
    ts, bs, v := AcksUnguarded(c, ts, bs, v, f, 0, x, at);
  }

  /** Agent "x" looks the event up before it arrives and acks it after: its ack stands beside agent "y"'s inbound row,
      without a receipt intent. */
  lemma AckOutrunsReceive() returns (c: Config, ws: seq<World>, acts: seq<Action>, w: World, k: InKey, x: AckKey)
    ensures Reaches(c, ws, acts, w) && "a" in w.nodes
    ensures k in w.nodes["a"].inbound && x.eventId == k.eventId && x in w.nodes["a"].acks
    ensures x.agent != w.nodes["a"].inbound[k].target.agent && w.nodes["a"].receiptOut == map[]
  {
    hide Reaches, Usable, ZeroUuid;
    c, k, x := SampleConfig(), KeyOf(SampleEvent()), AckKey(ZeroUuid(), "x", "received");
    SampleIsVetted();
    SampleIsReceived();
    w := SampleStarts();
    ws, acts, w := BothPending(c, w, "a", SampleEnvelope(), x);
    ws, acts, w := StoredThenAcked(c, ws, acts, w, "a", SampleEnvelope(), SampleReceived(), x, R.Iso(MIDNIGHT));
  }

  // ---------------------------------------------------------------- completeness

  /** An inbound row in an honest family's name is that family's own original. */
  lemma InboundIsOriginal(c: Config, w: World, g: string, k: InKey)
    requires GoodConfig(c) && Inv(c, w) && g in w.nodes && k in w.nodes[g].inbound && k.origin in c.identities
    ensures k.origin in w.nodes && k.eventId in w.nodes[k.origin].outbound
    ensures w.nodes[k.origin].outbound[k.eventId].signed == w.nodes[g].inbound[k].signed
    ensures w.nodes[k.origin].outbound[k.eventId].sig == w.nodes[g].inbound[k].sig
  {
    NodeOk(c, w.nodes, g);
    var row := w.nodes[g].inbound[k];
    assert InRowOk(k, row, c.identities[g], c.registries[g]);
    assert AllGenuine(c, w.nodes, w.nodes[g]);
    assert Genuine(c, w.nodes, row.sig);
    assert Issued(w.nodes[k.origin], row.sig);
  }

  predicate OpenGates(gates: Gates) { gates.conn && gates.family }

  lemma GoodEventGetsThrough(n: Node, id: Identity, reg: Registry, s: SignedEvent, sig: Signature, gates: Gates, now: nat)
    requires OpenGates(gates) && ValidEvent(s) && Registered(reg, s.origin, s.keyId)
    requires Verifies(reg[s.origin].key, EventDoc(s), sig)
    requires s.event.target.family == id.family && s.event.target.agent in n.members
    requires KeyOf(s) in n.inbound ==> n.inbound[KeyOf(s)].event == s.event
    ensures HandleInbox(n, id, reg, EventEnvelope(s, sig), gates, now).1 ==
            if BodySize(EventEnvelope(s, sig)) > REQUEST_BODY_LIMIT then Rejected(413, "body_too_large")
            else if KeyOf(s) in n.inbound then Ok(true)
            else if L.HasId(n.ledger.events, s.event.eventId) then ConflictAnswer
            else Ok(false)
  {
  }

  /** However long a vetted request of an honest sender waits for its transaction, it is then stored or a duplicate,
      unless a local event took its id: it never meets different content under its id. */
  lemma VettedIsStored(c: Config, w: World, run: nat, now: nat)
    requires GoodConfig(c) && Inv(c, w) && run in w.requests && w.requests[run].StoreRequest?
    requires w.requests[run].env.EventEnvelope? && w.requests[run].env.event.origin in c.identities
    ensures w.requests[run].f in w.nodes && w.requests[run].f in c.registries
    ensures var q, n := w.requests[run], w.nodes[w.requests[run].f];
            var s := q.env.event;
            s.origin in c.registries[q.f] &&
            StoreVetted(n, c.registries[q.f], q.env, now).1 ==
            if KeyOf(s) in n.inbound then DuplicateIn
            else if L.HasId(n.ledger.events, s.event.eventId) then ConflictIn(LocalEventIdCollision)
            else StoredIn
  {
    var q := w.requests[run];
    var s, n := q.env.event, w.nodes[q.f];
    assert RequestOk(c, w.nodes, q);
    ReceiveCases(n, s, q.env.sig, c.registries[q.f][s.origin].key, now);
    if KeyOf(s) in n.inbound {
      InboundIsOriginal(c, w, q.f, KeyOf(s));
      assert Issued(w.nodes[s.origin], q.env.sig);
      NodeParts(c, w.nodes, q.f);
      NodeOk(c, w.nodes, q.f);
      assert InRowOk(KeyOf(s), n.inbound[KeyOf(s)], c.identities[q.f], c.registries[q.f]);
    }
  }

  /** An honest transmission to an honest family that knows the sender and the addressee is stored or a
      duplicate, unless its body is too large or a local event already took its id: it never meets
      different content under its id. */
  lemma TransmissionIsAccepted(c: Config, w: World, f: string, e: string, g: string, gates: Gates, now: nat)
    requires GoodConfig(c) && Inv(c, w) && f in w.nodes && e in w.nodes[f].outbound && g in w.nodes && OpenGates(gates)
    requires var out := w.nodes[f].outbound[e];
             && out.targetFamily == g && out.signed.event.target.agent in w.nodes[g].members
             && Registered(c.registries[g], f, out.signed.keyId)
    ensures var n := w.nodes[g];
            HandleInbox(n, c.identities[g], c.registries[g], w.nodes[f].outbound[e].envelope, gates, now).1 ==
            if BodySize(w.nodes[f].outbound[e].envelope) > REQUEST_BODY_LIMIT then Rejected(413, "body_too_large")
            else if InKey(f, e) in n.inbound then Ok(true)
            else if L.HasId(n.ledger.events, e) then ConflictAnswer
            else Ok(false)
  {
    hide BodySize, HandleInbox, WireOk, SigsOk, RepliesOk, SentOk, RequestsOk;
    var out, n := w.nodes[f].outbound[e], w.nodes[g];
    NodeParts(c, w.nodes, f);
    NodeOk(c, w.nodes, g);
    assert OutRowOk(e, out, c.identities[f]);
    if InKey(f, e) in n.inbound {
      InboundIsOriginal(c, w, g, InKey(f, e));
      assert InRowOk(InKey(f, e), n.inbound[InKey(f, e)], c.identities[g], c.registries[g]);
    }
    GoodEventGetsThrough(n, c.identities[g], c.registries[g], out.signed, out.sig, gates, now);
  }

  lemma ComposedIsValid(id: Identity, k: ReceiptKey, row: ReceiptOut, sig: Signature)
    requires IsKeyId(id.keyId) && IsFamily(id.family) && IsFamily(row.origin) && ValidKey(k) && k.agent.family == id.family
    requires row.sigHash == Sha256(sig) && IsTimestamp(row.at)
    ensures ValidReceipt(ComposeReceipt(id, k, row).signed)
  {
  }

  /** What a materialized receipt says about the inbound row it acknowledges. */
  lemma ReceiptSays(m: Node, id: Identity, reg: Registry, k: ReceiptKey)
    requires NodeInv(m, id, reg) && IsKeyId(id.keyId)
    requires k in m.receiptOut && m.receiptOut[k].original.Some?
    ensures var row := m.receiptOut[k];
            var ik := InKey(row.origin, k.eventId);
            && ik in m.inbound
            && var s := row.original.value.signed;
               && row.original.value.sig == Sig(id.key, ReceiptDoc(s), 0)
               && ValidReceipt(s) && ReceiptSize(s) <= REQUEST_BODY_LIMIT && s.issuer == id.family && s.keyId == id.keyId
               && s.receipt == Receipt(k.eventId, row.origin, Sha256(m.inbound[ik].sig), m.inbound[ik].signed.event.target, k.ackType, row.at)
               && m.inbound[ik].signed.event.target.family == id.family
  {
    hide L.Valid, OutboundOk, OriginalsOk, MergedOk, NotesOk, DistinctOriginals, ValidReceipt, ReceiptSize, ValidEvent, EventOverhead, Escaped;
    ReceiptRowHolds(m, id, reg, k);
    var row := m.receiptOut[k];
    var ik := InKey(row.origin, k.eventId);
    RowParts(ik, m.inbound, id, reg);
    ComposedIsValid(id, k, row, m.inbound[ik].sig);
    OnlyEscapesOverflow(m.inbound[ik].signed, row.original.value.signed, row.original.value.sig);
  }

  lemma RowParts(ik: InKey, inbound: map<InKey, Inbound>, id: Identity, reg: Registry)
    requires InboundOk(inbound, id, reg) && ik in inbound
    ensures var s := inbound[ik].signed;
            && ValidEvent(s) && s.event.target == inbound[ik].target && s.event.target.family == id.family
            && IsFamily(s.origin) && s.origin == ik.origin && IsFamily(id.family)
  {
    assert InRowOk(ik, inbound[ik], id, reg);
  }

  /** Every receipt an honest receiver issues for an honest sender passes all the sender's checks. */
  lemma ReceiptIsAccepted(c: Config, w: World, g: string, k: ReceiptKey, f: string, gates: Gates)
    requires GoodConfig(c) && Inv(c, w) && g in w.nodes && f in w.nodes && OpenGates(gates)
    requires k in w.nodes[g].receiptOut && w.nodes[g].receiptOut[k].original.Some? && w.nodes[g].receiptOut[k].origin == f
    requires Registered(c.registries[f], g, c.identities[g].keyId)
    ensures HandleReceipts(w.nodes[f], c.identities[f], c.registries[f], ReceiptBody(w.nodes[g].receiptOut[k]), gates).1.Ok?
  {
    var row := w.nodes[g].receiptOut[k];
    NodeOk(c, w.nodes, g);
    ReceiptSays(w.nodes[g], c.identities[g], c.registries[g], k);
    InboundIsOriginal(c, w, g, InKey(f, k.eventId));
    GoodReceiptGetsThrough(w.nodes[f], c.identities[f], c.registries[f], row.original.value.signed, row.original.value.sig, gates);
  }

  lemma GoodReceiptGetsThrough(n: Node, id: Identity, reg: Registry, s: SignedReceipt, sig: Signature, gates: Gates)
    requires OpenGates(gates) && ValidReceipt(s) && ReceiptSize(s) <= REQUEST_BODY_LIMIT && s.receipt.eventId in n.outbound && s.receipt.origin == id.family
    requires s.issuer == n.outbound[s.receipt.eventId].signed.event.target.family
    requires Registered(reg, s.issuer, s.keyId) && Verifies(reg[s.issuer].key, ReceiptDoc(s), sig)
    requires s.receipt.sigHash == Sha256(n.outbound[s.receipt.eventId].sig)
    requires s.receipt.agent == n.outbound[s.receipt.eventId].signed.event.target
    ensures HandleReceipts(n, id, reg, ReceiptEnvelope(s, sig), gates).1.Ok?
  {
  }

  // -------------------------------------------------------- what can always happen

  lemma FreeRun(requests: map<nat, Request>) returns (run: nat)
    ensures run !in requests
  {
    run := Above(requests.Keys);
  }

  lemma {:induction false} Above(taken: set<nat>) returns (n: nat)
    ensures forall x :: x in taken ==> x < n
    decreases |taken|
  {
    if taken == {} {
      n := 0;
    } else {
      var x :| x in taken;
      n := Above(taken - {x});
      assert forall y :: y in taken ==> y == x || y in taken - {x};
      if x >= n { n := x + 1; }
    }
  }

  lemma Transmits(c: Config, ws: seq<World>, acts: seq<Action>, w: World, f: string, e: string)
    returns (ts: seq<World>, bs: seq<Action>, v: World)
    requires Reaches(c, ws, acts, w) && f in w.nodes && f in c.identities && f in c.registries
    requires OutPending(w.nodes[f], e) && w.nodes[f].outbound[e].targetFamily in c.registries[f]
    ensures ws <= ts && acts <= bs && Reaches(c, ts, bs, v) && v.nodes == w.nodes && v.requests == w.requests
    ensures w.nodes[f].outbound[e].envelope in v.wire
  {
    var act := Transmit(f, e);
    RunExtends(c, ws, acts, w, act);
    ts, bs, v := ws + [Step(c, w, act)], acts + [act], Step(c, w, act);
    assert v.nodes == w.nodes[f := w.nodes[f]] == w.nodes;
  }

  lemma GetsAnswered(c: Config, ws: seq<World>, acts: seq<Action>, w: World, f: string, e: string)
    returns (ts: seq<World>, bs: seq<Action>, v: World)
    requires Reaches(c, ws, acts, w) && f in w.nodes && f in c.identities && f in c.registries && OutPending(w.nodes[f], e)
    requires Reply(w.nodes[f].outbound[e].targetFamily, w.nodes[f].outbound[e].envelope) in w.replies
    ensures ws <= ts && acts <= bs && Reaches(c, ts, bs, v) && f in v.nodes && HasStatus(v.nodes[f], e, Sent)
  {
    var act := EventReply(f, e);
    RunExtends(c, ws, acts, w, act);
    ts, bs, v := ws + [Step(c, w, act)], acts + [act], Step(c, w, act);
  }

  lemma AcceptedIsUnrefused(n: Node, id: Identity, reg: Registry, env: Envelope, gates: Gates, now: nat)
    requires HandleInbox(n, id, reg, env, gates, now).1.Ok?
    ensures InboxRefusal(n, id, reg, env, gates).None? && env.EventEnvelope? && env.event.origin in reg
    ensures StoreAnswer(StoreVetted(n, reg, env, now).1).Ok?
  {
    hide BodySize, ValidEvent, Verifies, Receive;
  }

  /** What the target needs to take a pending event: it knows the sender and the addressee, the body fits, and the id is not
      a local event's. */
  predicate Deliverable(c: Config, w: World, f: string, e: string, g: string) {
    && f in w.nodes && g in w.nodes && f != g && f in c.registries && g in c.registries && OutPending(w.nodes[f], e)
    && var out := w.nodes[f].outbound[e];
       && out.targetFamily == g && g in c.registries[f] && out.signed.event.target.agent in w.nodes[g].members
       && Registered(c.registries[g], f, out.signed.keyId) && BodySize(out.envelope) <= REQUEST_BODY_LIMIT
       && (InKey(f, e) in w.nodes[g].inbound || !L.HasId(w.nodes[g].ledger.events, e))
  }

  lemma DeliverableIsTaken(c: Config, w: World, f: string, e: string, g: string, now: nat)
    requires GoodConfig(c) && Inv(c, w) && Deliverable(c, w, f, e, g)
    ensures f in c.identities && g in c.identities
    ensures var env := w.nodes[f].outbound[e].envelope;
            && InboxRefusal(w.nodes[g], c.identities[g], c.registries[g], env, Gates(true, true)).None?
            && env.EventEnvelope? && env.event.origin in c.registries[g]
            && StoreAnswer(StoreVetted(w.nodes[g], c.registries[g], env, now).1).Ok?
  {
    NodeParts(c, w.nodes, f);
    NodeParts(c, w.nodes, g);
    hide HandleInbox, NodeInv, InboxRefusal, StoreVetted, Genuine;
    TransmissionIsAccepted(c, w, f, e, g, Gates(true, true), now);
    AcceptedIsUnrefused(w.nodes[g], c.identities[g], c.registries[g], w.nodes[f].outbound[e].envelope, Gates(true, true), now);
  }

  lemma DeliveredIsStored(c: Config, ws: seq<World>, acts: seq<Action>, w: World, ts: seq<World>, bs: seq<Action>, v: World,
                          f: string, e: string)
    requires Reaches(c, ws, acts, w) && ws <= ts && acts <= bs && Reaches(c, ts, bs, v) && f in w.nodes && e in w.nodes[f].outbound
    requires f in v.nodes && HasStatus(v.nodes[f], e, Sent) && w.nodes[f].outbound[e].targetFamily in c.identities
    ensures var out := w.nodes[f].outbound[e];
            out.targetFamily in v.nodes && HasStored(v.nodes[out.targetFamily], out.signed)
  {
    RunGrows(c, ts, bs, |acts|, |bs|);
    assert ts[|acts|] == w && ts[|bs|] == v;
    SameSigned(w, v, f, e);
    RunInv(c, ts, bs, |bs|);
    SentIsArrived(c, v, f, e);
  }

  lemma SentIsArrived(c: Config, v: World, f: string, e: string)
    requires Inv(c, v) && f in v.nodes && HasStatus(v.nodes[f], e, Sent) && v.nodes[f].outbound[e].targetFamily in c.identities
    ensures var out := v.nodes[f].outbound[e];
            out.targetFamily in v.nodes && HasStored(v.nodes[out.targetFamily], out.signed)
  {
    assert AllArrived(c, v.nodes, v.nodes[f]);
    assert EventArrived(c, v.nodes, v.nodes[f].outbound[e]);
  }

  lemma SameSigned(w: World, v: World, f: string, e: string)
    requires AllGrow(w.nodes, v.nodes) && f in w.nodes && e in w.nodes[f].outbound
    ensures f in v.nodes && e in v.nodes[f].outbound && v.nodes[f].outbound[e].signed == w.nodes[f].outbound[e].signed
    ensures v.nodes[f].outbound[e].targetFamily == w.nodes[f].outbound[e].targetFamily
  {
    assert Grows(w.nodes[f], v.nodes[f]);
    assert OutRowLe(w.nodes[f].outbound[e], v.nodes[f].outbound[e]);
  }

  /** Whatever has happened, such an event can still be delivered: there are steps after which it is sent and stored. */
  lemma CanDeliver(c: Config, ws: seq<World>, acts: seq<Action>, w: World, f: string, e: string, g: string, now: nat)
    returns (ts: seq<World>, bs: seq<Action>, v: World)
    requires Reaches(c, ws, acts, w) && Deliverable(c, w, f, e, g)
    ensures ws <= ts && acts <= bs && Reaches(c, ts, bs, v) && f in v.nodes && g in v.nodes
    ensures HasStatus(v.nodes[f], e, Sent) && HasStored(v.nodes[g], w.nodes[f].outbound[e].signed)
  {
    ReachedInv(c, ws, acts, w);
    DeliverableIsTaken(c, w, f, e, g, now);
    hide Inv, GoodConfig, InboxRefusal, StoreVetted, StoreAnswer, Reaches, HasStatus, HasStored, BodySize, Registered;
    ts, bs, v := DeliverySteps(c, ws, acts, w, f, e, g, now);
    DeliveredIsStored(c, ws, acts, w, ts, bs, v, f, e);
  }

  lemma ReachedInv(c: Config, ws: seq<World>, acts: seq<Action>, w: World)
    requires Reaches(c, ws, acts, w)
    ensures GoodConfig(c) && Inv(c, w)
  {
    RunInv(c, ws, acts, |acts|);
  }

  lemma DeliverySteps(c: Config, ws: seq<World>, acts: seq<Action>, w: World, f: string, e: string, g: string, now: nat)
    returns (ts: seq<World>, bs: seq<Action>, v: World)
    requires Reaches(c, ws, acts, w) && f in w.nodes && g in w.nodes && f != g && OutPending(w.nodes[f], e)
    requires e in w.nodes[f].outbound
    requires f in c.identities && f in c.registries && g in c.identities && g in c.registries
    requires w.nodes[f].outbound[e].targetFamily == g && g in c.registries[f]
    requires var env := w.nodes[f].outbound[e].envelope;
             && InboxRefusal(w.nodes[g], c.identities[g], c.registries[g], env, Gates(true, true)).None?
             && env.EventEnvelope? && env.event.origin in c.registries[g]
             && StoreAnswer(StoreVetted(w.nodes[g], c.registries[g], env, now).1).Ok?
    ensures ws <= ts && acts <= bs && Reaches(c, ts, bs, v) && f in v.nodes && HasStatus(v.nodes[f], e, Sent)
  {
    hide *;
    var env := w.nodes[f].outbound[e].envelope;
    ts, bs, v := Transmits(c, ws, acts, w, f, e);
    var run := FreeRun(v.requests);
    ts, bs, v := Passes(c, ts, bs, v, g, run, env);
    ts, bs, v := Stores(c, ts, bs, v, g, run, env, now, StoreVetted(w.nodes[g], c.registries[g], env, now).0);
    ts, bs, v := GetsAnswered(c, ts, bs, v, f, e);
  }

  lemma ReceiptTransmits(c: Config, ws: seq<World>, acts: seq<Action>, w: World, g: string, k: ReceiptKey)
    returns (ts: seq<World>, bs: seq<Action>, v: World)
    requires Reaches(c, ws, acts, w) && g in w.nodes && g in c.identities && g in c.registries && ReceiptPending(w.nodes[g], k)
    requires w.nodes[g].receiptOut[k].original.Some? && w.nodes[g].receiptOut[k].origin in c.registries[g]
    ensures ws <= ts && acts <= bs && Reaches(c, ts, bs, v) && v.nodes == w.nodes && ReceiptBody(w.nodes[g].receiptOut[k]) in v.wire
  {
    var act := TransmitReceipt(g, k);
    RunExtends(c, ws, acts, w, act);
    ts, bs, v := ws + [Step(c, w, act)], acts + [act], Step(c, w, act);
    assert v.nodes == w.nodes[g := w.nodes[g]] == w.nodes;
  }

  lemma ReceiptArrives(c: Config, ws: seq<World>, acts: seq<Action>, w: World, f: string, env: Envelope)
    returns (ts: seq<World>, bs: seq<Action>, v: World)
    requires Reaches(c, ws, acts, w) && f in w.nodes && f in c.identities && f in c.registries && env in w.wire
    requires HandleReceipts(w.nodes[f], c.identities[f], c.registries[f], env, Gates(true, true)).1.Ok?
    ensures ws <= ts && acts <= bs && Reaches(c, ts, bs, v) && Reply(f, env) in v.replies
    ensures v.nodes == w.nodes[f := HandleReceipts(w.nodes[f], c.identities[f], c.registries[f], env, Gates(true, true)).0]
  {
    hide HandleReceipts;
    var act := DeliverReceipt(f, env, Gates(true, true));
    RunExtends(c, ws, acts, w, act);
    ts, bs, v := ws + [Step(c, w, act)], acts + [act], Step(c, w, act);
  }

  lemma ReceiptAnswered(c: Config, ws: seq<World>, acts: seq<Action>, w: World, g: string, k: ReceiptKey)
    returns (ts: seq<World>, bs: seq<Action>, v: World)
    requires Reaches(c, ws, acts, w) && g in w.nodes && g in c.identities && g in c.registries && ReceiptPending(w.nodes[g], k)
    requires w.nodes[g].receiptOut[k].original.Some?
    requires Reply(w.nodes[g].receiptOut[k].origin, ReceiptBody(w.nodes[g].receiptOut[k])) in w.replies
    ensures ws <= ts && acts <= bs && Reaches(c, ts, bs, v) && g in v.nodes && ReceiptHasStatus(v.nodes[g], k, Sent)
    ensures forall f :: f in w.nodes && f != g ==> f in v.nodes && v.nodes[f] == w.nodes[f]
  {
    var act := ReceiptReply(g, k);
    RunExtends(c, ws, acts, w, act);
    ts, bs, v := ws + [Step(c, w, act)], acts + [act], Step(c, w, act);
  }

  /** The receipt is signed, and its sender and its issuer know each other. */
  predicate ReceiptDeliverable(c: Config, w: World, g: string, k: ReceiptKey, f: string) {
    && f in w.nodes && g in w.nodes && f != g && f in c.registries && g in c.registries && g in c.identities && f in c.identities
    && ReceiptPending(w.nodes[g], k) && w.nodes[g].receiptOut[k].original.Some? && w.nodes[g].receiptOut[k].origin == f
    && f in c.registries[g] && Registered(c.registries[f], g, c.identities[g].keyId)
  }

  lemma ReceiptIsTaken(c: Config, w: World, g: string, k: ReceiptKey, f: string)
    requires GoodConfig(c) && Inv(c, w) && ReceiptDeliverable(c, w, g, k, f)
    ensures var (n', answer) := HandleReceipts(w.nodes[f], c.identities[f], c.registries[f], ReceiptBody(w.nodes[g].receiptOut[k]), Gates(true, true));
            answer.Ok? && k in n'.receiptIn
  {
    NodeOk(c, w.nodes, g);
    ReceiptIsAccepted(c, w, g, k, f, Gates(true, true));
    ReceiptRowHolds(w.nodes[g], c.identities[g], c.registries[g], k);
    AcceptedIsMerged(w.nodes[f], c.identities[f], c.registries[f], ReceiptBody(w.nodes[g].receiptOut[k]), Gates(true, true));
  }

  /** Whatever has happened, such a receipt can still be delivered: there are steps after which it is sent and its stage is
      merged at the sender. */
  lemma CanAcknowledge(c: Config, ws: seq<World>, acts: seq<Action>, w: World, g: string, k: ReceiptKey, f: string)
    returns (ts: seq<World>, bs: seq<Action>, v: World)
    requires Reaches(c, ws, acts, w) && ReceiptDeliverable(c, w, g, k, f)
    ensures ws <= ts && acts <= bs && Reaches(c, ts, bs, v) && g in v.nodes && f in v.nodes
    ensures ReceiptHasStatus(v.nodes[g], k, Sent) && k in v.nodes[f].receiptIn
  {
    ReachedInv(c, ws, acts, w);
    ReceiptIsTaken(c, w, g, k, f);
    ts, bs, v := ReceiptSteps(c, ws, acts, w, g, k, f);
  }

  lemma ReceiptSteps(c: Config, ws: seq<World>, acts: seq<Action>, w: World, g: string, k: ReceiptKey, f: string)
    returns (ts: seq<World>, bs: seq<Action>, v: World)
    requires Reaches(c, ws, acts, w) && f in w.nodes && g in w.nodes && f != g && f in c.registries && g in c.registries
    requires g in c.identities && f in c.identities && f in c.registries[g] && k in w.nodes[g].receiptOut && ReceiptPending(w.nodes[g], k)
    requires w.nodes[g].receiptOut[k].original.Some? && w.nodes[g].receiptOut[k].origin == f
    requires var (n', answer) := HandleReceipts(w.nodes[f], c.identities[f], c.registries[f], ReceiptBody(w.nodes[g].receiptOut[k]), Gates(true, true));
             answer.Ok? && k in n'.receiptIn
    ensures ws <= ts && acts <= bs && Reaches(c, ts, bs, v) && g in v.nodes && f in v.nodes
    ensures ReceiptHasStatus(v.nodes[g], k, Sent) && k in v.nodes[f].receiptIn
  {
    hide *;
    ts, bs, v := ReceiptTransmits(c, ws, acts, w, g, k);
    ts, bs, v := ReceiptArrives(c, ts, bs, v, f, ReceiptBody(w.nodes[g].receiptOut[k]));
    ts, bs, v := ReceiptAnswered(c, ts, bs, v, g, k);
  }

  lemma AcceptedIsMerged(n: Node, id: Identity, reg: Registry, env: Envelope, gates: Gates)
    requires HandleReceipts(n, id, reg, env, gates).1.Ok?
    ensures env.ReceiptEnvelope?
    ensures var rc := env.receipt.receipt;
            ReceiptKey(rc.eventId, rc.agent, rc.ackType) in HandleReceipts(n, id, reg, env, gates).0.receiptIn
  {
    E.AcceptedIsRecorded(n, id, reg, env, gates);
  }
}
