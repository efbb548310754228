/** The federation store over the SQLite ledger, and the server endpoints that drive it. Each mutating
    method is one immediate transaction that restores its tables when a UNIQUE constraint refuses a row. It keeps
    the node invariant, removes and rewrites nothing, and has the effect of its function on the tables. */
module FedStore {
  import opened Options
  import opened FedSchema
  import opened FedNode
  import E = FedEffects
  import I = FedInvariant
  import L = Ledger
  import SqliteStore

  class FederationStore {
    const inner: SqliteStore.AtalkStore
    const identity: Identity
    const registry: Registry
    var members: set<string>
    var outbound: map<string, Outbound>
    var inbound: map<InKey, Inbound>
    var conflicts: seq<Conflict>
    var acks: map<AckKey, string>
    var receiptOut: map<ReceiptKey, ReceiptOut>
    var originals: seq<Original>
    var receiptIn: map<ReceiptKey, nat>
    var notifications: map<Intent, Notification>

    constructor (inner: SqliteStore.AtalkStore, identity: Identity, registry: Registry, members: set<string>)
      ensures this.inner == inner && this.identity == identity && this.registry == registry
      ensures View() == Node(inner.View(), members, map[], map[], [], map[], map[], [], map[], map[])
      ensures L.Valid(inner.View()) ==> Valid()
    {
      this.inner, this.identity, this.registry, this.members := inner, identity, registry, members;
      outbound, inbound, conflicts, acks := map[], map[], [], map[];
      receiptOut, originals, receiptIn, notifications := map[], [], map[], map[];
    }

    function View(): Node
      reads this, inner
    {
      Node(inner.View(), members, outbound, inbound, conflicts, acks, receiptOut, originals, receiptIn, notifications)
    }

    ghost predicate Valid()
      reads this, inner
    {
      I.NodeInv(View(), identity, registry)
    }

    // ------------------------------------------------------------ notifications

    method InsertNotification(intent: Intent, note: Notification) returns (inserted: bool)
      modifies this`notifications
      ensures inserted == (intent !in old(notifications)) && notifications == Notify(old(notifications), intent, note)
    {
      inserted := intent !in notifications;
      if inserted {
        notifications := notifications[intent := note];
      }
    }

    method MarkNotificationHintSent(intent: Intent)
      requires Valid()
      modifies this`notifications
      ensures View() == MarkHintSent(old(View()), intent)
      ensures Valid() && I.Grows(old(View()), View())
      ensures E.MarksHint(old(View()), intent, View())
    {
      hide I.NodeInv, I.Grows, E.MarksHint;
      E.HintEffect(View(), intent);
      I.MarkHintKeeps(View(), identity, registry, intent);
      I.MarkHintGrows(View(), intent);
      if intent in notifications {
        notifications := notifications[intent := notifications[intent].(hintSent := true)];
      }
    }

    /** One update over the addressee's unacknowledged rows, and its row count. */
    method UpdateHints(intents: set<Intent>, agent: Option<string>) returns (marked: nat)
      modifies this`notifications
      ensures View() == AckHints(old(View()), intents, agent)
      ensures marked == |set i | i in old(notifications) && !old(notifications)[i].acked && notifications[i].acked|
    {
      var hit := set i | i in notifications && !notifications[i].acked && i in intents && notifications[i].agent == agent;
      ghost var before := notifications;
      notifications := map i | i in notifications :: if i in hit then notifications[i].(acked := true) else notifications[i];
      marked := |hit|;
      assert hit == set i | i in before && !before[i].acked && notifications[i].acked;
    }

    method AckNotificationHints(intents: set<Intent>, agent: Option<string>) returns (marked: nat)
      requires Valid()
      modifies this`notifications
      ensures View() == AckHints(old(View()), intents, agent)
      ensures marked == |set i | i in old(notifications) && !old(notifications)[i].acked && notifications[i].acked|
      ensures Valid() && I.Grows(old(View()), View())
      ensures E.AcksHints(old(View()), intents, agent, View())
    {
      hide I.NodeInv, I.Grows, E.AcksHints, AckHints;
      E.AckHintsEffect(View(), intents, agent);
      I.AckHintsKeeps(View(), identity, registry, intents, agent);
      I.AckHintsGrows(View(), intents, agent);
      marked := UpdateHints(intents, agent);
    }

    // ----------------------------------------------------------------- outbound

    method EnqueueOutbound(row: Outbound, cap: nat) returns (r: Enqueued)
      requires Valid()
      modifies this`outbound
      ensures (View(), r) == Enqueue(old(View()), row, cap)
      ensures I.Grows(old(View()), View())
      ensures I.OutRowOk(row.signed.event.eventId, row, identity) && row.status.Pending? ==> Valid()
      ensures E.Enqueues(old(View()), row, cap, View(), r)
    {
      hide I.NodeInv, I.Grows, E.Enqueues;
      E.EnqueueEffect(View(), row, cap);
      I.EnqueueGrows(View(), row, cap);
      if I.OutRowOk(row.signed.event.eventId, row, identity) && row.status.Pending? {
        I.EnqueueKeeps(View(), identity, registry, row, cap);
      }
      var e := row.signed.event.eventId;
      if e in outbound {
        return Existing;
      }
      var pending := set x | x in outbound && outbound[x].status.Pending?;
      if |pending| >= cap {
        return OutboxFull;
      }
      outbound := outbound[e := row];
      return Queued;
    }

    method MarkSent(e: string)
      requires Valid()
      modifies this`outbound
      ensures View() == MarkOutboundSent(old(View()), e)
      ensures Valid() && I.Grows(old(View()), View())
      ensures E.MarksSent(old(View()), e, View())
    {
      hide I.NodeInv, I.Grows, E.MarksSent;
      E.SentEffect(View(), e);
      I.MarkOutboundSentKeeps(View(), identity, registry, e);
      I.MarkOutboundSentGrows(View(), e);
      if e in outbound && outbound[e].status.Pending? {
        outbound := outbound[e := outbound[e].(status := Sent, attempts := outbound[e].attempts + 1, lastError := None)];
      }
    }

    method MarkRetry(e: string, attempts: nat, at: string, error: string)
      requires Valid()
      modifies this`outbound
      ensures View() == MarkOutboundRetry(old(View()), e, attempts, at, error)
      ensures Valid() && I.Grows(old(View()), View())
      ensures E.MarksRetry(old(View()), e, attempts, at, error, View())
    {
      hide I.NodeInv, I.Grows, E.MarksRetry;
      E.RetryEffect(View(), e, attempts, at, error);
      I.MarkOutboundRetryKeeps(View(), identity, registry, e, attempts, at, error);
      I.MarkOutboundRetryGrows(View(), e, attempts, at, error);
      if e in outbound && outbound[e].status.Pending? {
        outbound := outbound[e := outbound[e].(attempts := attempts, nextRetryAt := Some(at), lastError := Some(error))];
      }
    }

    method FailPermanent(e: string, error: string)
      requires Valid()
      modifies this`outbound, this`notifications
      ensures View() == FailOutbound(old(View()), e, error)
      ensures Valid() && I.Grows(old(View()), View())
      ensures old(OutPending(View(), e)) ==>
                SendFailedIntent(e) !in old(notifications) && SendFailedIntent(e) in notifications
                && notifications[SendFailedIntent(e)] == Notification("send_failed", Some(old(outbound)[e].sourceLocal), e, false, false)
      ensures E.Fails(old(View()), e, error, View())
    {
      hide I.NodeInv, I.Grows, E.Fails;
      E.FailEffect(View(), e, error);
      I.FailOutboundKeeps(View(), identity, registry, e, error);
      I.FailOutboundGrows(View(), e, error);
      if OutPending(View(), e) { I.FailureIsNotified(View(), identity, registry, e, error); }
      if e in outbound && outbound[e].status.Pending? {
        var row := outbound[e];
        outbound := outbound[e := row.(status := FailedPermanent, attempts := row.attempts + 1, lastError := Some(error))];
        var _ := InsertNotification(row.notifyIntent, Notification("send_failed", Some(row.sourceLocal), e, false, false));
      }
    }

    // ------------------------------------------------------------------ inbound

    /** UNIQUE(origin, event_id). */
    method InsertInbound(k: InKey, row: Inbound) returns (ok: bool)
      modifies this`inbound
      ensures ok == (k !in old(inbound)) && inbound == if ok then old(inbound)[k := row] else old(inbound)
    {
      ok := k !in inbound;
      if ok {
        inbound := inbound[k := row];
      }
    }

    /** UNIQUE(event_id) and UNIQUE(source, seq). */
    method InsertLocal(r: L.Request, n: int, now: nat) returns (ok: bool)
      modifies inner`events
      ensures ok == (!L.HasId(old(inner.events), r.eventId) && !L.HasSeq(old(inner.events), r.source, n))
      ensures inner.events == if ok then old(inner.events) + [L.NewEvent(r, n, now)] else old(inner.events)
    {
      ok := !L.HasId(inner.events, r.eventId) && !L.HasSeq(inner.events, r.source, n);
      if ok {
        inner.events := inner.events + [L.NewEvent(r, n, now)];
      }
    }

    /** What a verified event carries into the receive transaction. */
    ghost predicate Verified(s: SignedEvent, sig: Signature, regKey: Key) {
      && ValidEvent(s) && s.event.target.family == identity.family && s.origin in registry
      && regKey == registry[s.origin].key && Verifies(regKey, EventDoc(s), sig)
    }

    /** Row, counter and local event in one transaction, rolled back when a constraint refuses one of them. Because
        counters bound the stored sequence numbers, only the two id constraints can. */
    method TryReceive(s: SignedEvent, sig: Signature, regKey: Key, now: nat) returns (ok: bool)
      requires IsEventType(s.event.kind) && L.CountersBound(inner.events, inner.counters)
      modifies this`inbound, inner
      ensures ok == (KeyOf(s) !in old(inbound) && !L.HasId(old(inner.events), s.event.eventId))
      ensures inbound == if ok then old(inbound)[KeyOf(s) := NewInbound(s, sig, regKey)] else old(inbound)
      ensures inner.View() == if ok then L.Commit(old(inner.View()), LocalRequest(s), now) else old(inner.View())
    {
      var local := LocalRequest(s);
      L.AutomaticSeqIsFree(inner.View(), local.source);
      var savedInbound, savedCounters := inbound, inner.counters;
      ok := InsertInbound(KeyOf(s), NewInbound(s, sig, regKey));
      if ok {
        var n := inner.TakeSeq(local.source);
        ok := InsertLocal(local, n, now);
        assert inner.counters == L.Raised(savedCounters, local.source, n);
        if !ok {
          inbound := savedInbound;
          inner.counters := savedCounters;
        }
      }
    }

    /** The refusal of the insert tells the cases apart. */
    method StoreOrClassify(s: SignedEvent, sig: Signature, regKey: Key, now: nat) returns (r: Received)
      requires IsEventType(s.event.kind) && L.CountersBound(inner.events, inner.counters)
      modifies this`inbound, this`conflicts, inner
      ensures (View(), r) == Receive(old(View()), s, sig, regKey, now)
    {
      var k := KeyOf(s);
      var ok := TryReceive(s, sig, regKey, now);
      if ok {
        return StoredIn;
      }
      if k in inbound && inbound[k].event == s.event {
        return DuplicateIn;
      }
      var reason := if k in inbound then SameIdDifferentContent else LocalEventIdCollision;
      conflicts := conflicts + [Conflict(k, s.event, sig, reason)];
      return ConflictIn(reason);
    }

    method ReceiveEvent(s: SignedEvent, sig: Signature, regKey: Key, now: nat) returns (r: Received)
      requires Valid() && IsEventType(s.event.kind)
      modifies this`inbound, this`conflicts, inner
      ensures (View(), r) == Receive(old(View()), s, sig, regKey, now)
      ensures I.Grows(old(View()), View())
      ensures Verified(s, sig, regKey) ==> Valid()
      ensures E.Receives(old(View()), s, sig, regKey, now, View(), r)
    {
      hide I.NodeInv, I.Grows, E.Receives, Receive, ValidEvent, Verifies;
      I.LedgerHolds(View(), identity, registry);
      I.ReceiveGrows(View(), s, sig, regKey, now);
      E.ReceiveEffect(View(), s, sig, regKey, now);
      if Verified(s, sig, regKey) { I.ReceiveKeeps(View(), identity, registry, s, sig, now); }
      r := StoreOrClassify(s, sig, regKey, now);
    }

    method GetInbound(e: string) returns (k: Option<InKey>)
      ensures k.Some? ==> k.value in inbound && k.value.eventId == e
      ensures k.None? ==> !IsInbound(View(), e)
    {
      var rows := set x | x in inbound && x.eventId == e;
      if rows == {} {
        assert forall x :: x in inbound && x.eventId == e ==> x in rows;
        k := None;
      } else {
        var x :| x in rows;
        k := Some(x);
      }
    }

    method MarkRowDelivered(k: InKey)
      requires Valid()
      modifies this`inbound
      ensures View() == MarkDelivered(old(View()), k)
      ensures Valid() && I.Grows(old(View()), View())
      ensures E.MarksDelivered(old(View()), k, View())
    {
      hide I.NodeInv, I.Grows, E.MarksDelivered;
      E.DeliveredEffect(View(), k);
      I.MarkDeliveredKeeps(View(), identity, registry, k);
      I.MarkDeliveredGrows(View(), k);
      if k in inbound {
        inbound := inbound[k := inbound[k].(delivered := true)];
      }
    }

    // --------------------------------------------------------------------- acks

    /** The ack and the receipt intent commit together; a repeated ack refreshes only the ack. */
    method AckWithReceiptIntent(k: InKey, ackType: string, at: string)
      requires Valid() && k in inbound
      modifies this`acks, this`receiptOut
      ensures View() == AckWithReceipt(old(View()), identity, k, ackType, at)
      ensures I.Grows(old(View()), View())
      ensures IsAckType(ackType) && IsTimestamp(at) ==> Valid()
      ensures E.AcksFederated(old(View()), identity, k, ackType, at, View())
    {
      hide I.NodeInv, I.Grows, E.AcksFederated;
      hide IsTimestamp, IsAckType;
      E.AckEffect(View(), identity, k, ackType, at);
      I.AckWithReceiptGrows(View(), identity, k, ackType, at);
      if IsAckType(ackType) && IsTimestamp(at) { I.AckWithReceiptKeeps(View(), identity, registry, k, ackType, at); }
      var row := inbound[k];
      acks := acks[AckKey(k.eventId, row.target.agent, ackType) := at];
      var rk := ReceiptKey(k.eventId, row.target, ackType);
      if rk !in receiptOut {
        receiptOut := receiptOut[rk := ReceiptOut(at, k.origin, Sha256(row.sig), identity.family, identity.keyId,
                                                  None, Pending, 0, None, None)];
      }
    }

    method MaterializeReceipt(k: ReceiptKey, original: ReceiptOriginal) returns (changed: bool)
      requires Valid()
      modifies this`receiptOut
      ensures View() == Materialize(old(View()), k, original)
      ensures changed == (ReceiptPending(old(View()), k) && old(receiptOut)[k].original.None?)
      ensures I.Grows(old(View()), View())
      ensures k in receiptOut && original == ComposeReceipt(identity, k, old(receiptOut)[k]) ==> Valid()
      ensures E.Materializes(old(View()), k, original, View())
    {
      hide I.NodeInv, I.Grows, E.Materializes;
      E.MaterializeEffect(View(), k, original);
      I.MaterializeGrows(View(), k, original);
      if k in receiptOut && original == ComposeReceipt(identity, k, receiptOut[k]) { I.MaterializeKeeps(View(), identity, registry, k); }
      changed := k in receiptOut && receiptOut[k].status.Pending? && receiptOut[k].original.None?;
      if changed {
        receiptOut := receiptOut[k := receiptOut[k].(original := Some(original))];
      }
    }

    method MarkReceiptRowSent(k: ReceiptKey)
      requires Valid()
      modifies this`receiptOut
      ensures View() == MarkReceiptSent(old(View()), k)
      ensures Valid() && I.Grows(old(View()), View())
      ensures E.MarksReceiptSent(old(View()), k, View())
    {
      hide I.NodeInv, I.Grows, E.MarksReceiptSent;
      E.ReceiptSentEffect(View(), k);
      I.MarkReceiptSentKeeps(View(), identity, registry, k);
      I.MarkReceiptSentGrows(View(), k);
      if k in receiptOut && receiptOut[k].status.Pending? {
        receiptOut := receiptOut[k := receiptOut[k].(status := Sent, attempts := receiptOut[k].attempts + 1, lastError := None)];
      }
    }

    method MarkReceiptRowRetry(k: ReceiptKey, attempts: nat, at: string, error: string)
      requires Valid()
      modifies this`receiptOut
      ensures View() == MarkReceiptRetry(old(View()), k, attempts, at, error)
      ensures Valid() && I.Grows(old(View()), View())
      ensures E.MarksReceiptRetry(old(View()), k, attempts, at, error, View())
    {
      hide I.NodeInv, I.Grows, E.MarksReceiptRetry;
      E.ReceiptRetryEffect(View(), k, attempts, at, error);
      I.MarkReceiptRetryKeeps(View(), identity, registry, k, attempts, at, error);
      I.MarkReceiptRetryGrows(View(), k, attempts, at, error);
      if k in receiptOut && receiptOut[k].status.Pending? {
        receiptOut := receiptOut[k := receiptOut[k].(attempts := attempts, nextRetryAt := Some(at), lastError := Some(error))];
      }
    }

    method FailReceiptPermanent(k: ReceiptKey, error: string)
      requires Valid()
      modifies this`receiptOut, this`notifications
      ensures View() == FailReceipt(old(View()), k, error)
      ensures Valid() && I.Grows(old(View()), View())
      ensures E.FailsReceipt(old(View()), k, error, View())
    {
      hide I.NodeInv, I.Grows, E.FailsReceipt;
      E.FailReceiptEffect(View(), k, error);
      I.FailReceiptKeeps(View(), identity, registry, k, error);
      I.FailReceiptGrows(View(), k, error);
      if k in receiptOut && receiptOut[k].status.Pending? {
        var row := receiptOut[k];
        receiptOut := receiptOut[k := row.(status := FailedPermanent, attempts := row.attempts + 1, lastError := Some(error))];
        var _ := InsertNotification(ReceiptFailedIntent(k), Notification("receipt_send_failed", None, k.eventId, false, false));
      }
    }

    /** Insert-or-ignore of the original, do-nothing-on-conflict of the merged row, one notification. */
    method InsertReceipt(k: ReceiptKey, signed: SignedReceipt, sig: Signature, notifyAgent: string) returns (stored: bool)
      modifies this`originals, this`receiptIn, this`notifications
      ensures (View(), stored) == RecordReceipt(old(View()), k, signed, sig, notifyAgent)
    {
      var variant := HasOriginal(originals, k);
      stored := !HasSigned(originals, k, sig);
      if stored {
        originals := originals + [Original(k, signed.issuer, signed, sig, variant)];
        assert originals[|originals| - 1].key == k;
      }
      var originalId := IdOf(originals, k, sig);
      if k !in receiptIn {
        receiptIn := receiptIn[k := originalId];
      }
      if stored {
        var _ := InsertNotification(ReceiptIntent(k), Notification("receipt_received", Some(notifyAgent), k.eventId, false, false));
      }
    }

    /** The first original of a key is notified, a later one is not. */
    method RecordReceiptIn(k: ReceiptKey, signed: SignedReceipt, sig: Signature, notifyAgent: string) returns (stored: bool)
      requires Valid()
      modifies this`originals, this`receiptIn, this`notifications
      ensures (View(), stored) == RecordReceipt(old(View()), k, signed, sig, notifyAgent)
      ensures I.Grows(old(View()), View())
      ensures old(I.OriginalOk(Original(k, signed.issuer, signed, sig, HasOriginal(originals, k)), outbound, identity, registry)) ==> Valid()
      ensures ValidKey(k) ==>
                if k in old(receiptIn) then notifications == old(notifications)
                else ReceiptIntent(k) !in old(notifications) && ReceiptIntent(k) in notifications
      ensures E.Records(old(View()), k, signed, sig, notifyAgent, View(), stored)
    {
      hide I.NodeInv, I.Grows, E.Records, I.OriginalOk, ValidKey, RecordReceipt;
      E.RecordEffect(View(), k, signed, sig, notifyAgent);
      I.RecordGrows(View(), k, signed, sig, notifyAgent);
      if ValidKey(k) { I.FirstReceiptIsNotified(View(), identity, registry, k, signed, sig, notifyAgent); }
      if I.OriginalOk(Original(k, signed.issuer, signed, sig, HasOriginal(originals, k)), outbound, identity, registry) {
        I.RecordReceiptKeeps(View(), identity, registry, k, signed, sig, notifyAgent);
      }
      stored := InsertReceipt(k, signed, sig, notifyAgent);
    }

    // ---------------------------------------------------------------- endpoints

    /** The checks of the inbox, in their order. */
    method VetEvent(env: Envelope, gates: Gates) returns (refusal: Option<Answer>)
      ensures refusal == InboxRefusal(View(), identity, registry, env, gates)
      ensures refusal.None? ==> Vetted(identity, registry, env) && env.event.event.target.agent in members
      ensures E.AnswersInbox(View(), identity, registry, env, gates, refusal)
    {
      E.InboxEffect(View(), identity, registry, env, gates);
      if !gates.conn {
        return Some(Rejected(429, "rate_limited_conn"));
      }
      if BodySize(env) > REQUEST_BODY_LIMIT {
        return Some(Rejected(413, "body_too_large"));
      }
      if !env.EventEnvelope? || !ValidEvent(env.event) {
        return Some(Rejected(400, "schema"));
      }
      var s := env.event;
      if !Registered(registry, s.origin, s.keyId) {
        return Some(Rejected(403, "unregistered_key"));
      }
      if !Verifies(registry[s.origin].key, EventDoc(s), env.sig) {
        return Some(Rejected(403, "signature"));
      }
      if !gates.family {
        return Some(Rejected(429, "rate_limited_family"));
      }
      if s.event.target.family != identity.family {
        return Some(Rejected(422, "target_family"));
      }
      if s.event.target.agent !in members {
        return Some(Rejected(422, "target_member"));
      }
      return None;
    }

    /** The rest of the inbox; other requests may have run since the checks. */
    method StoreEvent(env: Envelope, now: nat) returns (answer: Answer)
      requires Valid() && Vetted(identity, registry, env)
      modifies this`inbound, this`conflicts, inner
      ensures var (n, r) := StoreVetted(old(View()), registry, env, now); View() == n && answer == StoreAnswer(r)
      ensures Valid() && I.Grows(old(View()), View())
      ensures E.AnswersStore(old(View()), env.event, env.sig, registry[env.event.origin].key, now, View(), answer)
    {
      hide I.NodeInv, I.Grows, E.Receives;
      var r := ReceiveEvent(env.event, env.sig, registry[env.event.origin].key, now);
      match r {
        case StoredIn => answer := Ok(false);
        case DuplicateIn => answer := Ok(true);
        case ConflictIn(_) => answer := ConflictAnswer;
      }
    }

    /** Both, with nothing in between. */
    method FederationInbox(env: Envelope, gates: Gates, now: nat) returns (answer: Answer)
      requires Valid()
      modifies this`inbound, this`conflicts, inner
      ensures (View(), answer) == HandleInbox(old(View()), identity, registry, env, gates, now)
      ensures Valid() && I.Grows(old(View()), View())
    {
      hide I.NodeInv, I.Grows;
      I.Reflexive(View());
      var refusal := VetEvent(env, gates);
      if refusal.Some? {
        return refusal.value;
      }
      answer := StoreEvent(env, now);
    }

    method FederationReceipts(env: Envelope, gates: Gates) returns (answer: Answer)
      requires Valid()
      modifies this`originals, this`receiptIn, this`notifications
      ensures (View(), answer) == HandleReceipts(old(View()), identity, registry, env, gates)
      ensures Valid() && I.Grows(old(View()), View())
      ensures E.AnswersReceipt(old(View()), identity, registry, env, gates, View(), answer)
    {
      hide I.NodeInv, I.Grows, E.AnswersReceipt, I.OriginalOk, ValidReceipt, ValidKey, Verifies, BodySize, RecordReceipt;
      E.ReceiptsEffect(View(), identity, registry, env, gates);
      I.HandleReceiptsKeeps(View(), identity, registry, env, gates);
      I.HandleReceiptsGrows(View(), identity, registry, env, gates);
      if !gates.conn {
        return Rejected(429, "rate_limited_conn");
      }
      if BodySize(env) > REQUEST_BODY_LIMIT {
        return Rejected(413, "body_too_large");
      }
      if !env.ReceiptEnvelope? || !ValidReceipt(env.receipt) {
        return Rejected(400, "schema");
      }
      var s, rc := env.receipt, env.receipt.receipt;
      if rc.eventId !in outbound {
        return Rejected(403, "unknown_event");
      }
      var out := outbound[rc.eventId];
      if rc.origin != identity.family {
        return Rejected(403, "origin_mismatch");
      }
      if s.issuer != out.signed.event.target.family {
        return Rejected(403, "issuer_not_target_family");
      }
      if !Registered(registry, s.issuer, s.keyId) {
        return Rejected(403, "unregistered_key");
      }
      if !Verifies(registry[s.issuer].key, ReceiptDoc(s), env.sig) {
        return Rejected(403, "signature");
      }
      if !gates.family {
        return Rejected(429, "rate_limited_family");
      }
      if rc.sigHash != Sha256(out.sig) {
        return Rejected(403, "hash_mismatch");
      }
      if rc.agent != out.signed.event.target {
        return Rejected(403, "agent_mismatch");
      }
      var stored := RecordReceiptIn(ReceiptKey(rc.eventId, rc.agent, rc.ackType), s, env.sig, out.sourceLocal);
      return Ok(!stored);
    }

    /** The ack endpoint after its lookup by id alone, whose answer may be old. With no row found, and in the
        operator's command, it is the local ack. */
    method Ack(found: Option<InKey>, a: AckKey, at: string) returns (answer: AckAnswer)
      requires Valid()
      requires found.Some? ==> found.value in inbound && found.value.eventId == a.eventId
      modifies this`acks, this`receiptOut
      ensures (View(), answer) == WriteAck(old(View()), identity, found, a, at)
      ensures I.Grows(old(View()), View())
      ensures IsTimestamp(at) ==> Valid()
      ensures E.AnswersAck(old(View()), identity, found, a, at, View(), answer)
    {
      hide I.NodeInv, I.Grows, E.AnswersAck;
      E.WriteAckEffect(View(), identity, found, a, at);
      I.WriteAckGrows(View(), identity, found, a, at);
      if IsTimestamp(at) { I.WriteAckKeeps(View(), identity, registry, found, a, at); }
      if found.Some? {
        if a.agent != inbound[found.value].target.agent {
          return NotRecipient;
        }
        if !IsAckType(a.ackType) {
          return BadAckType;
        }
        AckWithReceiptIntent(found.value, a.ackType, at);
        return Acked;
      }
      if !IsAckType(a.ackType) {
        return BadAckType;
      }
      if !L.HasId(inner.events, a.eventId) {
        return UnknownEvent;
      }
      acks := acks[a := at];
      return Acked;
    }

    method FederationSend(q: SendRequest, createdAt: string, cap: nat) returns (answer: SendAnswer)
      requires Valid() && ForeignFamily(identity, q.target).Some?
      modifies this`outbound
      ensures (View(), answer) == HandleSend(old(View()), identity, registry, q, createdAt, cap)
      ensures Valid() && I.Grows(old(View()), View())
      ensures answer.Accepted? ==>
                q.eventId in outbound && SameIntent(outbound[q.eventId], q) && answer.status == outbound[q.eventId].status
      ensures E.AnswersSend(old(View()), identity, registry, q, ParseAddress(q.target).value, createdAt, cap, View(), answer)
    {
      hide I.NodeInv, I.Grows, E.AnswersSend, ValidEvent, IsEventType, IsUuid, ParseAddress, AddressText;
      E.SendEffect(View(), identity, registry, q, createdAt, cap);
      I.HandleSendKeeps(View(), identity, registry, q, createdAt, cap);
      I.HandleSendGrows(View(), identity, registry, q, createdAt, cap);
      I.SendIsFaithful(View(), identity, registry, q, createdAt, cap);
      if ForeignFamily(identity, q.target).value !in registry {
        return BadRequest("unregistered family");
      }
      if !IsEventType(q.kind) {
        return BadRequest("type");
      }
      if q.inReplyTo.Some? {
        if q.kind != "reply" {
          return BadRequest("in_reply_to requires reply");
        }
        if !IsUuid(q.inReplyTo.value) {
          return BadRequest("in_reply_to");
        }
      }
      if !IsUuid(q.eventId) {
        return BadRequest("event_id");
      }
      if '@' in q.source {
        return BadRequest("source");
      }
      var signed := ComposeEvent(identity, q, ParseAddress(q.target).value, createdAt);
      if !ValidEvent(signed) {
        return BadRequest("envelope");
      }
      var r := EnqueueOutbound(NewOutbound(identity, q.source, signed), cap);
      if r == OutboxFull {
        return TooMany;
      }
      var row := outbound[q.eventId];
      if r == Existing && !SameIntent(row, q) {
        return EventIdTaken;
      }
      return Accepted(row.status);
    }
  }
}
