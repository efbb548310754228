# A verification model of ATalk

ATalk is a durable message bus: agents send events to a ledger, acknowledge them, and read them back
through crash-safe cursors. A signed federation layer lets families of agents exchange events and receipts
over an unreliable network. This project models the parts of it that are hard to get right and proves what
they promise.

* **Curve and codecs.** `Field`, `Edwards`, `GroupLaw`, `Ed25519`, `PointCodec`: arithmetic modulo a prime p with
  p mod 8 = 5, the twisted Edwards curve -x^2 + y^2 = 1 + d x^2 y^2 and its group law, extended coordinates, point
  decoding and the order of the strict signature checks. `Base64Url`: the bit accumulator. `Json`, `JsonDomain`: the depth
  scans and the domain walk.
* **Ledger.** `Ledger` states one write as a function on the tables; `SqliteStore` and `RaftStore` are the two
  backends, a locked transaction and a list of guarded statements; `LedgerRuns` interleaves both with
  administrators and unlocked pre-reads.
* **Federation.** `FedSchema` holds grammars, documents and notification intents; `FedCanonical` the canonical text of
  documents and bodies; `FedNode` one family's tables and every transaction and endpoint; `FedEffects` what each of them
  does and answers, by the tables before it; `FedInvariant` what each of them keeps; `FedStore` the same transactions in
  place, with failing UNIQUE constraints and rollback; `FedRuns` any number of families on a network that loses, repeats,
  delays and reorders, with crashes and outsiders.
* **Workers and clients.** `HintScan`: the push scan. `Retry` (with `TextOrder`): deadlines as text.
  `DeliveryServer`, `HandlerAdapter`, `InboxDelivery`: cursor delivery across crashes and power losses. `TaskFold`: the
  task ledger fold.
* **Shared.** `Options`: an optional value. `Traces`: chains of steps and how they are extended.

Signatures, digests and name-based UUIDs are constructors of datatypes, so they are injective by construction and no
property of SHA-256, Ed25519 or UUIDs is assumed as an axiom; that a signed text is one document only is proved, in
`FedCanonical.SignedTextDetermines`. Theorems about the curve hold for every `Good` curve: p prime, p mod 8 = 5, d not a
square. A family is *honest* when it runs this code and keeps its key; everybody else is one `Outsider` who may put
anything on the wire that is not signed by an honest key, and anything with a signature already seen there.

Where the code and its documentation differ, the model follows the code:

* Composing an event checks its schema but not the request body limit (atalk/federation/runtime.py:440), so not
  everything composed is accepted: `FedRuns.TransmissionIsAccepted` has the exact condition and
  `FedSchema.ValidButTooLarge` an input that fails it.
* A retry deadline in the last second of the year 9999 is stored early, because rounding up overflows
  (atalk/federation/runtime.py:518-523): `Retry.EarlyExactlyPastTheCeiling` and `Retry.LastSecondExample`.
* The strict base64url decoder rejects the empty text although the encoding of no bytes is empty
  (atalk/federation/canonical.py:233): `Base64Url.DecodeStrict`.
* The replicated ledger binds the time of its guard before the transaction (atalk/raftsql.py:432-448), so a command can
  commit after its grant or token has ended: `LedgerRuns.AuthorizedAtCommitExactly` has the exact condition, judged at
  the clock of the commit, and `LedgerRuns.ExpiredGrantCommits` a run.
* A sequence number that is taken is a constraint error on the locked backend (atalk/core.py:522-528) but a refusal, for a
  command even a grant denial, on the replicated one (atalk/raftsql.py:415-419, 464-471): `RaftStore.RqliteStore.InsertEvent`.
* An ack endpoint looks the event up and writes in two steps, and the operator's command never looks it up
  (atalk/server.py:488-519, atalk/cli.py:201-203), so an agent that is not the addressee can ack a federated event:
  `FedRuns.OtherAgentsAckExactly` says when, `FedRuns.AckOutrunsReceive` is a run. Receipts are not affected:
  `FedRuns.ReceiptIntentExactly`, `FedRuns.ReceiptSoundness`.
* A handler that names its replies by work status and retry count answers one request more than once
  (atalk/adapter.py:568-580): `HandlerAdapter.OneReplyExactly` says when, `HandlerAdapter.WaitingThenComplete` is a run.
* A redelivery that finds its file does not sync the directory (atalk/adapter.py:230-233), so an inbox adapter that died
  between a rename and its sync acks an event that a power loss then takes away: `InboxDelivery.AckedDurablyExactly` says
  when, `InboxDelivery.ReceivedButLost` is a run.

## Model

| member | source | states |
|---|---|---|
| Edwards.Complete | atalk/federation/ed25519strict.py:111-121 | for non-square d the denominators of the affine sum of two curve points are never zero |
| Edwards.SumOnCurve | atalk/federation/ed25519strict.py:111-121 | the affine sum of two curve points is a curve point |
| GroupLaw.Associative | atalk/federation/ed25519strict.py:111-121 | the affine sum of any three curve points does not depend on the order in which it is taken |
| GroupLaw.InverseSum | atalk/federation/ed25519strict.py:111-121 | (-x, y) is on the curve with (x, y) and their sum is (0, 1) |
| GroupLaw.TimesAdds | atalk/federation/ed25519strict.py:129-135 | multiples add up: the (j + k)-fold sum of a point is the sum of its j-fold and its k-fold sum |
| Ed25519.AddKeepsExtended | atalk/federation/ed25519strict.py:111-121 | valid extended coordinates (curve equation, X Y = Z T, Z not 0) go to valid ones, which represent the affine sum |
| Ed25519.AddRepresents | atalk/federation/ed25519strict.py:111-121 | whatever representatives are added, the result represents the affine sum |
| Ed25519.ExtendedIsAffine | atalk/federation/ed25519strict.py:111-121 | the two projective equations with Z not 0 hold exactly for representatives of curve points |
| Ed25519.ScalarMul | atalk/federation/ed25519strict.py:129-135 | the double-and-add loop returns the k-fold sum of the point, whatever its representative, and keeps valid coordinates |
| Ed25519.IdentityTestIsAffine | atalk/federation/ed25519strict.py:124-126 | the identity test depends only on the represented point: true exactly for (0, 1) |
| Ed25519.SmallOrder | atalk/federation/ed25519strict.py:138-140 | true exactly when the eightfold sum of the point is the neutral point |
| PointCodec.SquareRoot | atalk/federation/ed25519strict.py:95-103 | the candidate with its correction is a root of v x^2 = u, and it fails only when no root exists |
| PointCodec.CandidateCases | atalk/federation/ed25519strict.py:95-103 | the two-branch test is exhaustive: if neither branch matches there is no root at all |
| PointCodec.DenominatorNonZero | atalk/federation/ed25519strict.py:96 | d y^2 + 1 is never 0 modulo p |
| PointCodec.Decompress | atalk/federation/ed25519strict.py:88-108 | accepts exactly the encodings of curve points and returns valid coordinates of that point; off-curve exactly when no x fits y |
| PointCodec.DecodeThenEncode | atalk/federation/ed25519strict.py:88-108 | the decoded point re-encodes to the same 32 bytes |
| PointCodec.EncodeThenDecode | atalk/federation/ed25519strict.py:88-108 | every curve point has an encoding that decodes to it |
| PointCodec.DecodingIsInjective | atalk/federation/ed25519strict.py:88-108 | two different accepted encodings never give the same point |
| PointCodec.DecodingIsUnique | atalk/federation/ed25519strict.py:88-108 | one encoding gives one point |
| PointCodec.CheckPoint | atalk/federation/ed25519strict.py:74-79 | passes exactly canonical encodings of points not of small order, and names the right fault otherwise |
| PointCodec.Verify | atalk/federation/ed25519strict.py:66-85 | each verdict holds exactly in its place in the order: lengths, S below the group order, R, A, group equation |
| Base64Url.CanonicalIffEncoding | atalk/federation/canonical.py:211-249 | a row of sextets spelling b shortest with zero spare bits is exactly the encoding of b |
| Base64Url.EncodeInjective | atalk/federation/canonical.py:211-213 | different bytes have different encodings |
| Base64Url.DecodeStrict | atalk/federation/canonical.py:216-249 | returns b exactly when the text is the encoding of non-empty b of the asked length; the length error exactly for encodings of another length |
| Json.DepthPrescan | atalk/federation/canonical.py:66-85 | the loop over the text computes the character scan |
| Json.PrescanIsStructural | atalk/federation/canonical.py:66-85 | for every value and every text spelling it (any space, any escapes) the scan rejects exactly values nested deeper than 64 |
| Json.PostLoadDepthCheck | atalk/federation/canonical.py:103-120 | the stack walk rejects exactly the values nested deeper than 64 |
| JsonDomain.CheckDomain | atalk/federation/canonical.py:141-166 | the explicit-stack walk terminates with the same first fault, category and path as the recursive preorder walk |
| JsonDomain.WalkAcceptsDomain | atalk/federation/canonical.py:141-166 | no fault is found exactly for values inside the domain |
| JsonDomain.WalkFindsFirst | atalk/federation/canonical.py:141-166 | the fault, its category and its path are those of the first faulty key or value in document order, a key before what it holds |
| Ledger.AutomaticSeqIsFree | atalk/core.py:437-445 | a sequence number taken from the counter never collides, because counters bound every stored one |
| Ledger.InsertKeepsValid | atalk/core.py:447-546 | every write keeps ids and sequence numbers unique, counters bounding, one accept row per command; events only grow |
| Ledger.RetryIsIdempotent | atalk/core.py:484-488 | repeating a stored request, at whatever time, changes nothing and answers with the stored event |
| Ledger.KnownRow | atalk/core.py:35-42 | when the id is stored, the answer is the stored event exactly if its source, target and kind are the request's, and a conflict exactly if one of the three differs |
| Ledger.InsertAnswers | atalk/core.py:447-546 | each of the nine answers (no reference, existing, id conflict, token, grant, target, sequence number, stored) holds exactly under its condition on the tables before, and each has exactly its effect: the stored event field by field, counter and accept row; one reject row; or nothing |
| Ledger.AuthorizedIsPermitted | atalk/core.py:421-435 | a request is authorized exactly when, for a command, an unrevoked unexpired token of its source and a grant of its operation or of all with every scope entry in the payload exist, and otherwise when no target list forbids it |
| Ledger.StripTrims | atalk/core.py:422 | the operation is the text between the first and the last character that is no white space |
| SqliteStore.AtalkStore.InsertEvent | atalk/core.py:447-546 | the locked transaction with its rollback is the atomic step; it gives every answer exactly under its condition, with exactly its effect; without an explicit number the sequence constraint never fires |
| SqliteStore.AtalkStore.TakeSeq | atalk/core.py:437-445 | bumps the counter in place and returns the next number |
| RaftStore.GuardImpliesAuthorized | atalk/raftsql.py:421-471 | the in-transaction guard implies authorization at the very state it is evaluated in |
| RaftStore.WriteIsAtomic | atalk/raftsql.py:396-419 | the guarded counter bump and insert both happen or neither does |
| RaftStore.AuditIsAtomic | atalk/raftsql.py:421-471 | the guarded accept row is written exactly when the command was |
| RaftStore.TransactionRefines | atalk/raftsql.py:421-471 | at every state the statement list makes the same single step as the locked write, or changes nothing |
| RaftStore.FiresExactly | atalk/raftsql.py:421-471 | the transaction writes exactly when a token of the source and the very grant that was picked still stand (or no target list forbids it), the id is unused and an explicit sequence number is not taken |
| RaftStore.AloneFires | atalk/raftsql.py:372-419 | with nobody in between, the guarded transaction stores exactly when the locked write does |
| RaftStore.RqliteStore.Transaction | atalk/raftsql.py:396-419 | statements run in order as one transaction |
| RaftStore.RqliteStore.InsertEvent | atalk/raftsql.py:372-471 | run alone, both backends end in the same tables with the same answer for every request, except exactly one whose sequence number is taken, which is refused and, for a command, audited as a grant denial; an existing event is handed out only to its own source, target and kind, and a conflict is answered exactly when the stored row differs in one of them |
| LedgerRuns.StepIsAtomic | atalk/raftsql.py:396-419 | under every interleaving a step commits one authorized event with its counter and audit, or leaves events and accept rows alone |
| LedgerRuns.WritesExactly | atalk/raftsql.py:396-471 | at every state of a run a locked write answers and acts by the tables it finds, and a transaction stores its event with counter and accept row exactly under that condition, else changes nothing |
| LedgerRuns.CommittedWhileAuthorized | atalk/core.py:493-536 | every event of every run was committed by one step at whose own tables its source was authorized (no target list forbade it, or for a command token and grant stood): revocation is judged at the commit, expiry at the step's stamp, which under the locked backend is the clock of the commit |
| LedgerRuns.AuthorizedAtCommitExactly | atalk/raftsql.py:432-448 | a transaction that commits is authorized at its own clock if and only if, for a command, some fitting unrevoked token and some fitting unrevoked grant are unexpired at that clock; fitting unrevoked ones there always are |
| LedgerRuns.AuthorizedUnlessExpired | atalk/raftsql.py:432-448 | where nothing expires between stamp and commit, the commit is authorized by its own clock |
| LedgerRuns.ExpiredGrantCommits | atalk/raftsql.py:432-448 | a run in which a grant that ends at 10 commits a command at 20 |
| LedgerRuns.OneAcceptPerCommand | atalk/core.py:533-536 | in every state a command event has exactly one accept row, other events none |
| LedgerRuns.AnswersAreSound | atalk/raftsql.py:421-471 | a client refused at its read-back never wrote; one answered with an event gets a stored row of its own id, source, target and kind; it is told of a conflict exactly when the row of its id differs in one of the last three |
| FedSchema.ParseAddressIff | atalk/federation/schema.py:96-103 | parsing accepts exactly the texts of grammar-valid addresses and inverts them |
| FedSchema.IsoIsTimestamp | atalk/federation/schema.py:106-113 | the text a node writes for a moment passes the timestamp check and reads back as that second |
| FedSchema.NamesMatch | atalk/federation/schema.py:28-30 | family, agent and key id are exactly the texts that the three patterns match |
| FedSchema.UuidMatches | atalk/federation/schema.py:31 | an event id is exactly a text that the pattern of a lower-case UUID matches |
| FedSchema.TimestampMatches | atalk/federation/schema.py:33 | a timestamp is exactly a text that the fixed-width pattern matches and whose numbers name a second that exists |
| FedSchema.JoinInjective | atalk/federation/store.py:21-24 | joining with ":" is injective on parts without one |
| FedSchema.IntentsAreDistinct | atalk/federation/store.py:21-24 | on grammar-valid parts the three kinds of notification intent are injective and never coincide |
| FedSchema.OnlyEscapesOverflow | atalk/federation/schema.py:18 | valid receipts always fit the body limit, and a valid event exceeds it only through escapes in its text |
| FedSchema.ValidButTooLarge | atalk/federation/runtime.py:440 | an event that composing accepts and every inbox refuses as too large |
| FedCanonical.RenderIsCode | atalk/federation/canonical.py:200-203 | canonical texts of objects and strings are a prefix code: with anything after it, such a text has one reading and one end, so serializing is injective |
| FedCanonical.OrderedIsUnique | atalk/federation/canonical.py:200-203 | objects with the same members in key order are the same text: sorting leaves no choice |
| FedCanonical.BodiesAreOrdered | atalk/federation/canonical.py:200-203 | every signed document and every request body is written with its keys in order, the signature last |
| FedCanonical.SignedTextDetermines | atalk/federation/schema.py:49-51 | two documents, events or receipts, with valid addresses have the same signed text only if they are the same document |
| FedCanonical.BodySizeIsLength | atalk/federation/schema.py:54-57 | the size that the request limit is compared with is the length of the canonical body, escapes included |
| FedEffects.SendEffect | atalk/server.py:763-840 | a send is accepted if and only if the family is registered, the kind is message or reply, a reply link is a UUID on a reply, the id is a UUID, the source has no "@", the composed event fits the schema, and the id is either unused with fewer pending rows than the cap or stored with this very intent; every refusal holds exactly when its own check is the first to fail; only an accepted send with an unused id adds a row, given column by column |
| FedEffects.ReceiveEffect | atalk/federation/store.py:155-242 | each outcome holds exactly by the rows that exist; stored adds the inbound row and one local event for the addressee with the source's next number, a conflict adds one conflict row, a duplicate nothing |
| FedEffects.WriteAckEffect | atalk/server.py:488-519 | each answer of the ack endpoint holds exactly under its condition, and only an acked one writes: ack and receipt intent for a federated event, the local ack otherwise |
| FedEffects.RecordEffect | atalk/federation/store.py:402-461 | a new original is appended, marked a variant exactly when its key had one, merged exactly when the key had no merged row, and only then notified to the sending agent; a known one adds nothing but a missing merged row |
| FedEffects.StageExactly | atalk/federation/store.py:463-474 | applied if an applied receipt is merged, else received if a received one is, else none |
| FedEffects.InboxEffect | atalk/server.py:636-675 | every refusal of the inbox holds exactly when its own check is the first to fail, and none exactly when all pass |
| FedEffects.ReceiptsEffect | atalk/server.py:696-761 | every refusal of the receipt endpoint holds exactly when its own check is the first to fail and changes nothing; an accepted receipt is recorded, and answered as a duplicate exactly when that signed original was there |
| FedInvariant.ReceiveKeeps | atalk/federation/store.py:171-242 | receiving a verified event keeps the whole node invariant |
| FedInvariant.NodeRowOnce | atalk/federation/store.py:184-230 | exactly one local event carries the id of an inbound row, and it is its copy field by field; the row is unique by event id alone |
| FedInvariant.FailureIsNotified | atalk/federation/store.py:120-151 | a permanently failed send is told to the agent that sent it, under an intent not recorded before |
| FedInvariant.FirstReceiptIsNotified | atalk/federation/store.py:402-461 | the first receipt of a key notifies the event's sender; later originals notify nobody |
| FedInvariant.SendIsFaithful | atalk/server.py:800-838 | an accepted send has a row with exactly the caller's intent and its status; a refused one changes nothing |
| FedInvariant.SendRetryIsIdempotent | atalk/server.py:812-838 | repeating an accepted send with any timestamp answers from the stored row and changes nothing |
| FedInvariant.EnqueueKeeps | atalk/federation/store.py:41-84 | enqueueing keeps the node invariant |
| FedInvariant.FailOutboundKeeps | atalk/federation/store.py:120-151 | a permanent failure and its notification keep the node invariant |
| FedInvariant.AckWithReceiptKeeps | atalk/federation/store.py:280-325 | an ack and its receipt intent keep the node invariant |
| FedInvariant.WriteAckKeeps | atalk/server.py:488-519 | whatever the lookup answered, and however old its answer is, the write after it keeps the node invariant |
| FedInvariant.MaterializeKeeps | atalk/federation/store.py:340-350 | persisting the signed receipt built from the fixed fields keeps the node invariant |
| FedInvariant.FailReceiptKeeps | atalk/federation/store.py:368-398 | a permanent receipt failure and its notification keep the node invariant |
| FedInvariant.RecordReceiptKeeps | atalk/federation/store.py:402-461 | original, merged row and notification together keep the node invariant |
| FedInvariant.RecordKnown | atalk/federation/store.py:402-461 | a redelivered original changes nothing at all |
| FedInvariant.NotificationAccounting | atalk/federation/store.py:491-506 | notifications equal merged receipts plus failed sends plus failed receipts |
| FedStore.FederationStore.EnqueueOutbound | atalk/federation/store.py:41-84 | in place: existing, full or queued, each exactly by the rows and the cap over pending ones; a well-formed row keeps the node invariant, and nothing stored is removed or rewritten |
| FedStore.FederationStore.MarkSent | atalk/federation/store.py:104-110 | in place: a pending row becomes sent with one more attempt and no error, all else unchanged; any other is left alone; the node invariant is kept |
| FedStore.FederationStore.MarkRetry | atalk/federation/store.py:112-118 | in place: a pending row gets exactly the attempts, deadline and error given and stays pending; the node invariant is kept |
| FedStore.FederationStore.FailPermanent | atalk/federation/store.py:120-151 | in place: a pending row becomes failed with one more attempt and the error, and its sending agent gets one notification under an intent not recorded before; all else unchanged, and the node invariant is kept |
| FedStore.FederationStore.TryReceive | atalk/federation/store.py:171-218 | in place with failing UNIQUE inserts and rollback: stored exactly when neither the inbound key nor the local id exists; the (source, seq) constraint never decides |
| FedStore.FederationStore.ReceiveEvent | atalk/federation/store.py:155-242 | in place: each of the four outcomes exactly by the rows that exist; stored adds the inbound row and one local event for the addressee, a conflict one conflict row, a duplicate nothing; a verified event keeps the node invariant |
| FedStore.FederationStore.MarkRowDelivered | atalk/federation/store.py:266-270 | in place: only the delivery mark of that row changes; the node invariant is kept |
| FedStore.FederationStore.AckWithReceiptIntent | atalk/federation/store.py:280-325 | in place: the ack is refreshed; the receipt intent is written once, with the digest of the stored signature and the time of this first ack; the node invariant is kept and no earlier intent is rewritten |
| FedStore.FederationStore.MaterializeReceipt | atalk/federation/store.py:340-350 | in place: an original is persisted exactly on a pending row without one; the one composed from the row's fixed fields, in this family's name and under its key, keeps the node invariant |
| FedStore.FederationStore.MarkReceiptRowSent | atalk/federation/store.py:352-358 | in place: a pending receipt becomes sent with one more attempt, no error and its original kept; any other is left alone; the node invariant is kept |
| FedStore.FederationStore.MarkReceiptRowRetry | atalk/federation/store.py:360-366 | in place: a pending receipt gets exactly the attempts, deadline and error given, with its original kept; the node invariant is kept |
| FedStore.FederationStore.FailReceiptPermanent | atalk/federation/store.py:368-398 | in place: a pending receipt becomes failed and the operator gets one notification; all else unchanged, and the node invariant is kept |
| FedStore.FederationStore.RecordReceiptIn | atalk/federation/store.py:402-461 | in place: a new original is appended, a variant exactly when its key had one; the first of a key is merged and notified to the sending agent, a known one adds nothing; a verified receipt keeps the node invariant and no merged row is rewritten |
| FedStore.FederationStore.MarkNotificationHintSent | atalk/federation/store.py:535-547 | in place: only the hint mark of that row changes; the node invariant is kept |
| FedStore.FederationStore.AckNotificationHints | atalk/federation/store.py:566-584 | in place: exactly the named rows addressed to that agent are marked, and those newly marked are counted; the node invariant is kept |
| FedStore.FederationStore.VetEvent | atalk/server.py:636-675 | each refusal exactly when its own check is the first to fail; what passes is within the limits, signed by its registered origin and addressed to a local member |
| FedStore.FederationStore.StoreEvent | atalk/server.py:678-694 | a request that passed its checks at any earlier time is stored, a duplicate or a conflict, and keeps the node invariant |
| FedStore.FederationStore.FederationInbox | atalk/server.py:636-694 | each refusal exactly when its own check is the first to fail, else the outcome of the receive transaction; the node invariant is kept and nothing is removed |
| FedStore.FederationStore.FederationReceipts | atalk/server.py:696-761 | each refusal exactly when its own check is the first to fail, else the receipt is recorded, with the duplicate mark exactly for a known original; whatever arrives, the node invariant is kept and nothing is removed |
| FedStore.FederationStore.GetInbound | atalk/server.py:493-494 | the lookup by event id alone finds a row exactly when some origin has one |
| FedStore.FederationStore.Ack | atalk/server.py:495-519 | the write after a lookup whose answer may be old: each answer exactly under its condition; with a row only its addressee acks, with a receipt intent; without one it is the local ack; the node invariant is kept |
| FedStore.FederationStore.FederationSend | atalk/server.py:763-840 | which sends are accepted, and each refusal, exactly by the request and the tables before; only an accepted send with an unused id adds a row; the node invariant is kept |
| FedRuns.StepKeepsInv | atalk/federation/runtime.py:588-636 | every step of any node, its operator, a request handler between its reads and its write, the network or an outsider keeps the world invariant |
| FedRuns.StepExactly | atalk/federation/runtime.py:588-636 | every step does to its own node what its transaction does, puts on the wire and answers exactly what it should, and leaves every other node alone |
| FedRuns.ReceiptSoundness | atalk/server.py:696-761 | in every state of every run, a stage received or applied at the sender means the receiver holds that ack by the addressed agent on a byte-identical original |
| FedRuns.AcksAreWritten | atalk/server.py:488-519 | a node holds an ack exactly when some step of the run wrote it |
| FedRuns.OtherAgentsAckExactly | atalk/server.py:493-519 | an ack by somebody else than the addressee sits on a federated event if and only if it was written without the inbound row, directly or after a lookup that found none |
| FedRuns.LookupWasEarlier | atalk/server.py:493-494 | a pending ack without a row was looked up while its event was not in the inbound table |
| FedRuns.ReceiptIntentExactly | atalk/server.py:495-515 | a receipt intent exists if and only if its addressee's ack was written after a lookup that found the event |
| FedRuns.AckOutrunsReceive | atalk/server.py:493-519 | a run in which an agent that is not the addressee looks up, the event is received, and its ack is written: it stands beside the inbound row without a receipt intent |
| FedRuns.SentMeansStored | atalk/federation/runtime.py:588-608 | a row marked sent means the target family holds the identical event, then and ever after |
| FedRuns.SentExactly | atalk/federation/runtime.py:588-608 | in every run a row is sent if and only if a success answer to its transmission was taken |
| FedRuns.FailedExactly | atalk/federation/runtime.py:588-648 | in every run a row has failed for good if and only if the worker gave it up while it was pending |
| FedRuns.ReceiptSentExactly | atalk/federation/runtime.py:612-636 | in every run a receipt is sent if and only if a success answer to its transmission was taken |
| FedRuns.CanDeliver | atalk/federation/runtime.py:588-608 | from any reachable state a pending event whose target knows sender and addressee, whose body fits and whose id is no local event's can still be sent and stored |
| FedRuns.CanAcknowledge | atalk/federation/runtime.py:612-636 | from any reachable state a signed pending receipt between families that know each other can still be sent and its stage merged at the sender |
| FedRuns.EndedRowsStay | atalk/federation/store.py:104-151 | no row leaves sent or failed_permanent and its envelope never changes |
| FedRuns.TransmissionsCarryFirstBytes | atalk/federation/runtime.py:588-608 | every transmission, before or after restarts, carries the envelope of the first commit |
| FedRuns.ExactlyOnce | atalk/federation/store.py:171-242 | in every state an event id has at most one inbound row and exactly one local event |
| FedRuns.RunAccounting | atalk/federation/store.py:368-506 | the notification count holds in every state of every run |
| FedRuns.StageIsMonotone | atalk/federation/store.py:463-474 | over a run the merged stage never goes down |
| FedRuns.FirstOriginalStays | atalk/federation/store.py:421-448 | over a run a merged receipt keeps pointing at the same original, the lowest of its key and the only one that is not a variant, however many follow |
| FedRuns.VettedIsStored | atalk/server.py:636-694 | however long a vetted request of an honest sender waits, it is then stored or a duplicate unless a local event took its id; it never meets different content |
| FedRuns.TransmissionIsAccepted | atalk/server.py:636-694 | an honest transmission is stored or a duplicate except exactly when its body is too large or its id is a local event's; it never meets different content |
| FedRuns.ReceiptIsAccepted | atalk/server.py:696-761 | every receipt an honest receiver issues passes all the sender's checks |
| HintScan.SelectPage | atalk/federation/store.py:508-533 | a page is exactly the first pending agent rows beyond the cursor in key order |
| HintScan.Worker.HintNotifications | atalk/federation/runtime.py:677-707 | a cycle examines the first 5000 rows that await a hint, or all of them, in key order, marks exactly those whose recipient took it, counts them, and leaves the cursor at the last one, or at the start after the end |
| HintScan.CycleExactly | atalk/federation/runtime.py:677-707 | which rows a cycle examines and marks, how many it counts and where its cursor ends, stated row by row |
| HintScan.PagesJoin | atalk/federation/runtime.py:693-706 | a page after a full scan extends it without gap or overlap |
| HintScan.CycleProgress | atalk/federation/runtime.py:677-707 | each cycle examines a pending row or brings its turn a cycle nearer |
| HintScan.WaitShrinks | atalk/federation/runtime.py:677-707 | rows that leave between cycles never delay one that stays |
| HintScan.EveryRowIsExamined | atalk/federation/runtime.py:677-707 | from any cursor a row that stays pending is examined within 2*floor(N/5000)+2 cycles |
| Retry.TextOrderIsTimeOrder | atalk/federation/store.py:97-102 | text order of fixed-width UTC timestamps is the order of time in seconds |
| Retry.StoredBounds | atalk/federation/runtime.py:497-524 | the stored deadline is at or after the exact one and less than a second later, or the last second where it cannot be |
| Retry.NeverEarly | atalk/federation/store.py:333-338 | a row comes due only once time has reached its deadline, and at most a second later |
| Retry.EarlyExactlyPastTheCeiling | atalk/federation/runtime.py:513-524 | a row never comes due early if and only if its deadline is at or before the last representable whole second |
| Retry.LastSecondExample | atalk/federation/runtime.py:518-523 | a representable deadline that is stored half a second early |
| Retry.OrdinaryNeverEarly | atalk/federation/runtime.py:508-524 | the ordinary backoff is never early either |
| Retry.OrdinaryDelayGrows | atalk/federation/runtime.py:508-511 | the ordinary delay lies between the capped base and the cap and never shrinks with more attempts |
| Retry.OrdinaryDelayDoubles | atalk/federation/runtime.py:508-511 | the delay starts at the base plus jitter, doubles with each attempt up to the tenth while below the cap, and then stays |
| Retry.BackoffCases | atalk/federation/runtime.py:497-524 | the ordinary backoff raises exactly past the calendar and is else stored within a second after its deadline; a negative Retry-After is none; a row without a deadline is due |
| DeliveryServer.FetchCovers | atalk/core.py:560-580 | a page is in id order and passes over no unapplied event of the agent |
| DeliveryServer.FetchExactly | atalk/core.py:560-580 | a page holds only events for the agent or for everybody that lie beyond the cursor and are not acked as applied; it has as many entries as there are such events, at most 100, and any such event not on it lies behind a full page |
| HandlerAdapter.StepKeepsInv | atalk/adapter.py:182-197 | every micro-step, retry, crash and foreign write keeps: nothing at or below the cursor is lost |
| HandlerAdapter.CrashSafeDelivery | atalk/adapter.py:54-73 | across crashes at any point every event at or below the persisted cursor was handled or already applied |
| HandlerAdapter.ReplyExactly | atalk/adapter.py:568-580 | a reply under a status and retry count exists if and only if some call answered the request with them and nobody else took its id |
| HandlerAdapter.OneReplyPerSuffix | atalk/adapter.py:568-580 | whatever crashes and repeats, one request has at most one reply per status and retry count |
| HandlerAdapter.OneReplyExactly | atalk/adapter.py:568-580 | a request has at most one reply if and only if the calls that answered it agree on status and retry count |
| HandlerAdapter.PlainHandlersReplyOnce | atalk/adapter.py:308-314 | a handler that names its reply by the request alone never replies to it twice |
| HandlerAdapter.WaitingThenComplete | atalk/adapter.py:568-580 | a run in which a request is first kept waiting and then completed by a retry, and has two replies |
| HandlerAdapter.Adapter.RunOnce | atalk/adapter.py:182-197 | with others writing between any two of its steps, the polling round passes only through states of the machine; it handles only events that were not applied when fetched, acks as applied exactly what the handler names, and unless a handler raises processes the whole page |
| InboxDelivery.StepKeepsInv | atalk/adapter.py:227-266 | every micro-step of adapter and command line, crashes of either, and power losses keep the file invariant |
| InboxDelivery.CrashSafeInbox | atalk/adapter.py:285-292 | across process crashes, an event at or below the cursor and a received one has a file in exactly one of pending and applied unless it was applied before; a file in applied has its ack |
| InboxDelivery.UnsyncedExactly | atalk/adapter.py:227-251 | a visible file is not yet durable if and only if no directory sync and no power loss came after its rename |
| InboxDelivery.LossTakesExactlyUnsynced | atalk/adapter.py:227-251 | the next power loss can take a visible file away if and only if it is unsynced |
| InboxDelivery.AckedDurablyExactly | atalk/adapter.py:285-292 | a received ack is given for a durable file if and only if a directory sync came after its rename; where none did, the adapter that renamed it died before its sync |
| InboxDelivery.PowerSafeInbox | atalk/adapter.py:227-251 | across power losses too, unless an adapter dies between a rename and its sync: what was received or lies at or below the cursor has a durable file or was applied |
| InboxDelivery.ReceivedButLost | atalk/adapter.py:230-233 | a run in which a received event below the cursor has no file and was not applied |
| InboxDelivery.FilesStay | atalk/adapter.py:260-268 | a durable file never disappears, whatever crashes or fails, and never leaves applied |
| InboxDelivery.Inbox.RunOnce | atalk/adapter.py:285-292 | the inbox round is a run of the machine over the whole page: only events not applied when fetched get a file, each of them durable and acked as received |
| InboxDelivery.Inbox.Command | atalk/inbox.py:43-72 | apply and reply act only on a pending file: reply, not marked automatic, then ack, then move and sync; the file ends durably in applied, and reply, ack and files are exactly these |
| TaskFold.Fold | tools/tasklib.py:38-145 | the loop over the sorted log computes the fold, which the effects below state operation by operation |
| TaskFold.OthersAreIgnored | tools/tasklib.py:40-46 | a later event without a task id or with an unknown operation changes nothing |
| TaskFold.CreateOpens | tools/tasklib.py:47-64 | create opens a new task with the fields given, or leaves an unopened one with an anomaly; a second one is an anomaly |
| TaskFold.OutsideIsRefused | tools/tasklib.py:65-73 | any other operation before a valid create or after the end adds one anomaly and nothing else |
| TaskFold.AcceptEffect | tools/tasklib.py:75-82 | accept by the assignee from pending makes it accepted and enters the history; otherwise one anomaly |
| TaskFold.StartEffect | tools/tasklib.py:83-89 | start from accepted or waiting makes it in progress and clears the reason; otherwise one anomaly |
| TaskFold.BlockEffect | tools/tasklib.py:90-96 | block from accepted or in progress makes it waiting with the reason given; otherwise one anomaly |
| TaskFold.UpdateEffect | tools/tasklib.py:97-101 | update sets exactly the named ones of four fields |
| TaskFold.DeliverEffect | tools/tasklib.py:102-107 | deliver sets a non-empty deliverable; otherwise one anomaly |
| TaskFold.VerifyEffect | tools/tasklib.py:108-113 | verify sets a non-empty verification; otherwise one anomaly |
| TaskFold.HandoffEffect | tools/tasklib.py:114-123 | handoff changes the assignee, makes the task pending again and notes both names; without a new one, one anomaly |
| TaskFold.CompleteEffect | tools/tasklib.py:124-134 | complete from in progress with deliverable and verification, given now or before, ends the task with them; otherwise one anomaly |
| TaskFold.FailEffect | tools/tasklib.py:135-141 | fail with a reason ends the task as failed with it; otherwise one anomaly |
| TaskFold.CancelEffect | tools/tasklib.py:142-144 | cancel ends the task, with the reason as note |
| TaskFold.FoldIsOrderFree | tools/tasklib.py:38-41 | logs of the same events with distinct ids fold to the same tasks |
| TaskFold.FoldContinues | tools/tasklib.py:38-41 | a log extended with larger ids continues the fold of the prefix |
| TaskFold.FoldIsLocal | tools/tasklib.py:42-47 | a task depends only on its own events |
| TaskFold.FoldIsLossless | tools/tasklib.py:25-35 | each recognised event lands exactly once in history or anomalies |
| TaskFold.CompletedTookLegalPath | tools/tasklib.py:73-145 | a completed task has deliverable and verification, one create, an accept by its present assignee that no handoff undid, and a start after it that nothing blocks |
| TaskFold.LegalPathCompletes | tools/tasklib.py:73-145 | conversely, a log with create, accept by the assignee, start and complete in this order, with deliverable and verification given on the way and only updates, deliveries and verifications of that task between them, folds to completed |
| TaskFold.EndedTaskStays | tools/tasklib.py:70-73 | after a terminal state later events add anomalies and change nothing else |

## Left out

- Primality of 2^255 - 19 and non-squareness of its d are hypotheses of the curve theorems, not computed; `Edwards.SmallestGoodCurve` shows the hypotheses can be met.
- The group equation checked by the cryptography library is an input of `PointCodec.Verify`.
- The JSON parser of the standard library: texts are related to values by a spelling relation.
- A sender that pads its body with white space has a larger body than the canonical one that `FedSchema.BodySize` measures; it is rejected by the same limit.
- Under a race, a command allowed only by a second matching grant is refused by the replicated backend, because the code guards on the one grant it read; no result says it is stored.
- Duplicate columns of the federation tables (origin, key ids, source and target addresses, timestamps of the rows) are read off the signed document instead of being stored twice.
- The registry of a node is fixed over a run; reloading it after a restart is not modelled. Members, tokens, grants and target lists change at any time.
- The reply to a transmission reaches only the node that sent it, as TLS provides; without that a success answer proves nothing.
- Rate limiters, device tokens, message access lists, backlog limits and the wake hub only decide whether a request goes on; the limiters are inputs of the endpoints.
- A crash inside a transaction is the database's business: each transaction is one step.
- Acks and marks arriving in the middle of a push-scan cycle, and a second cycle run at the same time by an ack request, which shares the scan's cursor without a lock (atalk/server.py:513): cycles here run one after the other, and between them acks and marks are arbitrary.
- Backoff jitter is any number; delays are whole microseconds, so float rounding is not modelled.
- HTTP-date and delta-seconds parsing of Retry-After: the parsed delay is an input.
- The fold's `participants` and `deps` lists, the first of which aliases the event payload and is changed in place; payload values are texts.
- The thread-based OpenClaw path forgets its thread before the applied acks, so eventual acks are not claimed. A retry answers under any status and count at any later time; the task store that chooses them is not modelled.
- InboxDelivery.Inbox.RunOnce: runs with no other process in between, as does `InboxDelivery.Inbox.Command`; the machine interleaves both at every micro-step.
- A rename is on disk whole or not at all, and syncing a directory makes every rename before it durable; a file that a power loss drops between the syncs of the two directories of a move, and a torn cursor file, are not modelled. After a power loss the cursor is any earlier one.
- Migration, both web clients, systemd, command-line parsing, health snapshots and schema migration: input/output or easier forms of the arguments here.
