# Verified model of the bus

The repository is a local message bus. A broker keeps a durable queue, a name registry and a
tamper-evident audit log; adapters register under a name, send and broadcast signed envelopes,
consume what they receive and acknowledge it. This project models that system in Dafny and proves
what it promises: nothing accepted is lost, a message is confirmed only after its recipient
consumed it or another message under its id, each sender's messages are consumed in order unless
refused, and repeats are suppressed. Where a promise is broader than what the code does, a concrete
run shows it and the exact condition is proved.

## How it is laid out

| layer | modules | what it holds |
|---|---|---|
| values | `Options`, `Envelopes`, `Order` | shared data types, sorted listings |
| queue | `Store` | the durable tables as functions, and the store object refining them |
| broker | `Broker` | the broker as a state machine: handshakes, routed frames, lost links, restarts |
| broker results | `BrokerSafety`, `BrokerHistory`, `BrokerOrigins`, `BrokerNames`, `BrokerEntry`, `BrokerGrowth`, `BrokerAcks` | invariants and theorems over every run of the broker |
| broker objects | `Server` | peer connections, registry and server as objects updated in place, each method equal to a step of `Broker` |
| bus | `Bus`, `BusSafety`, `BusOrder`, `BusOnce`, `BusSession` | one broker with any number of adapter processes, and the end-to-end delivery theorems |
| witnesses | `BrokerWitnesses`, `BusWitnesses` | concrete runs that show what is not promised |
| dedupe | `Recency`, `Redelivery`, `Dedupe` | the cache as a recency list with its history theorems, refusals included, and as a linked ring with an index |
| adapter | `Adapter`, `EndToEnd` | surfacing, the host's buffer, and delivery of signed messages |
| wire | `Json`, `JsonValues`, `JsonAccepts`, `Wire`, `Hmac`, `SignedForm` | scanner, compaction and quoting; JSON values and their texts, which the scanner accepts exactly; canonical and wire forms, as text and as objects; signing |
| audit | `Audit`, `AuditEvents` | the hash chain, and the broker's events stored in it |
| stdio | `Mcp` | the reader for mixed line and Content-Length framing |

`Broker.Apply` is one step and `Broker.Run` a run; `Bus.Play` and `Bus.PlayAll` are the same for
the whole bus. The environment chooses every step: which link accepts writes, how many frames of a
flush get through, which acknowledgements are written, lost or read, when a process or the broker
restarts. A handshake and a routed frame are each one atomic step. A connection is the list of
frames written to it, of which the other end reads a prefix. The state carries history variables
(what was written to each connection, what each host consumed) that no step reads.

Rows hold decoded envelopes. `Wire.MarshalRoundTrip` is what justifies this: what is stored reads
back as the same envelope with its body compacted, and the signed form does not change.

## Findings

- The wire protocol document says a broadcast is never backfilled to a peer that registers later.
  `BrokerOrigins.NoBackfill` gives the exact condition: the later peer gets a copy if and only if
  the same broadcast id is routed again while that peer is registered. The broker keys duplicates
  by row, so a broadcast repeated under its old id reaches the newcomers; `BrokerWitnesses.LateCopy`
  is such a run.
- The canonical form is documented as carrying the body verbatim. The code compacts insignificant
  white space and rewrites `<`, `>`, `&`, U+2028 and U+2029 as escapes; the model follows the code.
  `Json.VerbatimIff` says exactly which bodies are carried verbatim, and `Json.LessThanIsRewritten`
  is one that is not. Compaction is idempotent, so signatures still verify after any number of hops.
- Changing the last audit row is unnoticed if and only if its hash is recomputed to match
  (`Audit.LastRowTampering`); any earlier change is found, or exhibits a collision
  (`Audit.TamperingIsFound`).
- A message its host once refused is redelivered only at the next reconnect, after later ones of its
  sender: `BusWitnesses.RefusedComesLate`. That is the only way order is lost: over every run, a
  message consumed out of its sender's order is one that host had refused
  (`BusOrder.ConsumedInSenderOrder`). Both handlers in the repository always succeed.
- The broker takes an acknowledgement of any row from any connection: a row is acked if and only if
  some serving connection acknowledged its key while it was there (`BrokerAcks.RunAcks`), and
  `BrokerWitnesses.ForeignAcknowledgement` has a stranger ack a message never written to anyone.
  That a row is acked only after consumption is a theorem about peers that run this adapter.
- Two rows of one peer may carry one envelope id: a broadcast copy is keyed by id and recipient, so
  it can repeat the id of a direct message. The second is suppressed as a repeat and acked unconsumed:
  `BusWitnesses.SuppressedIsAcked`. So an acked row's own envelope was handed to its host, or that of
  another row of the peer with the same id was (`BusSafety.NoLossAckAfterConsume`); for an id no
  other row of the peer carries it was its own (`BusSafety.AckedOnlyAfterHanded`).

## Model

| member | source | states |
|---|---|---|
| BusSafety.NoLossAckAfterConsume | internal/adapter/reconnect.go:200-219 | over every run of the bus: an accepted row is never lost or altered; it is acked only once its own verified envelope was handed to its recipient's host, or that of another row of the peer with the same envelope id; and it is in the drain after the next requeue as long as it is not both delivered and acked |
| BusSafety.AckedOnlyAfterHanded | internal/adapter/reconnect.go:200-219 | over every run, a row whose envelope id no other row of its peer carries is acked only after its own verified envelope was handed to its recipient's host |
| BusWitnesses.SuppressedIsAcked | internal/adapter/reconnect.go:189-206 | a run in which a direct message and a broadcast share an id: the copy is acked though its envelope was never handed to the host |
| BusSafety.PlayHonest | internal/adapter/reconnect.go:189-219 | every move keeps the bus invariant: cached ids are ids handed over, every ack in flight names a verified row whose id was handed over, both ends of each connection agree |
| BusSafety.ReceiveHonest | internal/adapter/client.go:322-368 | reading one frame, whatever the handler and the ack write do, keeps that invariant |
| BusSafety.RouteNextHonest | internal/broker/router.go:288-322 | the broker routing the next frame of any connection keeps it |
| BusSafety.ConnectHonest | internal/adapter/reconnect.go:145-180 | connecting and registering, heard or not, keeps it |
| BusSafety.PlayAllEvolves | internal/store/store.go:146-223 | over every run rows keep sender, recipient, envelope and number, confirmations stand and sequence counters never go back |
| BusOrder.ConsumedInSenderOrder | internal/broker/server.go:306-344 | over every run, across drops, takeovers, restarts, refusals and redelivery, a process consumes each sender's messages, each id counted once, in increasing acceptance order, except that a message its host had refused may come late |
| BusOrder.NothingOvertaken | internal/broker/router.go:91-124 | when a process reads a message it neither consumed nor refused before, every row named by its earlier first consumptions from the same sender was accepted earlier |
| BusWitnesses.RefusedComesLate | internal/adapter/reconnect.go:207-213 | a run in which the first of two messages is refused, the second consumed, and the first consumed after a reconnect: consumed order 1, 0 |
| BusOnce.ConsumedAgainOnlyBeyondWindow | internal/adapter/dedupe.go:39-92 | over every run, a process consumes one id twice only with at least max distinct other ids surfaced in between; its consumptions and refusals are exactly what the dedupe list makes of its surfacings |
| BusOnce.AtMostOnceWithinBound | internal/adapter/dedupe.go:39-92 | so a process consumes each id at most once for as long as the ids addressed to its peer fit its cache |
| BusSession.SessionClearsBacklog | internal/broker/server.go:251-344 | from every reachable state, a handshake, a full flush, surfacing of every frame and arrival of its acks leave unsettled exactly the peer's rows whose envelope fails verification; all others are consumed and acked and no requeue brings them back |
| BusSession.HandshakeCatchesUp | internal/broker/server.go:205-280 | a completed handshake leaves every row of the peer delivered, and acked unless it was written to this connection |
| BusSession.FlushComplete | internal/broker/server.go:306-344 | a flush the link accepts writes each pending row once, in drain order, and marks all of them delivered |
| EndToEnd.SignedMessageArrives | internal/adapter/client.go:217-250 | in any run: a process sends a message signed under its recipient's secret, the broker later reads that frame and accepts it, anything follows; the recipient's next fault-free session settles exactly this message, and hands it over unless another row of the peer with its id was |
| EndToEnd.QueuedMessageArrives | internal/hmac/hmac.go:93-107 | in every honest state a queued signed message, direct or broadcast copy, is settled by the recipient's next fault-free session and handed over on the same terms |
| BrokerSafety.ApplySafe | internal/broker/router.go:91-322 | every broker step keeps the invariant: numbering, bound names known and live, frames faithful to their rows, sender order and no gaps on every connection |
| BrokerSafety.EveryRunIsFifo | internal/broker/router.go:91-124 | on every connection of every run, frames carry the envelope of a row of that peer, leave in acceptance order per sender, and none overtakes an earlier outstanding row |
| BrokerSafety.WelcomedKeeps | internal/broker/server.go:251-262 | after requeue the drain is exactly the rows a new connection still has to be given, in order, with nothing disturbed on other connections |
| BrokerSafety.DrainIsRemaining | internal/store/store.go:225-271 | the drain after a requeue lists each unsettled row of the peer and no other, sender by sender in acceptance order |
| BrokerSafety.FlushKeeps | internal/broker/server.go:306-344 | a flush cut off anywhere leaves the broker safe, with the connection either complete or broken |
| BrokerHistory.RunFollows | internal/broker/router.go:64-84 | from any state and over every run, the audit log stays in step with the queue and no accepted message is lost |
| BrokerHistory.AuditReplaysToQueue | internal/broker/router.go:64-124 | replaying the log of any run from empty rebuilds each row's sender, recipient, number, attempts and acked flag, and each sender's count of sends is its next number |
| BrokerOrigins.BroadcastReachesExactlyTheRegistered | internal/broker/router.go:212-254 | a broadcast with a fresh id adds exactly one row per name registered at that moment other than its sender, all with the untouched envelope, numbered consecutively in name order |
| BrokerOrigins.FanOutExact | internal/broker/router.go:230-254 | the fan-out loop adds those rows and no others and leaves every earlier row as it was |
| BrokerOrigins.SubmitAddsOne | internal/broker/router.go:164-192 | accepting one copy adds one row with the next number of its sender; a duplicate or an unknown recipient adds nothing |
| BrokerOrigins.RunOrigin | internal/broker/router.go:143-254 | a row is there after a run if and only if it was there before or some step routed an envelope addressed to it in the state of that moment |
| BrokerOrigins.KeysDoNotClash | internal/adapter/generic.go:199-203 | for ids without a vertical bar, copy keys are distinct from each other and from direct keys |
| BrokerOrigins.NoBackfill | internal/broker/router.go:194-254 | a name without a copy of a broadcast gets one later if and only if that id is routed again while the name is registered |
| BrokerAcks.RunAcks | internal/broker/router.go:260-269 | over every run, a row is acked if and only if it was before or some step routed an acknowledgement of its key from a serving connection, of whatever name, while the row was there |
| BrokerWitnesses.ForeignAcknowledgement | internal/broker/router.go:256-269 | a run in which a third peer acks a message that was never written to any connection |
| BrokerWitnesses.LateCopy | internal/broker/router.go:212-254 | a run in which a peer that joined after a broadcast gets a copy when its id is routed again |
| BrokerEntry.BoundIff | internal/broker/server.go:186-262 | after a handshake the new connection is bound to a name if and only if the hello is a register frame of version v1 for that non-empty name under a valid non-empty token, the name is free or held under that token, and the acknowledgement is written; other names stay as they were |
| BrokerEntry.VerdictIs | internal/broker/server.go:189-262 | which verdict each hello gets, by its content: the first check that fails |
| BrokerEntry.RefusedChangesNothing | internal/broker/server.go:189-245 | a handshake turned away before its name is bound leaves names, messages, log and other connections alone |
| BrokerEntry.DepartureReleases | internal/broker/server.go:173-177 | when the connection bound to a name ends, the name is free, every other binding stands, the connection serves no more, and queue and log are untouched |
| BrokerEntry.FreeNameIsAdmitted | internal/broker/registry.go:66-95 | after that, a register frame for the name under any valid token is admitted with nobody taken over |
| BrokerEntry.UnboundDeparture | internal/broker/registry.go:86-95 | a connection that holds no name stops serving and changes no binding |
| BrokerEntry.RestartForgets | internal/broker/registry.go:44-53 | a restart forgets every binding and connection and keeps queue and log |
| BrokerNames.ListedNamesAreKnown | internal/broker/server.go:215-236 | in every reachable state a bound name has a durable peer row, so no send to it is refused as unknown, and it is held under a valid token by a live connection of that name |
| BrokerNames.BindingStepHolds | internal/broker/registry.go:59-95 | what each step may do to a binding: who may unbind it, that a takeover keeps the token and closes the old connection, that only an admitted handshake binds |
| BrokerNames.StaleRemoveIsHarmless | internal/broker/registry.go:86-95 | however many steps after its takeover a superseded connection notices, its removal evicts nobody |
| BrokerNames.TakenOverNeverBoundAgain | internal/broker/server.go:105-124 | a taken-over connection is not bound to any name in any continuation |
| BrokerNames.TokenChangesOnlyThroughRelease | internal/broker/registry.go:66-95 | if a name's token differs later, some step released the name while it still had its token: its then-bound connection removed itself, the broker restarted, or a handshake under that token lost its acknowledgement |
| Store.PerformAllKeeps | internal/store/store.go:146-300 | over any sequence of table operations each sender's rows are numbered 0 to next-1 without repeats, nothing is lost or altered, and delivered-and-acked is absorbing |
| Store.EnqueuedNumbered | internal/store/store.go:158-223 | an enqueue keeps the numbering; a duplicate id, a missing field or an unknown recipient changes nothing |
| Store.OutcomeIs | internal/store/store.go:158-201 | a message is accepted if and only if id, sender and recipient are there, the recipient is known and the id is new; otherwise the error is that of the first check that fails |
| Store.DrainIsFifo | internal/store/store.go:225-271 | the drain holds exactly the recipient's undelivered rows, each once, sender by sender in acceptance order |
| Store.RequeuedSplits | internal/store/store.go:410-445 | after a requeue the peer's pending rows are exactly its unsettled ones, and a second requeue finds nothing |
| Store.DurableStore.Close | internal/store/store.go:97-105 | closes the store and leaves its contents |
| Store.DurableStore.Enqueue | internal/store/store.go:158-223 | the outcome, checked in the source's order, and the whole new contents |
| Store.DurableStore.PendingFor | internal/store/store.go:233-271 | the rows read out are the drain, or the error for a closed store or an unknown peer |
| Store.DurableStore.MarkDelivered | internal/store/store.go:276-287 | marks the row and counts the attempt, and nothing else; an unknown id changes nothing |
| Store.DurableStore.MarkAcked | internal/store/store.go:291-300 | marks the row acked and nothing else |
| Store.DurableStore.RequeueUnacked | internal/store/store.go:423-445 | returns to pending the peer's delivered unacked rows, and their number |
| Store.DurableStore.Register | internal/store/store.go:119-135 | adds the peer once; an empty name is refused |
| Server.Registry.Bind | internal/broker/registry.go:66-84 | same token displaces and closes the old connection, another token changes nothing, a free name is bound |
| Server.Registry.Remove | internal/broker/registry.go:89-95 | unbinds only when the name is still bound to this very connection |
| Server.Registry.List | internal/broker/registry.go:110-119 | the bound names, each once, ascending |
| Server.Server.PushFrame | internal/broker/router.go:99-124 | write, then mark delivered and audit only on success: the state machine's push |
| Server.Server.SubmitCopy | internal/broker/router.go:164-192 | persist, audit the send, try to deliver: the state machine's submit |
| Server.Server.RouteBroadcast | internal/broker/router.go:212-254 | the loop over registered names performs the state machine's fan-out |
| Server.Server.RouteEnvelope | internal/broker/router.go:143-155 | a broadcast kind with another target, or the reverse, is dropped; otherwise direct or broadcast routing |
| Server.Server.HandleAck | internal/broker/router.go:260-269 | an empty id is dropped; any other is marked and audited, known or not |
| Server.Server.RouteFrame | internal/broker/router.go:288-322 | one frame read from a serving connection performs exactly the state machine's route step |
| Server.Server.FlushPending | internal/broker/server.go:306-344 | the loop writes the pending rows in drain order and stops at the first failed write |
| Server.Server.Handshake | internal/broker/server.go:186-280 | register, bind, requeue, acknowledge, flush, in this order, perform exactly the state machine's handshake with its verdict |
| Server.Server.Hangup | internal/broker/server.go:127-137 | when the serve loop ends the connection is closed: the state machine's hang-up |
| Server.Server.Leave | internal/broker/server.go:173-177 | the closed connection then removes itself from the registry if it is still bound |
| Recency.BoundedIsPrefix | internal/adapter/dedupe.go:75-92 | for every history of sightings and forgets the bounded list is a prefix of the unbounded one |
| Recency.HeldWasPresented | internal/adapter/dedupe.go:75-92 | no false positives: a held id was presented and has not been forgotten since |
| Recency.MissedOnlyBeyondWindow | internal/adapter/dedupe.go:39-92 | an unforgotten id is reported new again only after at least max distinct other ids |
| Recency.HeldExactly | internal/adapter/dedupe.go:75-92 | with nothing forgotten, an id is held if and only if fewer than max distinct other ids came since its last sighting |
| Dedupe.DedupeCache.Seen | internal/adapter/dedupe.go:75-92 | on the ring and index: reports whether id was held, moves it to the front or pushes it and evicts the last; every link, index entry and the bound are kept |
| Dedupe.DedupeCache.Forget | internal/adapter/reconnect.go:261-268 | deletes exactly that id, and keeps ring, index and bound in agreement |
| Dedupe.DedupeCache.Len | internal/adapter/dedupe.go:96-100 | the number of ids held, never above max |
| Dedupe.DedupeCache.constructor | internal/adapter/dedupe.go:59-68 | an empty cache; a size that is not positive becomes the default |
| Dedupe.List.MoveToFront | internal/adapter/dedupe.go:79-82 | relinking keeps the ring intact and moves one element behind the sentinel |
| Dedupe.IndexedCut | internal/adapter/reconnect.go:261-268 | cutting an element out of ring and index removes its id from the recency list and keeps them in agreement |
| Adapter.ResumingClient.Surface | internal/adapter/reconnect.go:200-219 | a repeat is acked without being handled, a refused message is forgotten and not acked, a consumed one is acked after: the bus model's surfacing step |
| Adapter.ResumingClient.Pump | internal/adapter/client.go:345-367 | a frame without a delivery key or whose envelope fails verification under the client's secret is dropped with its error and changes nothing; any other is surfaced, with what that does to the process, its acks and its host |
| Adapter.ResumingClient.ReadFrame | internal/adapter/reconnect.go:225-256 | where frames are checked under each peer's secret, one turn of the loop has exactly the effect of the bus model's receiving move on the process, on the acks written and on what was handed over |
| Redelivery.ConsumedTwiceOnlyBeyondWindow | internal/adapter/reconnect.go:189-219 | over any history of deliveries a host consumes one id twice only if at least max other ids were delivered in between, refusals included |
| Adapter.DrainConserves | internal/adapter/generic.go:67-86 | however handling and draining interleave, the batches handed out followed by what is pending are exactly the handled messages in order |
| Adapter.ResumingClient.Drain | internal/adapter/generic.go:136-138 | hands out what is pending, which are the last envelopes consumed; as after every surfacing, all batches followed by what is pending carry id, sender, source and body of exactly the envelopes consumed, in order |
| Adapter.GenericBus.Take | internal/adapter/generic.go:80-86 | hands out everything pending and leaves the buffer empty |
| Json.CompactIdempotent | internal/wire/codec.go:33-57 | compacting a valid text gives a valid text that compaction leaves alone |
| JsonAccepts.ValidIff | internal/wire/codec.go:33-57 | the scanner accepts a text if and only if it is the text of a JSON value (null, true, false, number, string, array, object) with any white space between its tokens |
| JsonAccepts.ValidIsPrint | internal/wire/codec.go:33-57 | from any accepted text such a value and its white space are read back |
| JsonAccepts.PrintIsValid | internal/wire/codec.go:33-57 | the text of any such value is accepted, and its compact form is the text of the same value with no white space and the five characters written as escapes |
| JsonAccepts.NoSpaceOutsideStrings | internal/wire/codec.go:39-43 | compacted text holds white space only inside strings |
| Json.VerbatimIff | internal/wire/codec.go:39-43 | a body is carried verbatim if and only if it is one valid value and none of its characters is skipped or escaped where it stands |
| Json.LessThanIsRewritten | internal/wire/codec.go:70-74 | the string of one less-than sign is a valid body written as its escape |
| Json.EmittedIsStable | internal/wire/codec.go:33-57 | scanning what compaction emitted ends in the same state as scanning the original, and emits it again unchanged |
| Json.ReadQuoted | internal/wire/codec.go:59-68 | reading a quoted string gives back the string, whatever follows it |
| SignedForm.CanonicalIsObject | internal/wire/codec.go:45-93 | the signed form is the text of the JSON object with exactly the eight fields, in that order, and the compact body (null if absent); the frame adds the signature as ninth; there is none if and only if the body is no JSON text |
| SignedForm.SigningIs | internal/hmac/hmac.go:41-62 | signing fails exactly for a secret under 32 bytes or a body that is no JSON text |
| SignedForm.VerifyingIs | internal/hmac/hmac.go:66-88 | the error of a verification, by what is wrong: short secret, missing signature, a signature that is no hex, a body that is no JSON text |
| Wire.CanonicalReadsBack | internal/wire/codec.go:75-93 | the canonical text determines all signed fields and the compacted body |
| Wire.CanonicalInjective | internal/wire/codec.go:75-93 | two envelopes have one canonical text if and only if the seven string fields agree and the bodies agree up to compaction, an absent body counting as null |
| Wire.MarshalRoundTrip | internal/wire/codec.go:33-57 | writing and reading an envelope changes nothing but the compaction of its body; its signed form is unchanged and writing again gives the same text |
| Wire.HopsAreNormal | internal/broker/router.go:165-170 | however many hops an envelope takes, it arrives as it did after the first |
| Wire.HopsKeepCanonical | internal/broker/router.go:100-115 | hops keep the signed form and the signature |
| Hmac.SignedVerifiesAfterHops | internal/hmac/hmac.go:51-88 | an envelope signed with a secret of at least 32 bytes verifies after any number of hops |
| Hmac.HopsKeepVerdict | internal/hmac/hmac.go:66-88 | hops change no verdict, whatever the envelope carries |
| Hmac.VerifiesIffSigned | internal/hmac/hmac.go:66-88 | verification accepts exactly the signature that signing produces, in either hex case |
| Hmac.OneSignatureOneMessage | internal/hmac/hmac.go:66-88 | two envelopes that verify under one signature agree on everything signed, or exhibit two texts with one MAC |
| Hmac.HexDigitsOf | internal/hmac/hmac.go:51-62 | two lower-case digits a byte, the high one first |
| Hmac.DecodesIff | internal/hmac/hmac.go:66-88 | a text is decoded if and only if it is pairs of hex digits of either case |
| Hmac.HexRoundTrip | internal/hmac/hmac.go:51-88 | hex text of twice the length that decodes to the same bytes |
| Audit.Log.Append | internal/audit/audit.go:77-106 | one new row carrying the event verbatim at the next position; an intact chain stays intact |
| Audit.Log.Tamper | internal/store/store.go:402-415 | overwrites event and hash of the row at that position only |
| Audit.Verify | internal/audit/audit.go:131-168 | reports nothing if and only if the whole chain is intact, and otherwise the first breaking row with the check that failed |
| Audit.SameEndSameLog | internal/audit/audit.go:43-58 | two intact chains ending in one hash are equal, or two colliding inputs are returned |
| Audit.TamperingIsFound | internal/audit/audit.go:108-168 | changing event or hash of any row but the last is found at that row or the next, or exhibits a collision |
| Audit.LastRowTampering | internal/audit/audit.go:108-168 | a change to the last row goes unnoticed if and only if its hash was recomputed |
| AuditEvents.DecodeEncode | internal/broker/router.go:52-84 | a stored event reads back, so different events have different texts |
| AuditEvents.EncodeIsObject | internal/broker/router.go:70-79 | what is hashed is the text of the object with the four fields event (send, deliver or ack), id, from and to in that order |
| AuditEvents.SameChainSameQueue | internal/broker/router.go:64-84 | two brokers whose intact chains end in one hash hold the same queue as far as the log tells, or a collision is returned |
| Mcp.Reader.ReadMessage | internal/mcp/server.go:317-347 | one message or error, and in either case exactly the input it used up |
| Mcp.Reader.ReadContentLengthFramed | internal/mcp/server.go:351-378 | headers in any order and case, last length wins, then exactly that many bytes; after an error too, exactly the unread input |
| Mcp.Reader.Serve | internal/mcp/server.go:261-302 | dispatches every non-empty message until the input ends or breaks |
| Mcp.NextMessageConsumes | internal/mcp/server.go:261-302 | each message read uses up input, so the loop ends on finite input |
| Mcp.ReadHeaded | internal/mcp/server.go:351-378 | what comes of a header block with lengths spelled in any letter case, spaces around name and value, other headers and lines anywhere: the last length counts; with none, or a negative one, the input after the empty line is left; a body cut short is used up and told from one not begun |
| Mcp.ReadBadLength | internal/mcp/server.go:362-368 | a length that is no 64-bit integer is reported, and reading stops after its line |
| Mcp.ReadCutBlock | internal/mcp/server.go:353-357 | a header block without its empty line is the end of the input |
| Mcp.ReadLastLine | internal/mcp/server.go:341-346 | a last line without a newline is still a message |
| Mcp.ReadWritten | internal/mcp/server.go:317-378 | reading one frame gives its message and leaves the rest: a line, or a message after any such header block whose last length is its size |
| Mcp.ServeReadsWhatWasWritten | internal/mcp/server.go:317-378 | any mix of these frames with blank lines between is dispatched as exactly its messages in order, then end of input |
| Order.StrLessIff | internal/broker/registry.go:110-119 | names are ordered by prefix or by the first character that differs |
| Order.InOrderUnique | internal/broker/registry.go:110-119 | a set has one ascending listing |
| Order.Insert | internal/broker/registry.go:110-119 | inserting into an ascending listing keeps it ascending |

## Left out

- Transport: WebSocket upgrade, close codes, read limits, pings and contexts; a link is the list of frames written to it, and a failed write ends it for writing.
- Interleaving inside a handshake or inside one routed frame: both are atomic steps, as the per-sender order needs.
- SQLite: SQL text, transactions, migrations, timestamps and the columns that only hold them. Of the store's errors only "closed" and the checks on arguments are modelled.
- A crash or an audit failure between the enqueue and its send event: excluded from the replay theorem.
- Broker restart on the heap: it is a step of the state machine, while the `Server` objects cover one process lifetime.
- Concrete MAC and digest algorithms: parameters, of which only "some output" and "fixed output length" are used, each as a hypothesis. Comparison time is not modelled.
- The JSON decoder beyond texts the repository itself prints: field order, unknown fields, surrogate escapes, replacement of invalid UTF-8, the nesting limit, and a body that is present but empty. Texts are sequences of Unicode scalar values.
- Names compare scalar by scalar, which is the order of their UTF-8 bytes.
- MCP: white space outside ASCII in headers, a length too large to allocate, dispatch of requests, the initialized latch, notifications and tools.
- Peer listings for hosts, self-announcement, backoff timers and jitter, command line and environment configuration, channel banners: no effect on delivery, or easy members.
- Secrecy of tokens and keys.
- Whether a host that refuses every delivery ever consumes: the backlog theorem is about sessions whose handler succeeds.
