# Accelio: a verified model of the connection core

Accelio's common layer carries requests, responses, one-way messages, read receipts and credit
acknowledgements between two peers. This project models the parts of it whose correctness depends on
many functions at once, and proves what they promise:

* **Flow control and sequence numbers.** `FlowControl` says what one connection does to its window on
  each send, receive and release; `ConnectionObject` is the connection record whose handlers do exactly
  that in place; `CreditRuns` puts two such peers on FIFO channels and proves, for every run, where every
  byte and message of the advertised queue depth is, and which number every packet carries;
  `Resync` is the receive window over any stream of packets, also after a restart, `OwedCredits` what
  becomes of credits owed; `ConnectionRuns` drives two connection objects against each other, so that this holds of them.
* **Queues, transmission, restart.** `Transmit` is an attempt to send, `XmitLoop` the two-queue loop against
  any transport and when it ends, `QueueOrder` the order of requests
  through submission, transmission, completion, restart and flush, `Reconnect` delivery across any number of
  reconnects, `TxAccounting` the send-queue counters, `MsgList` the pointer structure underneath.
* **Close handshake.** `CloseHandshake` is the state table and every FIN, ACK and completion handler,
  `CloseRuns` two sides closing in any interleaving: safety, reference counts and termination;
  `CloseConnection` is the object the handlers change, driven through any schedule and to its end.
* **Scatter/gather copy.** `ScatterGather` is `memcpyv` over one byte memory.
* **Setup codec.** `Wire`, `SetupCodec` and `SetupBuffer` are the byte-order functions, the messages, and the
  writers and readers on their buffers.
* **Pools and scheduled work.** `TaskPool`, `ObjectPool` and `EventLoop`.

Where the original changes fields, lists or buffers, the model is a class or a method on arrays, and
each method is proved against a function of the old state; the laws about runs are proved about those
functions. `Words` holds the 16- and 64-bit wrap-around, `Sums` totals over sequences.

Some promises do not hold of the code as it stands. Each has an exact condition and a concrete case:

* Message credits are conserved exactly if and only if no credits ack is sent at zero peer credits
  (`MsgsConservedExactly`, `AckCanOverdraw`); always modulo 2^16.
* Repeated requests are suppressed in every run if and only if serial numbers start above 0
  (`NoRepeatsIff`, `ZeroRepeats`).
* A connection takes up the peer's numbering after a restart, for requests and for responses, but the flag
  is shared: once a packet of one kind has used it up, the other kind is taken up if and only if it comes to
  the number expected before (`Resynchronises`, `OtherKindFirst`).
* Credits owed beyond a watermark go out, unless the ack for them waits behind a message that credits do not
  admit, or is dropped with the queue for one too long for the peer (`AckOutcome`, `ReleaseKeepsAckLaw`).
* `memcpyv` succeeds for sources that fit, except when the source fills the destination exactly and has
  more empty entries at its end (`FitsByLength`, `EmptyEntryDoesNotFit`).
* Post-destroy runs exactly once for a connection that its user destroys, or that closes with notification
  off, if and only if it was not destroyed before it was closed; such a destroy is refused after the connection has been taken
  off the registry, and then it is never released (`ReleasedIff`, `EarlyDestroyNeverReleased`).
* Portals and services come back to the client if and only if each is below 2^16 bytes (`AcceptRoundTrip`,
  `LongPortalIsLost`).
* The length guard of the setup answers is exact unless the 16-bit length wraps (`GuardExact`,
  `GuardCanWrap`), refuses the 20 longest REDIRECT messages that would fit (`RedirectGuardExact`), and the
  reader of a REDIRECT stops before the private data (`RedirectRoundTrip`).
* `xio_connection_xmit` ends whatever the transport answers, for ever, if and only if no control message can
  come to the head of a queue (`AlwaysEndsIff`); `NeverEndsIff` says the same answer by answer.
* The byte counter of the send queue is exact and within its depth throughout a run if and only if no
  message was accepted whose length takes it past 64 bits (`CountersAreTotals`, `LongMessageWraps`).

## Model

| member | source | states |
|---|---|---|
| `ConnectionObject.Connection.Send` | src/common/xio_connection.c:286-468 | which of five outcomes a send has for which credits, depth and answer; the number it uses up in any case; what a sent packet carries and what is paid for it; and that an unsent one costs no credits |
| `Transmit.SendMeaning` | src/common/xio_connection.c:302-328 | the same of the function the laws are about, in terms of the fields alone |
| `ConnectionObject.Connection.Charge` | src/common/xio_connection.c:405-433 | numbering and charging: the credits owed ride on the header and are cleared, the message is paid for unless it is a stand-alone receipt |
| `ConnectionObject.Connection.Restore` | src/common/xio_connection.c:442-456 | after a refused send the credits are as before it, the sequence number is not |
| `ConnectionObject.Connection.XmitInl` | src/common/xio_connection.c:774-837 | answer by answer: a busy transport, an empty queue or short credits leave lists and credits alone and raise the retry counter; a failed send costs exactly the head and the call fails; a notified error costs an application message and keeps a control message; a head too long for the peer takes its queue with it |
| `Transmit.AttemptMeaning` | src/common/xio_connection.c:793-825 | the same of the function the laws are about, in terms of the fields alone |
| `ConnectionObject.Connection.Xmit` | src/common/xio_connection.c:842-894 | for every endless sequence of answers on which the loop ends: the attempts made are those of the two queues in turn with those answers, up to exactly the first point where it stops; failure exactly when the last send failed, and when the queue order is swapped |
| `ConnectionObject.Connection.XmitAll` | src/common/xio_connection.c:842-894 | on an accepting transport the loop ends with each queue empty or its head refused by the current credits |
| `XmitLoop.AlwaysEndsIff` | src/common/xio_connection.c:842-894 | the loop ends whatever the transport answers, for ever, if and only if no control message is queued behind only messages that the credits at entry admit |
| `XmitLoop.NeverEndsIff` | src/common/xio_connection.c:800-805 | for a given endless sequence of answers it never ends if and only if it gets to a round from which on every round has a control message at a head answered with a notified error and no send fails |
| `XmitLoop.EndsFrom` | src/common/xio_connection.c:842-894 | it ends from any point after which no control message at a head is answered that way: the queue lengths, then the retry counter, then the place in the round decrease |
| `XmitLoop.NotifiedGoesOn` | src/common/xio_connection.c:800-805 | with every answer a notified error and a control message that can come to a head, no number of attempts stops the loop |
| `XmitLoop.StaysSafe` | src/common/xio_connection.c:793-825 | an attempt never exposes a control message that was not exposed: credits only get less and queues only get shorter |
| `XmitLoop.StopsStuck` | src/common/xio_connection.c:842-894 | where the loop stops on an accepting transport, both queues are stuck |
| `ConnectionObject.Connection.OnReqRecv` | src/common/xio_session.c:602-618 | a request in order moves the window and its credits count; out of order it counts for nothing, except that right after a restart the window goes to behind it; nothing else changes |
| `ConnectionObject.Connection.ReceiveRequest` | src/common/xio_session.c:583-694 | the update, and delivery to the application exactly when the serial number is above the latest delivered one or that is 0 |
| `ConnectionObject.Connection.OnRspRecv` | src/common/xio_session.c:732-748 | the same for a response |
| `ConnectionObject.Connection.OnCreditsAckRecv` | src/common/xio_session.c:967-996 | an ack in order moves the window and its credits count; in any order its own message credit is given back; it does not end a restart |
| `Resync.OneReceived` | src/common/xio_session.c:602-618 | what one packet of either kind does to the window, in order, out of order and after a restart |
| `Resync.InOrder` | src/common/xio_session.c:732-748 | a stream of any length from the expected number on is taken in full, every credit with it |
| `Resync.Resynchronises` | src/common/xio_session.c:611-613 | after a restart a stream that starts anywhere is taken up: from its second packet on all is in order and every credit counts, of the first only the number |
| `Resync.OtherKindFirst` | src/common/xio_session.c:741-744 | the restart flag is shared: after a packet of the other kind a stream is taken up if and only if it comes to the number expected before |
| `Resync.OutOfStep` | src/common/xio_session.c:614-617 | without a restart, packets that never carry the expected number change nothing |
| `ConnectionObject.Connection.SendResponse` | src/common/xio_connection.c:1126-1260 | the request's credits are given back, the response queued, and both queues transmitted until stuck |
| `ConnectionObject.Connection.ReleaseMsg` | src/common/xio_connection.c:1624-1702 | credits given back and both queues transmitted until stuck; afterwards what is owed is below both watermarks, or has gone out on a packet of this call, or its ack is still queued, or the ack went with a queue dropped for a message too long; and nothing is sent when nothing is queued and both totals are below |
| `OwedCredits.ReleaseKeepsAckLaw` | src/common/xio_connection.c:1657-1678 | that law for every state, length and transmission |
| `OwedCredits.ScriptOwed` | src/common/xio_connection.c:421-431 | over any transmission the credits owed stay as they are, or are zero because exactly they rode out on one packet |
| `OwedCredits.AckOutcome` | src/common/xio_connection.c:806-812 | an ack at the end of the request queue goes out, stays, or goes with the queue when a message too long for the peer comes to its head |
| `ConnectionObject.Connection.PutBack` | src/common/xio_connection.c:478-486 | taking in-flight messages off one by one and inserting each before the old head gives in-flight followed by queue |
| `ConnectionObject.Connection.FlushMsgs` | src/common/xio_connection.c:473-528 | both in-flight lists go in front of their queues, and with flow control the counters lose the number and, modulo 2^64, the bytes of the in-flight requests |
| `ConnectionObject.Connection.ReqErrors` | src/common/xio_connection.c:533-558 | reported are the application messages of the queue, in order |
| `ConnectionObject.Connection.RspErrors` | src/common/xio_connection.c:563-589 | reported are exactly the responses that are not stand-alone receipts, in order |
| `ConnectionObject.Connection.NotifyMsgsFlush` | src/common/xio_connection.c:594-603 | both queues are emptied, what they held is reported, the in-flight lists are kept, and the connection is marked as flushed |
| `ConnectionObject.Connection.Restart` | src/common/xio_connection.c:961-993 | in-flight requests back in front, responses reported and none left, the restart flag set, the rest transmitted again as `Xmit` says |
| `CreditRuns.BytesConserved` | src/common/xio_connection.c:302-433 | in every state of every run: spendable + in flight + held + owed + riding back = the depth the receiver advertised, in both directions, so in flight plus held never exceeds it |
| `CreditRuns.SequenceAgreement` | src/common/xio_session.c:602-618 | in every run the k-th numbered packet in flight carries the expected number plus k mod 2^16, the receiver's test never fails, and the acknowledged number is one behind |
| `CreditRuns.MsgsConservedModulo` | src/common/xio_connection.c:408-433 | message credits are conserved modulo 2^16 in every run |
| `CreditRuns.MsgsConservedExactly` | src/common/xio_connection.c:302-307 | they are conserved exactly throughout a run if and only if no ack in it was sent at zero peer credits |
| `CreditRuns.AckCanOverdraw` | src/common/xio_connection.c:427-431 | a run, with queue depths of one message and one byte, in which such an ack leaves its sender with 65535 credits |
| `CreditRuns.XmitExtendsRun` | src/common/xio_connection.c:842-894 | a whole transmission of one side is a sequence of steps of a run |
| `CreditRuns.HandlerExtendsRun` | src/common/xio_connection.c:1126-1260 | a send, response or release together with its transmission extends a run, leaves that side with the record and the packets that `SendResponse` and `ReleaseMsg` promise, takes exactly the answered or released message off what is held, and nothing from the other side |
| `ConnectionRuns.RunPeers` | src/common/xio_session.c:583-996 | two fresh connection objects under any schedule of application calls, transmissions and deliveries: afterwards the byte and message accounts and the sequence numbers of the objects themselves are as the laws of runs say |
| `CreditRuns.StepAccounts` | src/common/xio_connection.c:1228-1239 | what each single step does to the byte and message accounts of both directions |
| `CreditRuns.StepExact` | src/common/xio_connection.c:427-431 | a step keeps the exact message account if and only if it does not send an ack at zero |
| `CreditRuns.HeadIsExpected` | src/common/xio_session.c:978-986 | the packet at the head of a channel carries the number its receiver expects |
| `Transmit.XmitResumed` | src/common/xio_connection.c:842-894 | two transmissions one after the other are one |
| `Transmit.ScriptSendsPrefix` | src/common/xio_connection.c:774-837 | what a transmission sends from a queue is a prefix of it in queue order, its application messages join the in-flight list in that order, and the rest stays unless an oversized head drops it |
| `Transmit.AttemptOnLists` | src/common/xio_connection.c:793-825 | all an attempt can do to its queue and in-flight list, whatever the transport answers; the other queue is untouched |
| `Transmit.AcceptedAttempt` | src/common/xio_connection.c:842-894 | on an accepting transport an attempt sends, or leaves its queue stuck without unsticking the other |
| `QueueOrder.OrderKept` | src/common/xio_connection.c:1040-1104 | in every run application messages in flight followed by those queued are strictly increasing in serial number, and all in flight are the application's |
| `QueueOrder.FlushReportsEach` | src/common/xio_connection.c:473-603 | in every run flush and notify leave all lists empty and report each unfinished application request exactly once in serial-number order |
| `QueueOrder.StepEvolves` | src/common/xio_connection.c:817-825 | what each step does to the pending requests: append, insert a control message, drop one, drop the queue, or nothing |
| `QueueOrder.TryLoses` | src/common/xio_connection.c:793-825 | what an attempt can cost the pending requests: nothing with an accepting or busy transport, at most the head otherwise, all that are queued when the head is too long |
| `Reconnect.DeliveredOnceInOrder` | src/common/xio_session.c:667-681 | across any number of reconnects deliveries are strictly increasing except that serial number 0 may repeat, and no two-way request is overtaken |
| `Reconnect.DeliveredIsPrefix` | src/common/xio_connection.c:961-993 | with serial numbers above 0 the two-way requests delivered are at all times a prefix of those issued |
| `Reconnect.ZeroRepeats` | src/common/xio_session.c:669 | a run from serial number 0 that delivers the same request twice |
| `Reconnect.NoRepeatsIff` | src/common/xio_session.c:667-681 | no run repeats a delivery if and only if serial numbers start above 0 |
| `Reconnect.StepInv` | src/common/xio_connection.c:473-528 | every step, a break and a restart included, keeps each undelivered two-way request owned, above the latest delivered number and due in its turn |
| `TxAccounting.CountersAreTotals` | src/common/xio_connection.c:1041-1093 | throughout a run the byte counter is the total of the unfinished messages and within the depth if and only if no message was accepted whose length takes the counter past 64 bits |
| `TxAccounting.CountersModulo` | src/common/xio_connection.c:1336-1379 | in every run the message counter is the number of accepted unfinished messages, at most one above the depth, and the byte counter their total modulo 2^64 |
| `TxAccounting.LetInIff` | src/common/xio_connection.c:1041-1093 | in every run a message is let in if and only if no more than the depth are unfinished and their total length with it, modulo 2^64, is within the depth in bytes; otherwise nothing changes |
| `TxAccounting.DepthIsPassed` | src/common/xio_connection.c:1041-1042 | for any limits a run with one more message unfinished than the depth |
| `TxAccounting.LongMessageWraps` | src/common/xio_connection.c:1069-1077 | a run in which such a message is accepted and the counter says 5 |
| `TxAccounting.SendCounters.Serve` | src/common/xio_session.c:1015-1042 | any schedule of events on the counters in place: they end up as the number and total of the messages still on the list, and every one-way message has been uncounted once or not yet |
| `TxAccounting.OneWayUncountedOnce` | src/common/xio_session.c:1015-1042 | in every run a one-way message is uncounted exactly once, by its receipt or its completion in whichever order they come, and is then on the in-flight list |
| `MsgList.Head.Init` | src/common/xio_msg_list.h:52-55 | the empty list |
| `MsgList.Head.InsertHead` | src/common/xio_msg_list.h:57-65 | the pointer writes put the element in front and keep every `next`, `prev` and `last` right |
| `MsgList.Head.InsertTail` | src/common/xio_msg_list.h:67-72 | writing through `last` appends |
| `MsgList.Head.InsertAfter` | src/common/xio_msg_list.h:74-82 | insertion behind an element, the last one included |
| `MsgList.Head.InsertBefore` | src/common/xio_msg_list.h:84-89 | insertion before an element without the list head, the first one included |
| `MsgList.Head.Remove` | src/common/xio_msg_list.h:91-98 | removal of any element, the last one included |
| `MsgList.Head.Concat` | src/common/xio_msg_list.h:115-122 | the second list is appended to the first and left empty |
| `MsgList.PutBack` | src/common/xio_connection.c:476-507 | `foreach_safe` with removal and insertion before the old head: the queue becomes in-flight followed by queue, the in-flight list is empty |
| `CloseConnection.ClosingConnection.FlushFins` | src/common/xio_connection.c:533-558 | every queued FIN is dropped, noted as flushed and its references undone, unless disconnected |
| `CloseConnection.RunSchedule` | src/common/xio_connection.c:2666-2846 | two connection objects under any schedule of user calls, deliveries, completions and work: both end up safe, with references counted right, after at most 22 handshake steps |
| `CloseConnection.RunToRest` | src/common/xio_connection.c:2591-2661 | from any state of any run, taking steps as they are due comes to rest; if either side had disconnected, both objects are closed with only their users holding them, and an object is released if and only if it was destroyed, by its user or for them, and not before it was closed |
| `CloseRuns.CloseIsSafe` | src/common/xio_connection.c:64-120 | in every interleaving no FIN, ACK or ACK completion meets an invalid table entry, each side sends at most one FIN and one ACK, and is closed only with its FIN acknowledged and its ACK completed |
| `CloseRuns.CountsHolders` | src/common/xio_connection.c:1771-1837 | in every reachable state the reference count is the user's handle plus FIN completion, awaited ACK, ACK completion and time wait still due; post-destroy has run once if and only if the count is zero, never twice, and no handler is due on a released connection |
| `CloseRuns.HandshakeIsFinite` | src/common/xio_connection.c:2591-2661 | every handshake step lowers a measure that starts at 22, whatever the users do |
| `CloseRuns.CloseCompletes` | src/common/xio_connection.c:2666-2846 | once either side has disconnected a run rests only with both sides closed, and then every reference but the users' own is gone |
| `CloseRuns.ReleasedIff` | src/common/xio_connection.c:2367-2430 | at rest after a disconnect, post-destroy has run exactly once if the user has destroyed the connection or notification is off, and no destroy came before it was closed; and otherwise not at all |
| `CloseRuns.RunAccounted` | src/common/xio_connection.c:2617-2626 | in every run a connection is on the registry until its user destroys it or it closes with notification off, and a user to be notified is told once it is closed, at most once |
| `CloseRuns.DestroyedForever` | src/common/xio_connection.c:2367-2375 | after a destroy a connection is off the registry for ever |
| `CloseRuns.ToldAtRest` | src/common/xio_connection.c:2617-2624 | at rest after a disconnect a user to be notified has been told, or has destroyed the connection |
| `CloseRuns.StrandedIff` | src/common/xio_connection.c:2367-2413 | in every run a connection is off the registry with its user's reference still counted if and only if it was destroyed, while registered, before it was closed |
| `CloseRuns.StrandedForever` | src/common/xio_connection.c:2367-2385 | from then on, whatever happens, it is never released: no later destroy finds it |
| `CloseRuns.EarlyDestroyNeverReleased` | src/common/xio_connection.c:2395-2413 | from any two online connections, a run in which one is destroyed, disconnected, closed on both sides, destroyed again and not released |
| `CloseRuns.GoesToRest` | src/common/xio_connection.c:2591-2661 | every run can be taken on to rest by handshake steps alone |
| `CloseRuns.FlushAndResend` | src/common/xio_connection.c:543-551 | dropping and re-queueing a FIN leaves the references as they were |
| `CloseRuns.RunInv` | src/common/xio_connection.c:2666-2846 | each state of the table says exactly how far the own and the peer's FIN have got, in every run |
| `CloseRuns.UserDisconnects` | src/common/xio_connection.c:1931-1969 | a disconnect by the user, at any time, keeps the meaning of the state and the count of holders |
| `CloseRuns.DisconnectRuns` | src/common/xio_connection.c:1894-1926 | so does the scheduled disconnect, which adds a FIN and three holders on an online connection |
| `CloseRuns.DestroyEarly` | src/common/xio_connection.c:2395-2405 | destroying a connection that is not closed only takes it off the registry |
| `CloseRuns.DestroyClosed` | src/common/xio_connection.c:2395-2430 | destroying a registered closed connection takes it off the registry and drops one reference, and releases it exactly if that was the last |
| `CloseRuns.DestroyMeaning` | src/common/xio_connection.c:2355-2435 | what a destroy does in every state, on every field |
| `CloseRuns.DisconnectMeaning` | src/common/xio_connection.c:1894-1969 | when a disconnect is scheduled, when only noted, and that a late one leaves the connection alone |
| `CloseRuns.TransitTable` | src/common/xio_connection.c:64-120 | in which states a FIN and an ACK are valid, where they lead, and that exactly a valid FIN asks for an ACK |
| `CloseRuns.InvalidIsIgnored` | src/common/xio_connection.c:2666-2846 | what is invalid by the table, or a second ACK, changes nothing; but a first ACK that is invalid still costs its reference |
| `CloseRuns.CloseMeaning` | src/common/xio_connection.c:2591-2661 | entering CLOSED, from any record, leaves nothing queued, and has the user told or the connection taken off the registry |
| `CloseRuns.FlushMeaning` | src/common/xio_connection.c:533-558 | a flush drops every queued FIN and, unless disconnected, undoes two references for each |
| `CloseRuns.FinNoted` | src/common/xio_connection.c:2739-2769 | a FIN comes only in ONLINE, FIN_WAIT_1 or FIN_WAIT_2, for the first time; its net effect, flush and re-send included, is one ACK queued with one reference |
| `CloseRuns.FinCompleted` | src/common/xio_connection.c:2579-2589 | the completion of the FIN releases exactly its own holder |
| `CloseRuns.OtherAckReceived` | src/common/xio_connection.c:2666-2734 | an ACK outside LAST_ACK comes only in FIN_WAIT_1 or CLOSING and keeps the invariant |
| `CloseRuns.LastAckReceived` | src/common/xio_connection.c:2629-2661 | the ACK in LAST_ACK closes and keeps the invariant, notification on or off |
| `CloseRuns.AckCompleted` | src/common/xio_connection.c:2774-2846 | the completion of the ACK comes only in ONLINE, FIN_WAIT_1 or FIN_WAIT_2 and keeps the invariant, on the passive side with the own FIN sent |
| `CloseRuns.TimeWaitEnds` | src/common/xio_connection.c:2591-2627 | the end of the time wait closes, releases its holder and keeps the invariant |
| `ScatterGather.Memcpyv` | src/common/xio_utils.c:294-363 | on buffers that do not alias: non-zero exactly when the source fits; then the entries used, the last one cut, hold the source's bytes, later entries and all other memory are untouched; otherwise the destination holds a prefix of the source; the loop terminates |
| `ScatterGather.FitsByLength` | src/common/xio_utils.c:311-362 | exactly when length alone decides whether a source fits, in particular whenever its last entry is not empty |
| `ScatterGather.EmptyEntryDoesNotFit` | src/common/xio_utils.c:339-360 | a source no longer than the destination for which 0 is returned |
| `ScatterGather.CopyStep` | src/common/xio_utils.c:311-354 | copying within the current entries keeps what is filled equal to what is read |
| `ScatterGather.EndBoth` | src/common/xio_utils.c:339-362 | when both entries end together at the end of a vector, the copy is complete exactly when the source fits |
| `ScatterGather.SourceShorter` | src/common/xio_utils.c:312-325 | the branch that finishes a source entry |
| `ScatterGather.DestinationShorter` | src/common/xio_utils.c:326-338 | the branch that fills a destination entry |
| `ScatterGather.SameLength` | src/common/xio_utils.c:339-353 | the branch where both end together |
| `Wire.ValueOfBigEndian` | src/common/xio_protocol.h:138-145 | reading a number back gives the number, for every width and every number that fits it |
| `Wire.BigEndianOfValue` | src/common/xio_protocol.h:122-129 | writing what was read gives the bytes back, so no two byte strings read the same |
| `Wire.WriteU16` | src/common/xio_protocol.h:122-129 | the bytes at the cursor are the number's, most significant first, and what is before is kept |
| `Wire.ReadU16` | src/common/xio_protocol.h:138-145 | the number the two bytes denote |
| `Wire.WriteU32` | src/common/xio_protocol.h:179-187 | likewise for four bytes |
| `Wire.ReadU32` | src/common/xio_protocol.h:196-205 | likewise |
| `Wire.WriteU64` | src/common/xio_protocol.h:248-260 | likewise for eight bytes |
| `Wire.ReadU64` | src/common/xio_protocol.h:269-282 | likewise |
| `Wire.WriteArray` | src/common/xio_protocol.h:383-388 | the bytes are copied to the cursor |
| `SetupCodec.RequestRoundTrip` | src/common/xio_session_server.c:100-155 | wherever in memory a request is, the server recovers every field and stops exactly at its end |
| `SetupCodec.AcceptRoundTrip` | src/common/xio_session_client.c:318-392 | the client stops exactly at the end of any ACCEPT and recovers every field, the portals as written: the portals themselves if and only if each is below 2^16 bytes |
| `SetupCodec.RedirectRoundTrip` | src/common/xio_session_client.c:393-424 | it recovers the services of any REDIRECT under the same if-and-only-if, and leaves exactly the private data unread |
| `SetupCodec.RejectRoundTrip` | src/common/xio_session_client.c:426-449 | it recovers every field of a REJECT and stops exactly at its end |
| `SetupCodec.StringsRoundTrip` | src/common/xio_session_client.c:362-372 | the portal loop recovers any list of C strings, each cut to the low 16 bits of its length |
| `SetupCodec.CutAllIff` | src/common/xio_session_server.c:300-310 | a list of strings survives the 16-bit lengths if and only if every one is below 2^16 bytes |
| `SetupCodec.LongPortalIsLost` | src/common/xio_session_server.c:236-241 | one portal of 65536 bytes: the guard passes, 32 bytes are written, and the client reads one empty name |
| `SetupCodec.RequestLayout` | src/common/xio_session_client.c:97-138 | at which offset of a request each field is |
| `SetupCodec.AcceptLayout` | src/common/xio_session_server.c:266-318 | at which offset of an ACCEPT each field is, with action 1 |
| `SetupCodec.RedirectLayout` | src/common/xio_session_server.c:266-318 | at which offset of a REDIRECT each field is, with action 2 |
| `SetupCodec.RejectLayout` | src/common/xio_session_server.c:365-394 | at which offset of a REJECT each field is, with action 3 |
| `SetupCodec.EndsAtNul` | src/common/xio_session_client.c:366-369 | a string read from memory ends before its first NUL |
| `SetupCodec.UnknownAction` | src/common/xio_session_client.c:450-452 | of an answer with any other action only the id and the action are read |
| `SetupCodec.AcceptLengthAgrees` | src/common/xio_session_server.c:235-239 | the length computed beforehand is the written one for exactly the ACCEPT messages below 2^16 bytes, and for no REDIRECT |
| `SetupCodec.RejectLengthAgrees` | src/common/xio_session_server.c:342-344 | and for exactly the REJECT messages below 2^16 bytes |
| `SetupCodec.GuardExact` | src/common/xio_session_server.c:241-245 | the guard of an ACCEPT or REJECT lets through exactly what fits if and only if the length does not wrap to a small one |
| `SetupCodec.RedirectGuardExact` | src/common/xio_session_server.c:241-245 | the same for a REDIRECT, whose guard counts 20 bytes too many |
| `SetupCodec.GuardCanWrap` | src/common/xio_session_server.c:342-350 | a REJECT longer than the buffer that passes the guard |
| `SetupBuffer.WriteSetupReq` | src/common/xio_session_client.c:66-148 | memory from the buffer on holds the encoded request, also where that goes past the buffer, and nothing behind it changes; the length, or an error exactly when it exceeds the buffer |
| `SetupBuffer.ReadSetupReq` | src/common/xio_session_server.c:95-155 | on every memory and address a result, which is the request and its end whenever a written request is there |
| `SetupBuffer.ComputeTotLen` | src/common/xio_session_server.c:235-239 | the 16-bit sum of the loop |
| `SetupBuffer.WriteAcceptRsp` | src/common/xio_session_server.c:223-326 | refused, with nothing written, exactly when the guard fails; else memory holds the encoded ACCEPT or REDIRECT and nothing behind it changes |
| `SetupBuffer.WriteRejectRsp` | src/common/xio_session_server.c:331-402 | the same for a REJECT |
| `SetupBuffer.ReadSetupRsp` | src/common/xio_session_client.c:314-455 | on every memory and address a result, which is the answer with its strings as written, and its end, whenever an ACCEPT or REJECT is there, and for a REDIRECT all but the private data |
| `SetupBuffer.RequestThroughBuffer` | src/common/xio_session_client.c:97-138 | writing and then reading gives the request back, and the reader ends where the writer did |
| `SetupBuffer.AnswerThroughBuffer` | src/common/xio_session_server.c:266-318 | refused exactly when the guard fails; else an ACCEPT comes back with its strings as written, which are the strings given if and only if all are below 2^16 bytes, and a REDIRECT likewise up to its private data |
| `SetupBuffer.RejectThroughBuffer` | src/common/xio_session_server.c:365-394 | refused exactly when the guard fails; else the REJECT comes back and the reader ends where the writer did |
| `TaskPool.TasksPool.AllocSlab` | src/usr/xio/xio_task.c:53-197 | fresh, consecutively numbered tasks at the end of the stack: the start number at first, then the growth number or as many as are left to the maximum, and none if a parameter is negative as a signed number |
| `TaskPool.TasksPool.Get` | src/common/xio_task.h:267-309 | exactly when it fails; else a task that was free or is new, with one reference, taken from the top, or from the end when the pool had to grow; no other task changes |
| `TaskPool.TasksPool.AddRef` | src/common/xio_task.h:189-193 | one more reference to a live task |
| `TaskPool.TasksPool.Put` | src/common/xio_task.h:219-236 | the last reference puts a task on top of the stack |
| `TaskPool.TasksPool.Lookup` | src/common/xio_task.h:341-358 | finds a task exactly when one has that id, and it is the only one |
| `TaskPool.TasksPool.UsedAreLive` | src/common/xio_task.h:219-236 | `curr_used` is the number of live tasks, which are those off the stack |
| `TaskPool.HighestIsMaximum` | src/common/xio_task.h:290-291 | `max_used`, kept equal to the highest of all values of `curr_used`, bounds them all and is reached |
| `ObjectPool.CarvedApart` | src/common/xio_objpool.c:86-94 | for every size and count the carved objects, their headers and back pointers lie inside the chunk and do not overlap |
| `ObjectPool.ChunkEnd` | src/common/xio_objpool.c:75-76 | the carving ends where the allocated size says |
| `ObjectPool.Pool.Realloc` | src/common/xio_objpool.c:66-102 | the new objects are in front of the free list, every header and back pointer is right, nothing overlaps any chunk carved before |
| `ObjectPool.Pool.Alloc` | src/common/xio_objpool.c:149-165 | exactly when it fails; else the first free object, apart from every live one, is moved to the used list |
| `ObjectPool.Pool.Free` | src/common/xio_objpool.c:170-178 | the back pointer leads to the header, which moves from the used to the free list |
| `EventLoop.Loop.AddEvent` | win/xiodll/xio_ev_loop-select.c:250-259 | at the end of the list unless already scheduled |
| `EventLoop.Loop.RemoveEvent` | win/xiodll/xio_ev_loop-select.c:264-270 | off the list wherever it is |
| `EventLoop.Loop.ExecScheduled` | win/xiodll/xio_ev_loop-select.c:275-295 | runs exactly the events queued at entry, each once and in order, leaves exactly those a handler scheduled while they were not waiting, in the order of the first such calls, and says whether any are left |
| `EventLoop.Waiting` | win/xiodll/xio_ev_loop-select.c:281-289 | what is on the list after any number of handlers, with handlers free to schedule anything, their own event included |
| `EventLoop.WaitingInOrder` | win/xiodll/xio_ev_loop-select.c:281-289 | the list after any number of handlers in full: the entry events still to run, then the newly scheduled ones once each |
| `EventLoop.OnceInOrder` | win/xiodll/xio_ev_loop-select.c:250-259 | scheduling a log of calls leaves every event of it once, in the order of first calls |
| `EventLoop.EntryFirst` | win/xiodll/xio_ev_loop-select.c:281-289 | events not yet run stay in front and none is on the list twice |

## Left out

- RDMA and TCP transports, sockets, memory registration: the transport is a FIFO channel and a verdict per send.
- Direct RDMA messages, cancellation, messages that arrive with an error status.
- Failed sends in `CreditRuns` and `Reconnect`, reconnects in `CreditRuns` and `TxAccounting`: there the code restores credits without the sequence number, or un-counts messages it sends again.
- Responses that arrive outside ONLINE and FIN_WAIT_1, and stand-alone receipts for two-way requests in the in-flight list.
- FIN timeout, keepalive timeout and transport disconnect in the close handshake; FIN and ACK are not held up behind credit-blocked messages.
- Batched sends, in particular an overflow in the middle of a batch.
- Restart hooks (remote keys, tasks).
- Session header layout, TLV framing, strings and floats of the protocol header, hash tables, locks, statistics, options.
- `memcpyv_ex`, which is the same code; `memcpyv` with lengths beyond the range of `int`, and its reading of entry 0 before an empty vector is refused.
- Serial numbers are not taken modulo 2^64.
- Allocation failure is a parameter of the pools and left out elsewhere; hooks and byte layout of a task slab are left out.
- `ConnectionObject.Connection.Xmit`: stated for calls that end, since a method has to; `NeverEndsIff` says which do not.
- `ConnectionObject.Connection.Restart`: likewise for its transmission; the restart hooks are left out.
- `ConnectionObject.Connection.XmitInl`: the growth of the primary task pool after an attempt is left to `TaskPool`.
- `ConnectionObject.Connection.NotifyMsgsFlush`: the references of a flushed FIN are in `CloseConnection`, not in this record.
- `SetupBuffer.WriteSetupReq`: the length is tested after writing, so `buf` stands for the buffer and the memory behind it.
- `EventLoop.Loop.ExecScheduled`: handlers schedule events but do not remove waiting ones.
