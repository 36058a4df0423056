# Malamute, modelled and proved

Malamute is a message broker. Clients open a connection under an address, write and read streams, send mail
to addresses, and request and offer services. This project models the parts of it that hold state and proves
what they keep over every run.

- **Streams.** The server and one actor per stream talk through first-in first-out pipes: COMPILE and CANCEL
  go one way, deliveries and acknowledgements come back, and both carry raw addresses of client contexts. A
  context that is still referenced when its session ends stays behind as a zombie until its last
  acknowledgement. `StreamNet` is the state machine of clients, streams and pipes; `StreamSafety` proves that
  no interleaving lets the server touch a freed context, and `CancelSafety` exactly when STREAM CANCEL breaks
  that; `StreamOrder` proves what readers see. `StreamDelivery`, `StreamTrace` and `StreamRun` say what every client is
  sent, read off the list of steps alone. `StreamEngine` is the actor as a class, with its nested cursor loops.
- **Services.** Requests wait in a queue, offers in a list that rotates on use. `Offers`, `Services` and
  `Fairness` state dispatching, its order, its work conservation and its fairness; `ServiceLedger` accounts for every
  request and every offer of a run, and for the order the offers stand in; `ServiceClass` is the
  in-place code: a message is linked, handed over, detached at the cursor of the list that is being walked.
- **Queues and mailboxes.** Byte-bounded queues with a hard and a soft limit, and the mailbox engine over them.
- **The broker.** `Broker` puts streams, services, mailboxes, the address table and the counters of all
  messages into one state machine with fourteen kinds of events. `BrokerSafety.BrokerRunsAreSafe` is the main
  result: over every run stream safety, the address table, the order of mail, the ownership of messages, work
  conservation and exact byte counts hold together. `BrokerTrace` accounts for all mail, and shows that each service and
  the stream net of a broker run go through a run of their own, so that order per subject, fairness, publication order
  and deliveries carry over. The bounds of queues are proved over runs of the queues and of the mailbox engine.
  `BrokerLedger` follows one message over a whole run. `ServerClass` is the server code as a class.
- **Wire and text.** The wire form of the eighteen message kinds and their textual form: parser and printer, as
  functions over one table of layouts, and as methods that spell the kinds out one by one, as the source does.
  `ProtoGrammar` gives the octets and the entries of each kind, as the protocol header lists them.
- **Bitmap.** A byte array with a watermark, lookup tables and 8-byte loops, against a finite set. The searches of
  the source can read behind the data block; the methods say exactly when, and what they answer otherwise.

Lists with a cursor are a class, `ZLists.ZList`, whose methods keep the cursor contract documented at
`bindings/python_cffi/malamute_cffi/cdefs.py:1798-1888`. Each class is proved against functions on values, and
the theorems over whole runs are about those functions.

## Assumptions

- An event raised with `engine_send_event` is handled before the call returns
  (`src/mlm_server.c:136-139` asserts it). The event handlers of the server run one at a time.
- A client context starts with reference count 0; `engine_client_get` adds one, `engine_client_put` takes one;
  the context is freed when its session ends with count 0, or later when a zombie's count reaches 0
  (`src/mlm_server_engine.inc:204-222`, `499-527`).
- An address of a freed client context may be handed out again; an address in use is not.
- Regular expressions are a parameter: any predicate on a pattern and a subject.
- Byte totals of a queue stay below 2^64, reference counts and byte counts do not overflow, and bitmaps have
  fewer than 2^31 bits. The widths of protocol numbers and of the bytes of a bitmap are modelled.

## Findings

- `cancel_stream_reader` sends CANCEL to the stream it is given but drops the first entry of `readers`,
  whichever stream that is (`src/mlm_server.c:1226-1240`). `StreamCancel.CancelOfAnotherStreamIsUnsafe` is a
  run in which the server then delivers to a freed context. `CancelSafety.ServerTestIsExact` gives the condition a
  server can check on its own data before the call: the first entry is for the named stream, or is repeated behind
  itself. If that holds, nothing that follows, short of another STREAM CANCEL, uses a freed context, whatever the
  actors are up to; if not, some state of the pipes and some continuation do, an empty `readers` included.
  `CancelSafety.SpareCancelsAreSafe` makes the test at every STREAM CANCEL of a run.
  For one given state of the pipes the exact condition is `CancelSafety.CancelIsSafeIff`, which is what the theorems
  over runs ask for at each STREAM CANCEL, and nothing else.
- A frame that ends too early is received with return code 0, the code of success
  (`ProtoCodec.CutFrameReturnsZero`): the GET macros jump with `rc` still 0. `ProtoCodec.ZeroIsSuccessIff` says
  when 0 does mean success; the properties of the decoder are stated on reaching the successful return.
- A string with a zero octet does not survive decoding (`ProtoCodec.ZeroOctetIsLost` reads such a frame).
  `ProtoCodec.ReadThenEncode` shows that this is the only loss: re-encoding gives back the bytes read if and only
  if no string held a zero octet.
- `include/mlm_proto.h:61` promises that a reader receives a message at most once; the engine delivers it once
  per matching pattern (`StreamOrder.OneCopyPerPair`), twice in `StreamOrder.TwoPatternsTwoCopies`. A reader gets
  every message at most once if and only if no subject matches two of its patterns (`StreamOrder.AtMostOnceIff`).
- `zbits_last` answers 0 when the top bit is set; `Bitmaps.Zbits.Last` states that it is right exactly when the
  top bit is clear.
- The searches of a bitmap read behind the data block where -1 is promised. For a set bit that is exactly when every
  byte is in use and no member lies ahead (`Bitmaps.Zbits.Next`), so that walking to the end does it on every bitmap
  whose bytes are all in use (`BitWalks.ListMembers`, reached in `BitWalks.TopBitFound`). For a clear bit, and for
  `zbits_insert`, it is exactly when none is left (`Bitmaps.Zbits.NextZero`, reached in `BitWalks.AllBitsSet`).
- In the textual form a numeric field takes exactly the decimal numbers and the empty text
  (`ProtoText.NumberIsTakenIff`), and stores the number it read if and only if that lies in the range of the field
  (`ProtoText.NumberIsKeptIffInRange`); amount 65536 comes in as 0 and timeout -1 as 4294967295
  (`ProtoText.WideNumberChanges`, `ProtoText.NegativeNumberChanges`).
- Bytes in the textual form are read by a scan that takes blanks, prefixes and trailing characters: "1g" and " 1" are
  both read as the byte 1, and "-1" fails an assertion (`ProtoDigits.OtherTextsAreRead`). A text is read and written
  back as it was if and only if it has even length and lower-case digits only (`ProtoDigits.HexOfUnhex`).

## Model

| member | source | states |
|---|---|---|
| `StreamSafety.RunsAreSafe` | src/mlm_server.c:119-141 | in every interleaving of server and actor steps, no pair popped from a message pipe names a freed context, and the invariant holds in every state reached |
| `StreamSafety.StepKeeps` | src/mlm_server.c:119-141 | every single step of server or actor keeps exact reference counts and the cover of everything a stream may still send |
| `StreamSafety.HandleCommand` | src/mlm_stream_simple.c:152-190 | a command taken by the actor turns a CANCEL owed into an ACK owed, exposes nobody new and keeps the selector lists well formed |
| `StreamSafety.HandleMessage` | src/mlm_stream_simple.c:197-220 | a publication reaches only clients that were exposed before, and owes nobody an ACK |
| `StreamSafety.Commanded` | src/mlm_server.c:508-523 | sending one COMPILE or CANCEL keeps the invariant when the record of the client changes its count by what the command owes |
| `StreamSafety.CancelKeepsIff` | src/mlm_server.c:1226-1240 | dropping the first reader entry keeps the invariant if and only if that entry is for the named stream, is repeated, or covers nothing |
| `CancelSafety.ServerTestIsExact` | src/mlm_server.c:1226-1240 | STREAM CANCEL is safe in every state of the pipes that fits the data of the server if and only if the first reader entry is for the named stream or is repeated |
| `CancelSafety.CancelIsSafeIff` | src/mlm_server.c:1226-1240 | in a given state, nothing that follows STREAM CANCEL short of another one uses a freed context if and only if the entry dropped is for the named stream, is repeated, or covers nothing |
| `CancelSafety.UncoveredCancelUsesFreed` | src/mlm_server.c:1226-1240 | otherwise a continuation without any other STREAM CANCEL is constructed that uses a freed context, also from an empty list of readers |
| `CancelSafety.NoWeakerTest` | src/mlm_server.c:1226-1240 | where the test on the data of the server fails, the same data fit pipes for which the cancel is unsafe |
| `CancelSafety.SpareCancelsAreSafe` | src/mlm_server.c:1226-1240 | a run with that test before every STREAM CANCEL uses no freed context in any interleaving |
| `CancelSafety.RunsStayNamed` | src/mlm_server.c:180-203 | over every run each stream can still be required by some name |
| `StreamCancel.CancelOfAnotherStreamIsUnsafe` | src/mlm_server.c:1226-1240 | a concrete run: cancelling another stream makes the server deliver to a freed context |
| `StreamSafety.TerminateKeeps` | src/mlm_server.c:737-768 | deregistration, one CANCEL for each reader entry and then freed or a zombie, keeps exact counts and the cover |
| `StreamSafety.ForwardKeeps` | src/mlm_server.c:119-141 | popping a pair finds its client allocated and keeps exact counts and the cover, whether an ACK frees a zombie or not |
| `StreamSafety.HeadIsReferenced` | src/mlm_server.c:119-141 | the client at the head of a message pipe is allocated, and an ACK finds a positive count |
| `StreamSafety.InFlightIsCovered` | src/mlm_server.c:507-523 | a delivery in flight is covered by a reader entry, by a CANCEL behind the last COMPILE, or by an ACK behind the message |
| `StreamSafety.NothingLeft` | src/mlm_server_engine.inc:213-222 | a client without references is owed nothing by any stream, and no stream may still send it anything |
| `StreamSafety.LastAckLeavesSilence` | src/mlm_stream_simple.c:166-190 | a stream that owes a departed client no ACK mentions it nowhere |
| `StreamSafety.SilenceLasts` | src/mlm_stream_simple.c:166-190 | over any later run that does not reuse the address, nothing for a departed client leaves a stream after that stream's last ACK |
| `StreamSafety.DrainedPipesLeaveNoZombie` | src/mlm_server_engine.inc:499-527 | once the pipes are empty, every departed client has been freed |
| `StreamOrder.OneCopyPerPair` | src/mlm_stream_simple.c:196-220 | a publication makes, for each client, as many copies as it has matching patterns, and none for its sender |
| `StreamOrder.TwoPatternsTwoCopies` | include/mlm_proto.h:61 | a reader with two matching patterns gets two copies |
| `StreamOrder.AtMostOnceIff` | include/mlm_proto.h:61 | a reader gets every message at most once if and only if no subject matches two of its patterns |
| `StreamOrder.ReadersSeePublicationOrder` | src/mlm_stream_simple.c:196-220 | over any run, what a reader was sent is a list of copies in publication order, none of its own messages |
| `StreamOrder.NewStreamsKeepOrder` | src/mlm_stream_simple.c:196-220 | the same over all runs of a new stream, from its first command on |
| `StreamDeliveries.SelectorsFollowCommands` | src/mlm_stream_simple.c:111-190 | over any run of a stream, a client stands under a pattern if and only if some COMPILE of that pattern for it, among the commands handled, has no CANCEL for it behind it; the pipes hold what was given and not taken up |
| `StreamDeliveries.CopiesAreDue` | src/mlm_stream_simple.c:196-220 | a publication sends each client but its sender one copy for each distinct pattern it asked for, has not cancelled, and that matches the subject |
| `StreamDeliveries.ClientsGetWhatTheyAskedFor` | src/mlm_stream_simple.c:151-226 | over any run, the sequence of copies and ACKs sent to each client is the one computed from the list of commands and publications alone, and what the server has not taken is its end |
| `StreamRuns.StreamsFollowTheSteps` | src/mlm_server.c:180-197 | over any run of server and actors: one stream for each name asked for, each where the steps that concern its name put it (READ asks for COMPILE of the pattern given, departure for one CANCEL per entry, SEND goes to the stream taken last), and the writer and reader entries of each client are those of its own steps |
| `StreamRuns.ReadersGetWhatStepsCallFor` | src/mlm_server.c:485-545 | hence what each client is sent by the stream of a name is computed from the steps of the server and the actors |
| `Selectors.CompileAddsOnePair` | src/mlm_stream_simple.c:111-130 | COMPILE adds exactly one (pattern, client) pair; patterns, and clients within a selector, stay distinct |
| `Selectors.CancelRemovesClient` | src/mlm_stream_simple.c:135-145 | CANCEL removes all pairs of a client and no other, with one removal per selector |
| `Selectors.CopiesAreForSubscribers` | src/mlm_stream_simple.c:196-220 | copies go to subscribers other than the sender only |
| `Selectors.RemoveFirstDistinct` | src/mlm_stream_simple.c:138-144 | without duplicates one removal removes every occurrence and keeps the order of the rest |
| `StreamEngines.StreamEngine.CompileSelector` | src/mlm_stream_simple.c:111-130 | the nested cursor loops compute COMPILE on the lists of selectors and clients |
| `StreamEngines.StreamEngine.CancelClient` | src/mlm_stream_simple.c:135-145 | the cursor loop over selectors, which finds and detaches the client in each, computes CANCEL on the lists |
| `StreamEngines.StreamEngine.HandleCommand` | src/mlm_stream_simple.c:151-190 | the actor's state after a command is the command step of the state machine |
| `StreamEngines.StreamEngine.HandleMessage` | src/mlm_stream_simple.c:196-226 | the actor's state after a publication is the publication step, and the counters gain one reference per copy and lose the engine's own |
| `ZLists.ZList.Next` | bindings/python_cffi/malamute_cffi/cdefs.py:1821-1825 | the next item, or none at the end with the cursor back at the list head |
| `ZLists.ZList.Detach` | bindings/python_cffi/malamute_cffi/cdefs.py:1859-1865 | the item leaves the list, and a cursor on it moves to the item before it, so that the walk goes on with the item behind |
| `ZLists.ZList.MoveEnd` | bindings/python_cffi/malamute_cffi/cdefs.py:1886-1888 | the item moves to the end, and the cursor stays on its item |
| `ZLists.Find` | bindings/python_cffi/malamute_cffi/cdefs.py:1853-1857 | the first position of an item with the cursor there, or none if it does not occur |
| `Messages.MsgHeap.Link` | src/mlm_msg.c:133-139 | one more reference to an allocated message |
| `Messages.MsgHeap.Unlink` | src/mlm_msg.c:145-156 | one reference less, and the message is gone exactly when it was the last |
| `Queues.EnqueueExact` | src/mlm_msgq.c:96-113 | enqueueing keeps the byte count equal to the sum of the sizes, dropped messages included |
| `Queues.DequeueExact` | src/mlm_msgq.c:118-131 | removing a message at any position keeps the byte count exact and never takes it below zero |
| `Queues.EnqueueKeepsOrDrops` | src/mlm_msgq.c:96-113 | a message is put at the end of the queue unless a finite limit would be exceeded by the bytes queued and its own, and then the queue is as it was |
| `Queues.ApplyBounded` | src/mlm_msgq.c:96-131 | one operation keeps the size within the limit, does not let it grow above a lowered limit, and keeps the warning flag between warn / 2 and warn |
| `Queues.RunsStayBounded` | src/mlm_msgq.c:96-131 | hence over any run under one configuration |
| `Queues.OneReportPerExcursion` | src/mlm_msgq.c:103-109 | between two soft-limit reports of any run the size has been at or below half of the soft limit |
| `MsgQueues.MsgQ.Add` | src/mlm_msgq.c:96-113 | the queue after it is the enqueue function of the queue before, and the caller's reference is kept with the message or dropped with it |
| `MsgQueues.MsgQ.Remove` | src/mlm_msgq.c:118-145 | takes the head or the item at the cursor, moving a cursor on it to the item before |
| `Mailboxes.MailboxesAreFifo` | src/mlm_mailbox_bounded.c:93-119 | over any run of STORE, QUERY and CONFIGURE, what was accepted for an address is what was answered, in order, followed by what waits |
| `Mailboxes.AllMailIsAccountedFor` | src/mlm_mailbox_bounded.c:87-119 | over any run of a new engine: the messages stored for an address, without those that a finite limit kept out, are those answered, one for each QUERY that found any, and then those that wait |
| `Mailboxes.MailboxesStayBounded` | src/mlm_mailbox_bounded.c:87-119 | over any run without CONFIGURE every mailbox keeps its limit and its warning rule |
| `Mailboxes.HandleKeepsBounds` | src/mlm_mailbox_bounded.c:93-119 | one command keeps the bounds of every mailbox |
| `Mailboxes.MailboxEngine.HandleStore` | src/mlm_mailbox_bounded.c:93-107 | the engine's table changes at one address only, as the store function says, and the reference is kept or dropped |
| `Mailboxes.MailboxEngine.HandleQuery` | src/mlm_mailbox_bounded.c:109-119 | the answer is the oldest message of the address or none, and no other mailbox changes |
| `Mailboxes.MailboxEngine.HandleConfigure` | src/mlm_mailbox_bounded.c:87-92 | new limits hold for all mailboxes at once, and no mailbox changes |
| `MailChecks.CheckForMailboxMessages` | src/mlm_server.c:633-659 | the repeated QUERY delivers all mail of the address, oldest first, through the slot of the client, empties its box, touches no other, and gives back one reference for each message |
| `Offers.DispatchIsStableFilter` | src/mlm_server.c:291-305 | dispatching leaves exactly the unmatched messages in order and hands over the matched ones in queue order, each once |
| `Offers.DispatchPermutes` | src/mlm_server.c:271-289 | dispatching only permutes the offers |
| `Offers.DispatchServesMatching` | src/mlm_server.c:271-289 | each message handed over goes to an offer of the list that matches its subject |
| `Services.DrainDispatches` | src/mlm_server.c:291-305 | removing matched messages at the cursor while walking equals dispatching the whole queue, with an exact byte count |
| `Services.ServiceRunsKeepOrder` | src/mlm_server.c:583-626 | over any run of sends, offers, withdrawals and limit changes: no waiting message is matched by a current offer, and messages of a subject leave in the order accepted |
| `Services.StepKeeps` | src/mlm_server.c:583-626 | each of these steps keeps work conservation and the order per subject |
| `Services.OneFatePerSubject` | src/mlm_server.c:271-289 | in one dispatch all waiting messages of a subject are taken, or all stay |
| `ServiceLedgers.EveryRequestIsAccountedFor` | src/mlm_server.c:583-598 | over any run, the requests of a subject taken from the steps, without those that found no offer and a finite limit in the way, are those handed over and then those that wait |
| `ServiceLedgers.UnlimitedLosesNothing` | src/mlm_msgq.c:96-113 | while no finite limit is set no request is missing |
| `ServiceLedgers.RunHasLimits` | src/mlm_server.c:399 | the limits in force are those of the last reconfiguration |
| `ServiceLedgers.OffersAreThoseMade` | src/mlm_server.c:605-626 | over any run, the offers of a service are, as a multiset, those made and not withdrawn since |
| `ServiceLedgers.OfferTakesWhatWaits` | src/mlm_server.c:605-626 | after its step a new offer is on the list and nothing that it matches waits |
| `ServiceLedgers.OffersStandByLastUse` | src/mlm_server.c:271-289 | over any run the offers stand in the order of their last use, being made or being handed a message |
| `ServiceLedgers.LeastRecentlyUsedIsChosen` | src/mlm_server.c:271-289 | a message goes to the matching offer whose last use is longest ago, which is thereby used |
| `ServiceLedgers.StepIsEvents` | src/mlm_server.c:583-626 | each step of a service moves the offers and hands messages over as the arrivals, joinings and departures do that fairness is about |
| `ServiceLedgers.ServiceBypassIsBounded` | src/mlm_server.c:271-289 | hence bounded bypass holds over runs of a service |
| `Fairness.BoundedBypass` | src/mlm_server.c:271-289 | an offer at position i sees at most i messages it matches go to others before it is chosen, while offers come and go |
| `Fairness.EventMovesForward` | src/mlm_server.c:271-289 | an arrival that passes an offer by moves it forward by one; nothing moves it back |
| `Fairness.RoundRobin` | src/mlm_server.c:271-289 | when all offers match, message t goes to offer t modulo their number |
| `Fairness.CountsDifferByOne` | src/mlm_server.c:271-289 | then the delivery counts of any two offers differ by at most one |
| `ServiceClasses.ServiceQueue.DispatchMessage` | src/mlm_server.c:271-289 | the search and rotation in place serve the first matching offer, fill and empty its client's slot, and release the caller's reference only when taken |
| `ServiceClasses.ServiceQueue.Dispatch` | src/mlm_server.c:291-305 | the loop that detaches at the cursor ends in the drained queue, hands over in order, and balances the counters |
| `ServiceClasses.ServiceQueue.Write` | src/mlm_server.c:583-598 | the service after a request is the send step of the specification |
| `ServiceClasses.ServiceQueue.MakeOffer` | src/mlm_server.c:605-626 | the service after an offer is the offer step of the specification |
| `ServiceClasses.DeleteOffers` | src/mlm_server.c:753-763 | deleting at the cursor removes all offers of a client and keeps the others in order |
| `BrokerRegistry.RegisterKeeps` | src/mlm_server.c:463-482 | opening an address expires its previous owner and leaves one owner per address and only offers of live clients |
| `BrokerRegistry.DepartKeeps` | src/mlm_server.c:737-768 | departure removes the client's own entry and its offers and no other |
| `BrokerRegistry.ForwardKeeps` | src/mlm_server.c:418-431 | a zombie freed later evicts nobody from the address table, whoever owns its old address |
| `BrokerMail.RegisterKeepsMail` | src/mlm_server.c:463-482 | after a client opened its address no mail waits for it, and every address still gets its mail in the order accepted |
| `BrokerMail.MailToConnected` | src/mlm_server.c:552-576 | mail for a connected address leaves nothing waiting there and keeps the order of delivery of every address |
| `BrokerMail.MailToBox` | src/mlm_server.c:552-576 | mail for an absent address keeps the order: delivered mail followed by waiting mail is what was accepted |
| `BrokerTraces.AllMailIsAccountedFor` | src/mlm_server.c:552-576 | over every run of the broker, the mail for an address taken from the events, without what found it absent and a finite limit in the way, is what was delivered to it and then what waits |
| `BrokerTraces.UnlimitedLosesNoMail` | src/mlm_mailbox_bounded.c:93-107 | while mailboxes have no finite limit no mail is missing |
| `BrokerTraces.MailWaitsForAnOwner` | src/mlm_server.c:552-576 | no event delivers mail to an address that has no owner afterwards |
| `BrokerTraces.RunHasLimits` | src/mlm_server.c:396-401 | services and mailboxes each have the limits configured for them last |
| `BrokerTraces.ServicesFollowTheEvents` | src/mlm_server.c:583-626 | over every run of the broker, each service stands where the steps that the events mean for its name put it |
| `BrokerTraces.AllRequestsAreAccountedFor` | src/mlm_server.c:583-626 | hence, in the broker, requests are handed over, waiting or overflowed, and the offers are those made and not withdrawn |
| `BrokerTraces.NetFollowsTheEvents` | src/mlm_server.c:463-545 | over every run of the broker, its clients and streams go through a run of the stream net |
| `BrokerOwnership.OfferOwned` | src/mlm_server.c:291-305 | after an offer the counters still equal the holders: the requests it took are released, each of the others is held once |
| `BrokerOwnership.RequestOwned` | src/mlm_server.c:583-598 | after a request the counters still equal the holders, whether it was taken, queued or dropped |
| `BrokerOwnership.PublicationOwned` | src/mlm_stream_simple.c:196-226 | after the actor took a publication the counters still equal the holders, one per copy instead of its own |
| `BrokerOwnership.DeliverOwned` | src/mlm_server.c:131-139 | popping a delivery gives back its reference |
| `BrokerOwnership.QueuedIsHeldOnce` | src/mlm_msgq.c:52 | a request in a service queue has reference count exactly 1 between steps, so the list destructor may destroy it |
| `BrokerOwnership.QueuedCounted` | src/mlm_msgq.c:96-131 | every message in a service queue or a mailbox is allocated, with at least as many references as it has places in that queue |
| `BrokerOwnership.DeliveryCounted` | src/mlm_server.c:131-139 | a delivery about to be popped carries an allocated message |
| `BrokerOwnership.MailIsHeldOnce` | src/mlm_msgq.c:52 | the same for mail waiting in a mailbox |
| `BrokerOwnership.DestroyedExactlyWhenUnheld` | src/mlm_msg.c:133-156 | in every state whose counters equal the holders, a message is allocated if and only if a pipe or a queue holds it |
| `BrokerLedger.NothingComesBack` | src/mlm_msg.c:133-156 | no event brings back a destroyed message: what is allocated afterwards was allocated before or is created by that event |
| `BrokerLedger.EveryMessageDiesOnce` | src/mlm_msg.c:145-156 | over every run, creations and destructions of a message balance: each creation ends in at most one destruction, and in exactly one once the message is gone |
| `BrokerLedger.UnheldMeansDestroyed` | src/mlm_msg.c:145-156 | from the start of the broker: a message has been destroyed as often as it was created if no pipe or queue holds it, and once less while one does |
| `BrokerSafety.ReactKeeps` | src/mlm_server.c:119-768 | every event finds the clients and messages it touches allocated, and keeps stream safety, registry, mail order, ownership and work conservation together |
| `BrokerSafety.BrokerRunsAreSafe` | src/mlm_server.c:119-768 | no run of the broker uses a freed client, or a freed message in a publication, a forward, a dispatch or a mail delivery, and these invariants hold in every state it reaches |
| `BrokerSafety.ServiceStepOk` | src/mlm_server.c:583-626 | service steps inside the broker keep the byte count exact and conserve work |
| `Servers.Server.StoreStreamReader` | src/mlm_server.c:507-523 | one reader entry, one COMPILE and one reference, as the read step |
| `Servers.Server.CancelStreamReader` | src/mlm_server.c:1226-1240 | the server's net after it is the cancel step, with the wrong entry and all |
| `Servers.Server.WriteMessageToStream` | src/mlm_server.c:528-545 | with a writer, a counted message enters the pipe of the client's stream |
| `Servers.Server.SendToStream` | src/mlm_server.c:528-545 | the same for any client: without a writer the session ends and nothing is allocated |
| `Servers.Server.Deregister` | src/mlm_server.c:737-768 | the two loops send one CANCEL per reader and withdraw the client's offers from every service |
| `Servers.Server.EndSession` | src/mlm_server_engine.inc:499-527 | a departed client is freed or becomes a zombie; the view of the server changes as the departure function says |
| `Servers.Server.RegisterNewClient` | src/mlm_server.c:463-482 | the previous owner is deregistered first, and the table then names the new one |
| `Servers.Server.ForwardStreamTraffic` | src/mlm_server.c:119-141 | the server after one pair is the forward step, counters included; a delivery goes through its client's slot, empty before and after |
| `ProtoCodec.SentIsReceived` | src/mlm_proto.c:1034-1434 | for each of the 18 kinds, receiving what was sent completes with the id, the fields of the kind and the content frames sent (one empty frame for no content), leaving other fields alone |
| `ProtoCodec.RoutedIsReceived` | src/mlm_proto.c:1042-1050 | the same behind a router socket, which also stores the peer's routing id |
| `ProtoCodec.RouterSendsToPeer` | src/mlm_proto.c:1242-1243 | a router socket gets the routing id as its first part, and the peer receives the message from the parts after it |
| `ProtoCodec.OverlayItem` | src/mlm_proto.c:1072-1220 | a field of the received message is the sender's if its kind carries it, else the receiver's old value |
| `ProtoCodec.OnlyTheLastPartEnds` | src/mlm_proto.c:1420-1434 | exactly the last part is sent without the flag that more follow |
| `ProtoCodec.SizeIsExact` | src/mlm_proto.c:1245-1314 | the frame size computed beforehand equals the number of bytes written |
| `ProtoGrammars.SentFollowsGrammar` | include/mlm_proto.h:28-151 | for each of the kinds 1 to 18 and all fields: the data frame sent is octet for octet the one listed, followed by the content frames for 7, 8, 9, 10, 11 and 13 and by nothing for the others |
| `ProtoGrammars.GrammarIsReceived` | src/mlm_proto.c:1058-1223 | parts put together from the list are received: the fields of the kind come in, and the frames behind the first become the content of those six kinds and stay unread for the others |
| `ProtoGrammars.RefusedIff` | src/mlm_proto.c:1058-1079 | a frame is refused with -2 if and only if its signature is wrong, its kind is none of the eighteen, or it opens another protocol or version |
| `ProtoCodec.FrameRoundTrip` | src/mlm_proto.c:1058-1223 | a frame that starts with an encoding reads as that message and stops right behind it |
| `Proto.ParseAll` | src/mlm_proto.c:67-182 | for any bytes the read pointer moves forward and never passes the ceiling |
| `ProtoCodec.ReadThenEncode` | src/mlm_proto.c:1058-1223 | for any frame read to the successful return: encoding the result gives the bytes read if and only if no string held a zero octet |
| `ProtoCodec.ZeroOctetIsLost` | src/mlm_proto.c:171-182 | a frame with a one-octet name, the octet zero, is read to the end as a message with the empty name |
| `ProtoCodec.NoEncodingExtendsAnother` | src/mlm_proto.c:1315-1419 | no encoding is a proper prefix of another |
| `ProtoCodec.CutFrameReturnsZero` | src/mlm_proto.c:1038-1072 | every proper prefix of an encoding is received with return code 0 although the parse fails |
| `ProtoCodec.ZeroIsSuccessIff` | src/mlm_proto.c:1034-1229 | a complete message returns 0; a return code 0 means a complete message if and only if the frame is as long as its own length octets ask for |
| `Protos.MlmProto.Send` | src/mlm_proto.c:1236-1436 | the parts put on the socket are the sending function of the message, for every id |
| `Protos.MlmProto.PutFrame` | src/mlm_proto.c:1245-1419 | the needle ends exactly at the end of the allocated frame, which holds the encoding |
| `Protos.MlmProto.SendContent` | src/mlm_proto.c:1423-1434 | counting the frames down flags all but the last |
| `Protos.MlmProto.Recv` | src/mlm_proto.c:1034-1229 | the message afterwards, partly filled ones included, is the receiving function of the message before and the parts, an interrupted receive included |
| `Protos.MlmProto.GetString` | src/mlm_proto.c:171-182 | fails before or after the length octet, or yields the string up to its first NUL |
| `ProtoDigits.StrFromBytes` | src/mlm_proto.c:235-249 | the loop writes the hexadecimal text of any bytes |
| `ProtoDigits.BytesFromStr` | src/mlm_proto.c:210-233 | the loop reads any text: odd lengths, pairs with blanks, prefixes or other characters, pairs without a conversion, and negative values |
| `ProtoDigits.PairsByClass` | src/mlm_proto.c:226-244 | every byte is written as its two lower-case digits; two digits of either case are read as their byte, one digit before another character or behind a blank or plus as itself, a minus makes zero or a negative number, and no other pair holds a number |
| `ProtoDigits.UnhexOfHex` | src/mlm_proto.c:210-249 | every byte string is read back as written |
| `ProtoDigits.HexOfUnhex` | src/mlm_proto.c:210-249 | a text is read as bytes and written back as it was if and only if it has even length and lower-case hexadecimal digits only |
| `ProtoDigits.OtherTextsAreRead` | src/mlm_proto.c:226-227 | texts that are read otherwise: a digit with something behind it, a blank in front, a sign, no digit at all |
| `ProtoDigits.NumberOfPrint` | src/mlm_proto.c:570-585 | every number below 2^63 is read back as printed |
| `ProtoDigits.PrintOfNumber` | src/mlm_proto.c:570-585 | a text is read as a number and prints back as it was if and only if it is canonical and in range |
| `ProtoDigits.NumberIffDecimalOrEmpty` | src/mlm_proto.c:578-583 | a text passes as a number if and only if it is decimal (blanks, at most one sign, at least one digit) or empty, and the empty one as 0 |
| `ProtoDigits.NumberOfDecimal` | src/mlm_proto.c:578-583 | a decimal text is read as its signed value, clamped to 64 bits |
| `ProtoText.TextRoundTrip` | src/mlm_proto.c:264-973 | exporting a message of any kind and importing the tree restores id, routing id and all fields of the kind, and its content wherever the content codec restores it |
| `ProtoText.ExportHolds` | src/mlm_proto.c:1592-1990 | every item of the kind stands in the exported section under its own name |
| `ProtoGrammars.ExportFollowsGrammar` | src/mlm_proto.c:1592-1990 | for each of the kinds 1 to 18: the name, the routing id and the entries of the exported tree are those listed, with a content entry for the six kinds that carry one and no section for 2, 3 and 4 |
| `ProtoText.NameIsKnown` | src/mlm_proto.c:275-368 | the chain of name comparisons finds the id of each exported name |
| `ProtoText.NumberIsKeptIffInRange` | src/mlm_proto.c:906-912 | for every numeric field and every text read as a number, the value stored is the number modulo the width of the field, hence the number itself if and only if it is in range |
| `ProtoText.NumberIsTakenIff` | src/mlm_proto.c:899-911 | for every numeric field, the import goes on if and only if the entry is there and is a decimal number or empty |
| `ProtoText.WideNumberChanges` | src/mlm_proto.c:906-911 | 65536 as amount comes in as 0 |
| `ProtoText.NegativeNumberChanges` | src/mlm_proto.c:906-911 | -1 as timeout comes in as 4294967295 |
| `ProtoTrees.Zpl` | src/mlm_proto.c:1592-1990 | the tree written by the switch over kinds is the exporting function of the message, for every id |
| `ProtoTrees.PutSection` | src/mlm_proto.c:1595-1990 | each kind writes exactly the entries of its layout, and content where it carries it |
| `ProtoTrees.TakeFields` | src/mlm_proto.c:383-973 | each kind reads exactly the entries of its layout, in order, and gives up at the first one that is missing, no number or too long |
| `ProtoTrees.KindOfName` | src/mlm_proto.c:275-368 | the eighteen comparisons find the id of a name, or none |
| `ProtoTrees.NewZpl` | src/mlm_proto.c:264-973 | for any tree, the new message, or the way the import was given up, is the importing function of the tree |
| `BitTables.FirstOnIsFirst` | src/zbits.c:61-81 | the 256-entry table gives the least set bit of every non-zero byte |
| `BitTables.LastOnIsLast` | src/zbits.c:83-103 | the 256-entry table gives the greatest set bit of every non-zero byte |
| `BitTables.CountOnCounts` | src/zbits.c:40-59 | the 256-entry table gives the number of set bits of every byte |
| `Bitmaps.Zbits.constructor` | src/zbits.c:122-135 | a new bitmap is the empty set with no byte in use |
| `Bitmaps.Zbits.Set` | src/zbits.c:168-177 | adds one index and keeps every byte at or beyond the watermark zero |
| `Bitmaps.Zbits.Clear` | src/zbits.c:183-190 | removes one index |
| `Bitmaps.Zbits.Erase` | src/zbits.c:196-201 | removes all |
| `Bitmaps.Zbits.Get` | src/zbits.c:156-163 | answers membership |
| `Bitmaps.Zbits.Ones` | src/zbits.c:207-217 | the sum over bytes up to the watermark is the cardinality of the set |
| `Bitmaps.Zbits.And` | src/zbits.c:223-235 | the word loop computes the intersection, although the watermark need not be a multiple of 8 |
| `Bitmaps.Zbits.Or` | src/zbits.c:241-253 | the word loop computes the union, or reads behind the source bitmap if and only if the watermark of this one lies beyond it |
| `Bitmaps.Zbits.Xor` | src/zbits.c:259-271 | the word loop computes the symmetric difference, or reads behind the source bitmap on the same condition |
| `Bitmaps.Zbits.Not` | src/zbits.c:277-290 | the word loop and the fill compute the complement |
| `Bitmaps.Zbits.Next` | src/zbits.c:329-350 | the least member above the cursor, or -1 when there is none, with the cursor following; it reads behind the data block if and only if every byte is in use and no member lies above |
| `Bitmaps.Zbits.Prev` | src/zbits.c:357-378 | the greatest member below the cursor, or -1 when there is none; the cursor follows |
| `Bitmaps.Zbits.First` | src/zbits.c:297-306 | the least member, or -1 for the empty set; it reads behind the data block if and only if the set is empty and every byte in use |
| `Bitmaps.Zbits.Last` | src/zbits.c:313-322 | gives the greatest member, or -1, if and only if the top bit is clear |
| `Bitmaps.Zbits.NextZero` | src/zbits.c:401-422 | the least index from the cursor on, the cursor included, that is not a member; it reads behind the data block if and only if there is none |
| `Bitmaps.Zbits.Insert` | src/zbits.c:457-464 | takes the least free index and adds only it; on a full bitmap, and only there, the search reads behind the data block |
| `BitWalks.ListMembers` | src/zbits.c:297-350 | the loop of first and next lists all members in ascending order; its last search reads behind the data block if and only if every byte is in use |
| `BitWalks.ListMembersBelow` | src/zbits.c:357-378 | the loop of prev lists the members below the cursor in descending order, and never leaves the data block |
| `BitWalks.TopBitFound` | src/zbits.c:340-342 | a reachable bitmap on which the search for another member reads behind the data block |
| `BitWalks.AllBitsSet` | src/zbits.c:414-415 | a reachable full bitmap on which an insert does |
| `BitRuns.NextEscapesIff` | src/zbits.c:340-342 | the scan loop, as a function of the bytes, reads past the end if and only if every byte is in use and no member lies ahead of the cursor |
| `BitRuns.AscentListsMembers` | src/zbits.c:297-350 | repeated next lists the members above the start in ascending order, each once, and then -1 |
| `BitRuns.AscentHasEveryMemberOnce` | src/zbits.c:297-350 | from the first member on it gives as many answers as the set has members |
| `BitRuns.DescentListsMembers` | src/zbits.c:357-378 | repeated prev lists the members below the start in descending order, each once, and then -1 |
| `BitRuns.LiveIndicesAreDistinct` | src/zbits.c:457-464 | over any run of insert and clear no index is out twice, and the bitmap is exactly the indices out |
| `BitRuns.IndicesStayBelowPeak` | src/zbits.c:457-464 | all indices lie below the largest number that was ever out at one time |
| `BitRuns.FreedAreReusedLowestFirst` | src/zbits.c:457-464 | an insert takes nothing above an index that was given back and is still free |
| `BitRuns.ConsecutiveTakesAscend` | src/zbits.c:457-464 | inserts without a clear between them go strictly upwards |
| `BitRuns.FreeIndexExists` | src/zbits.c:385-394 | a free index exists exactly while fewer than all indices are members |

## Left out

- Sockets, actors' loops, pollers, timers, logging, configuration files and command-line tools; pipes and
  multipart messages are sequences.
- The regular expression library; a pattern matches a subject by an arbitrary predicate.
- Message expiry, trackers, credit and confirmation: the server stores or stubs them without acting on them.
- The client's side: reconnection and its replay (src/mlm_client.c).
- Whole-server shutdown, allocation failure, and the reading of limits from strings (src/mlm_msgq.c:193-206).
- Requests made by a client before it has opened its connection. The dispatcher answers most of them with ERROR
  "command invalid" and keeps the session (src/mlm_server_engine.inc:741-757); the model has no such event, as it
  changes nothing the model holds. CONNECTION CLOSE in that state runs `client_closed_connection`, which
  dereferences the address, still NULL there (src/mlm_server.c:717); the model shows a clean departure.
- StreamSafety.RunsAreSafe: asks at each STREAM CANCEL that the dropped reader entry is covered; that is exact by
  `CancelSafety.CancelIsSafeIff`.
- StreamSafety.StepKeeps: asks for the same at a STREAM CANCEL.
- BrokerSafety.ReactKeeps: asks for the same at a STREAM CANCEL.
- BrokerSafety.BrokerRunsAreSafe: asks for the same at each STREAM CANCEL of the run.
- CancelSafety.CancelIsSafeIff: stated for regular expressions that match everything; under others an uncovered
  entry may stay harmless because no publication reaches the client.
- CancelSafety.ServerTestIsExact: stated for the same regular expressions; that the test suffices holds for all
  (`CancelSafety.SpareCancelsAreSafe`).
- A publication carries its sender's context address without a reference. If that context is freed and the
  address is given to a new client before the actor takes the publication, the new client counts as its sender.
  `StreamOrder.OneCopyPerPair` therefore speaks of the address, as the code does.
- What a bitmap's method does after reading behind its data block, or behind that of another bitmap: the methods
  report it and promise nothing about the answer.
- `zbits_prev_zero`, whose loop runs towards lower bytes while it tests the upper bound, and `zbits_fput` and
  `zbits_fget`, which write a pointer's width.
- `zframe_send` of a missing routing id is taken to send nothing; the frame library is not part of this model.
- The configuration tree of the textual form is a value with two items and one section of named strings.
- ProtoText.TextRoundTrip: the encoding of content frames into one byte string belongs to the frame library, which
  is not part of this model; it is a pair of functions of which only decode(encode(c)) == c is assumed.
- A pair of characters that sscanf finds no number in, such as "gg" or "0x", leaves the byte read unset in the source,
  and an imported string of more than 255 octets is left without terminator; the import then has the outcome `Open`.
- Setters, getters, duplication and printing of messages.
