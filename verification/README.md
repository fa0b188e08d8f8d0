# netchan, modelled and proved in Dafny

netchan gives programs network channels over Time-Sensitive Networking: a
talker's channel is a stream with a fixed payload size and a minimum interval,
a listener's channel is a pipe fed by a receive thread, and an SRP client
reserves the streams through a text protocol with an MRP daemon. This project
models the state machines underneath and proves what they guarantee over whole
runs.

- **Transmit.** `Admission` decides which channels may exist, `TxPacing` is the
  launch-time limiter of a TAS channel, `AvtpFrame` the frame a talker builds.
- **Receive.** `StreamTable` is the open-addressing callback table, `RxPath` the
  transition system from arriving frame to returned sample with pipes as bytes,
  `RxHandler` the same in place, `CaptureTime` the rebuilding of a 64-bit time
  from 32 bits.
- **Life cycle.** `ChannelList` holds the linked channel lists, `Lifecycle` the
  transition system of creation, signalling, stopping and removal. On it rest
  `TalkerTrace`, `TalkerAgreement`, `StopSafety`, `ListenerAgreement`,
  `HandlerLists`, `ListWalks` and `Declarations`. `SrpHandler` is the signalling code in place, on channels
  linked by pointers and the callback array; it refines `Lifecycle`, and
  `HandlerHistory` carries the theorems on runs over to its objects. `JointRuns`
  shows that `Lifecycle` and `RxPath` describe one handler.
- **MRP text.** `MrpText`, `MrpStream`, `MrpDomain`, `MrpLines`, `MrpListener`;
  `MrpMessages` has the texts of the messages sent, `MrpEvents` says what the text received does to the handler.
- **Time and log.** `Timespec`, `LogBuffers`, `LogNames`, `DataLogger`.

Code that updates objects is a class whose methods are proved against functions
on values; the theorems over whole runs are lemmas about those functions.

Clock readings, the success of sends and of opening files, the contents of
uninitialised memory and the order of events are inputs, universally
quantified. Each library function is one step, except a blocking read, which is
two, so that anything may happen while a reader waits.

## Where the code does less than it seems to promise

Each is stated as it is, with an example and the exact condition.

- The wrap correction of the capture time is one short of 2^32
  (`RebuildExact`, `RecoveredIff`, `FullCorrectionExact`).
- A caller's launch time may be granted ahead of the channel's slot
  (`SpacedIff`, `UndercutExample`).
- After removing the last channel of a list that has others, the next channel
  added is lost (`ListIntegrityIff`, `AllListedIff`, `LostChannelExample`).
- After a stop, sends are documented to fail, but a listener arriving late makes
  the talker usable again (`StoppedSendsIff`, `LateListenerExample`).
- A blocked read that ends with `ready` cleared or the channel removed before the
  stop loses its sample; one that ends with `ready` set after the stop returns
  bytes nobody sent (`FifoIff`, `UnreadyLosesSample`, `RemovalLosesSample`,
  `RevivalReturnsJunk`). Order holds regardless (`TakenInOrder`). Without talker
  notifications only the removal is left (`QuietFifo`, `RemovedReaderExample`).
- The class B domain message prints the class ID as priority and class A's VLAN
  (`ClassBRecoveredIff`, `ClassBExample`).
- The fixed-offset domain parser agrees with the scanning one on every VLAN only
  for one-digit classes and priorities (`ParsersAgreeIff`,
  `ParsersDisagreeExample`).
- A domain line that only repeats what is held does not make the class valid
  (`LastTripleWins`, `ValidFromFresh`, `RepeatExample`).
- A channel that fails while being made is stopped as a listener, so under SRP a
  listener-leave goes out for a stream whose real listener stays
  (`DeclaredIff`, `HalfMadeExample`).
- A log path close to 254 characters loses the rotation number, and from there on
  the two logs share their names, so that files overwrite each other
  (`NamesDifferIff`, `LogsDifferIff`, `AllDifferIff`, `OnDiskIff`,
  `OverwrittenExample`).
- A timer base is refused when the phase is longer than the clock's age
  (`YoungClock`, `YoungClockExample`).

## Model

| member | source | states |
|---|---|---|
| Admission.AdmittedIff | src/netchan.c:112-149 | a channel is admitted exactly when its payload is 1 to 1476 bytes, the frame recorded in full_size goes out within one interval at link speed and the interval is below an hour; full_size is 66 plus payload, never cut to 16 bits; the separate minimum-interval test never decides |
| TxPacing.TasChannel.constructor | src/netchan.c:306-307 | a new channel's first slot is the creation time |
| TxPacing.TasChannel.Choose | src/netchan_socket.c:123-126 | in 64-bit sums: a wish is granted exactly when more than 50us ahead by less than the slot; any other call gets the later of slot and 50us ahead |
| TxPacing.TasChannel.Advance | src/netchan_socket.c:128-130 | the do/while loop is left after one pass, or never, exactly when the slot wraps to before the reading |
| TxPacing.TasChannel.SendAt | src/netchan_socket.c:111-130 | for all 64-bit values: which wish is granted and what else is launched; while no sum wraps, the launch is the one the history of calls prescribes and the slot is launch plus interval; the exact condition for hanging |
| TxPacing.TasChannel.SendNow | src/netchan_socket.c:188-197 | the same for a call without a wish |
| TxPacing.ClosedForm | src/netchan_socket.c:123-130 | launch k of send-now calls is the maximum of the first slot plus k intervals and each reading j plus 50us plus k-j intervals |
| TxPacing.NowOnlyRespects | src/netchan_socket.c:123-130 | those launches respect lead, first slot and spacing |
| TxPacing.NowOnlyLeast | src/netchan_socket.c:123-130 | no schedule respecting them launches any frame earlier |
| TxPacing.WindowRate | include/netchan.h:305-329 | a spaced run has at most floor(W/I)+1 launches in any window of length W |
| TxPacing.AdmittedChannelRate | src/netchan.c:112-137 | every admitted channel driven by send-now keeps that rate |
| TxPacing.AdmittedFramesDisjoint | src/netchan.c:187-224 | no frame of an admitted channel starts before an earlier one has left the wire |
| TxPacing.AdmittedChannelLoad | src/netchan.c:131-135 | in any window the wire carries the channel's frames for at most window plus one interval |
| TxPacing.WishGranted | src/netchan_socket.c:123-126 | in every run: the wish is the launch time exactly between 50us ahead and 50us plus the slot ahead; otherwise the later of slot and 50us ahead |
| TxPacing.WishesGranted | src/netchan_socket.c:123-130 | a run of such wishes launches exactly at its wishes |
| TxPacing.WishExample | src/netchan_socket.c:125-126 | a first frame wished half a second ahead goes out when wished |
| TxPacing.EveryLaunchLeads | src/netchan_socket.c:123-130 | with any mix of calls: lead kept, slot follows the launch, a launch precedes its slot exactly when an accepted wish does |
| TxPacing.SpacedIff | src/netchan_socket.c:125-126 | a run keeps the interval exactly when no later call undercuts its slot |
| TxPacing.UndercutExample | src/netchan_socket.c:125-126 | two launches one nanosecond apart on a one-millisecond channel |
| AvtpFrame.HeaderParts | include/netchan.h:124-155 | the place of every header field |
| MachineInts.BEByte | include/netchan.h:124-155 | in network order byte i has weight 256^(k-1-i) |
| AvtpFrame.FrameRoundTrip | include/netchan.h:124-155 | a receiver gets subtype, valid flags, stream, stamp, sequence number, length and payload back from a built frame, also inside a larger buffer |
| AvtpFrame.TxPdu.constructor | src/netchan.c:151-158 | the initial PDU, counting from 0xff |
| AvtpFrame.TxPdu.FrameCarries | src/netchan.c:526-541 | the frame carries what the last update put in |
| AvtpFrame.TxPdu.FrameOfLast | src/netchan.c:526-541 | after k updates the frame sent is frame k-1 of the talker, with that update's number, stamp and data |
| AvtpFrame.TxPdu.UpdatePayload | src/netchan.c:526-541 | the k-th success carries sequence number (k-1) mod 256, the low word of the time and the data; a failure changes nothing |
| CaptureTime.RebuildExact | src/netchan.c:697-704 | for all times the rebuilt capture is the true one, off by whole turns of 2^32 and one more nanosecond after a wrap |
| CaptureTime.RebuildInWindow | src/netchan.c:697-704 | within one turn it is the capture, plus one after a wrap |
| CaptureTime.RecoveredIff | src/netchan.c:697-704 | for all 64-bit times it is the capture exactly within one turn, counted modulo 2^64, and without wrap |
| CaptureTime.FullCorrectionExact | src/netchan.c:701 | correcting by 2^32 would always be exact |
| CaptureTime.WrapCounterexample | src/netchan.c:701 | a capture that comes back one nanosecond late |
| CaptureTime.TargetInWindow | src/netchan.c:724-725 | the wake-up time is capture plus 100us, 2ms or 50ms by class, plus one after a wrap |
| CaptureTime.ReceiversAgree | src/netchan.c:724-725 | two synchronised receivers' wake-ups differ by at most 1 ns, and not at all unless exactly one saw a wrap |
| StreamTable.RegisterPlace | src/netchan.c:1040-1053 | a registration goes to the first free slot from the stream ID modulo the size on, going round |
| StreamTable.RegisterLookup | src/netchan.c:1032-1053 | a registration changes only the lookup of its own stream, and only if that had none |
| StreamTable.BuildInvariant | src/netchan.c:1042-1047 | probe paths never have gaps; exactly the first n registrations are granted |
| StreamTable.FirstWins | src/netchan.c:1084-1097 | after any history, lookup gives the slot and owner of the earliest granted registration, -1 exactly when none |
| StreamTable.CallbackTable.ProbeForFree | src/netchan.c:1040-1043 | the probe loop ends at the first free slot of the path, or finds the table full |
| StreamTable.CallbackTable.RegisterCallback | src/netchan.c:1032-1053 | fails exactly without a callback or with every slot taken |
| StreamTable.CallbackTable.FindIndex | src/netchan.c:1084-1097 | the slot of the earliest granted registration, -1 when none |
| RxPath.RecordLayout | src/netchan.c:34-39 | the place of every field of a pipe record |
| RxPath.RecordRoundTrip | src/netchan.c:34-39 | a pipe record decodes to what was encoded |
| RxPath.Dispatch | src/netchan.c:1106-1119 | over every run a frame reaches a channel exactly when it carries its stream |
| RxPath.StepHeard | src/netchan.c:1100-1124 | isolation: in a handler with any number of channels, the only receiver of a stream gets what it would get alone |
| RxPath.PublishKeepsOrder | src/netchan.c:1058-1081 | the callback appends the frame's sample to what is queued |
| RxPath.FinishKeepsOrder | src/netchan.c:677-695 | a read takes the oldest queued sample, whole, and returns it exactly when the channel is ready and not removed |
| RxPath.TakenInOrder | src/netchan.c:672-695 | over every interleaving of frames, reads, notifications, stops and removals: samples taken are, in order, the first that arrived for the stream; reads return exactly those taken while the channel was usable, and at most one more after the stop |
| RxPath.ReadGetsNext | src/netchan.c:672-695 | progress at any point of any run: a read of a usable channel not stopped returns the oldest sample not taken, and blocks exactly when all were taken |
| RxPath.FifoIff | src/netchan.c:672-695 | nothing is lost before the stop and nothing returned after it, at every point of a run, exactly when no blocked read ends unusable (not ready, or removed) before the stop or usable after it |
| RxPath.FifoDelivery | src/netchan.c:672-695 | so with notifications and removals that leave blocked readers alone, samples returned are a prefix, payload and stamps, of what arrived |
| RxPath.QuietFifoIff | src/netchan.c:672-695 | without notifications, samples returned are always a prefix of what arrived, and none is ever lost or made up exactly when no blocked read ends, with a sample in the pipe, on a channel removed before its stop |
| RxPath.EndToEnd | src/netchan.c:526-541 | data and stamp put in by the talker are those the receiver's sample has, and the rebuilt capture is the talker's |
| RxPath.TalkerToReader | src/netchan.c:526-541 | over whole runs with frames lost on the way: samples returned before the stop hold data and capture times of the talker's updates, in its order, none twice |
| RxPath.UnreadyLosesSample | src/netchan.c:688-693 | clearing ready under a blocked reader loses a sample |
| RxPath.RemovalLosesSample | src/netchan.c:688-693 | removing the channel under a blocked reader loses a sample, and no read is admitted any more |
| RxPath.RemovedReaderExample | src/netchan.c:1201-1220 | open, block, remove, feed, read: one sample arrived and was taken, none returned |
| RxPath.RevivalReturnsJunk | src/netchan.c:442-449 | setting ready after the stop makes a blocked reader return the kick bytes |
| RxHandler.RxChannel.StdCallback | src/netchan.c:1058-1081 | performs the publish step in place |
| RxHandler.RxChannel.EnterRead | src/netchan.c:674-675 | refuses exactly a channel that is removed, not ready or stopping |
| RxHandler.RxChannel.FinishRead | src/netchan.c:677-729 | performs the finish step; data and stamps returned are those of the one sample delivered, the result is the number of bytes read |
| RxHandler.RxChannel.Stop | src/netchan.c:418-451 | stops an attached channel once and kicks the reader; leaves a removed one alone |
| RxHandler.RxChannel.Remove | src/netchan.c:1217-1218 | performs the removal step; the channel is not usable any more |
| RxHandler.Receiver.FeedPdu | src/netchan.c:1100-1124 | publishes into the channel of the earliest registration only; -EBADFD exactly when there is none |
| RxHandler.Receiver.OpenChannel | src/netchan.c:336-384 | performs the open step: a new channel, registered under its stream, ready at once without SRP |
| ChannelList.ListIntegrityIff | src/netchan.c:1152-1220 | the list is the added channels minus the removed in order at every point, exactly when none is added to a non-empty list whose tail was removed |
| ChannelList.LostChannelExample | src/netchan.c:1189-1198 | add, add, remove the last, add: the third channel is not listed |
| ChannelList.LinkedChannels.Add | src/netchan.c:1152-1164 | links behind the tail pointer, wherever that points |
| ChannelList.LinkedChannels.Remove | src/netchan.c:1179-1199 | takes the channel out of the chain, -1 exactly when it is not reached from the head |
| ChannelList.LinkedChannels.Unlink | src/netchan.c:1166-1178 | finds the channel in the chain and bypasses it, leaving all else |
| ChannelList.LinkedChannels.Length | src/netchan.c:1131-1141 | counts the channels reached from the head |
| ChannelList.LinkedChannels.Find | src/netchan.c:1237-1246 | the first listed channel of the stream, null exactly when none |
| Lifecycle.RunWF | src/netchan.c:1152-1235 | in every reachable state lists hold distinct, existing, attached channels of their kind |
| TalkerTrace.TalkerTraceShape | src/netchan_srp_client.c:85-91 | over every interleaving a talker's messages are advertisements and then at most one withdrawal; withdrawn exactly when stopping; silent without SRP |
| StopSafety.StoppingForever | src/netchan.c:418-432 | a channel keeps its identity, and once stopping stays so, or is gone |
| StopSafety.StoppedReadsRefused | src/netchan.c:674-675 | after a stop every later read and timed wait is refused, whatever is notified |
| StopSafety.StopStops | src/netchan.c:418-432 | chan_stop leaves an attached channel stopping and not ready |
| StopSafety.StepReady | src/netchan.c:1268-1277 | only a listener arriving for its stream makes a talker ready |
| StopSafety.StepUnready | src/netchan.c:1278-1289 | a ready talker stops being ready exactly by a leaving listener that finds it first, its own stop while attached, or a stop of all while listed |
| StopSafety.CreatedAdmits | src/netchan.c:319-328 | a channel just made admits waiting, and reading or sending exactly without SRP |
| StopSafety.StoppedSendsIff | include/netchan.h:881-892 | after a stop a send is admitted again exactly when a listener arrived for the stream while the talker was its first listed one |
| StopSafety.LateListenerExample | src/netchan.c:1275 | create, stop, listener: sends are admitted |
| TalkerAgreement.TalkersAgree | src/netchan.c:1268-1289 | over every SRP run a talker that is not stopping is ready exactly when the last listener notification that reached it was an arrival |
| TalkerAgreement.LeavingExample | src/netchan.c:1286 | create, arrival, leaving: sends are admitted and then refused |
| ListenerAgreement.ListenersAgree | src/netchan.c:1291-1321 | in SRP runs with distinct streams and any send failures, a listener that is not stopping is ready exactly when the last declaration sent was the ready one |
| ListenerAgreement.HearTalkerAgrees | src/netchan.c:1299-1302 | a talker notification keeps flag and declaration in step |
| HandlerLists.RunTable | src/netchan.c:376-377 | the table is the one built by the Rx channels created, whatever else happens |
| HandlerLists.IndexAgreesIff | src/netchan.c:1248-1266 | the indexed search equals the plain one exactly unless it finds a channel the table had no room for |
| HandlerLists.IndexIsSpeedUp | src/netchan.c:1250-1257 | with at most n Rx channels created the two always agree |
| HandlerLists.NewRxMeans | src/netchan.c:336-384 | a new listener ends the Rx list exactly when the tail is in place, owns its stream's lookup exactly when that was free and there was room, and touches nothing else |
| HandlerLists.DestroyedMeans | src/netchan.c:454-479 | a destroyed channel is gone, from both lists too; all others stay as and where they were; one farewell, only if it was attached and not stopped |
| HandlerLists.AllListedIff | src/netchan.c:1152-1235 | every attached channel is listed at every point exactly when none is added behind a left-over tail |
| HandlerLists.StopAllReachesListed | src/netchan.c:1392-1405 | nh_stop leaves every listed channel stopping and not ready |
| HandlerLists.StopAllIff | src/netchan.c:1392-1405 | after nh_stop a channel is stopping exactly when it is listed or was stopping; one not listed is untouched |
| HandlerLists.StopAllReachesAll | src/netchan.c:1392-1405 | and every attached one, in runs that add in place |
| HandlerLists.PrioritiesKept | src/netchan.c:1364-1385 | every listed Tx channel has the handler's priority for its class, over every run |
| HandlerLists.DefaultPriorities | src/netchan.c:973-974 | while none was set, TAS sockets have priority 3 and the others 2 |
| HandlerLists.PriorityTaken | src/netchan.c:1364-1385 | a priority is taken exactly when 0 to 8 with no Tx channel listed, and then goes to the next channel of that class only |
| HandlerLists.ReadyOnlyIfReached | src/netchan.c:319-328 | in SRP mode a talker is ready only if a listener has reached it |
| ListWalks.AnnouncePassMeans | src/netchan_srp_client.c:85-91 | a pass sends exactly one advertisement for each listed talker neither ready nor stopping, in list order, with its own stream, and does nothing else |
| ListWalks.StopAllSays | src/netchan.c:1392-1405 | under SRP a stop of all makes each listed talker not stopping yet withdraw, in list order, then each such listener leave; nothing else is sent |
| Declarations.MessagesNameOwnStream | src/netchan_srp_client.c:237-268 | over every run every message names the stream its channel was made with |
| Declarations.DeclaredIff | src/netchan.c:276-304 | over every run each listener declaration names a channel created as a listener, exactly when SRP is off or no creation failed half-made |
| Declarations.StepAdds | src/netchan.c:427-439 | every other step only adds messages, and lets only listeners declare |
| Declarations.HalfMadeExample | src/netchan.c:286-291 | a ready listener whose stream's last declaration is a leave sent by a failed talker |
| JointRuns.OneHandler | src/netchan.c:336-452 | over every joint run of signalling, frames and reads, a live listener has the same stream, handler pointer and flags in `Lifecycle` and in `RxPath` |
| JointRuns.SignalAgrees | src/netchan.c:1268-1321 | each signalling step acts on the receive path as the notifications, stops and removals it is projected to |
| JointRuns.ReadsAgree | src/netchan.c:672-675 | a read is admitted in one view exactly when in the other, removed listeners included |
| JointRuns.TablesAgree | src/netchan.c:1084-1097 | the same streams are found, for the same listeners |
| JointRuns.QuietFifo | src/netchan.c:672-695 | without talker notifications what is returned is a prefix of what arrived, through any creations, stops and removals, and exact precisely when no blocked read ends, with a sample in the pipe, on a listener removed before its stop |
| JointRuns.RemovedReaderExample | src/netchan.c:1201-1220 | listen, block, nh_remove_rx, a frame: the read returns nothing, without SRP and without a stop |
| SrpHandler.IdListCommutes | src/netchan.c:1152-1220 | adding to and removing from the linked list is adding to and removing from the list of numbers |
| SrpHandler.BeganFails | src/netchan.c:261-265 | destroying a channel that never got a socket nor into a list is the failed-creation step |
| SrpHandler.NetHandler.constructor | src/netchan.c:965-980 | an empty handler is the start state |
| SrpHandler.NetHandler.ChanStop | src/netchan.c:418-452 | the pointer update refines the stop step; reports true only the first time |
| SrpHandler.NetHandler.NewTalker | src/netchan_srp_client.c:237-268 | advertises exactly an attached channel that is not stopping |
| SrpHandler.NetHandler.NhAdd | src/netchan.c:1152-1164 | links the channel behind the tail pointer of the list of its kind and leaves the other list alone |
| SrpHandler.NetHandler.NhRemove | src/netchan.c:1179-1220 | unlinks by pointer and detaches exactly a listed channel, with the source's error codes |
| SrpHandler.NetHandler.ChanDestroy | src/netchan.c:454-479 | stop, unlink and free on the heap refine the destroy step; afterwards the channel is in neither chain and not live |
| SrpHandler.NetHandler.ChanCreate | src/netchan.c:209-273 | a fresh channel, attached, in no list, numbered next |
| SrpHandler.NetHandler.GiveUp | src/netchan.c:261-265 | making and destroying a half-made channel refines the failed-creation step |
| SrpHandler.NetHandler.ChanCreateTx | src/netchan.c:276-333 | refines the create step; a channel comes back exactly with pipe, socket and, under SRP, an advertisement handed over |
| SrpHandler.NetHandler.ChanCreateRx | src/netchan.c:336-384 | linking, probing the callback array and setting `ready` refine the create step; a channel comes back exactly with pipe and callback area |
| SrpHandler.NetHandler.NhRegCallback | src/netchan.c:1032-1053 | the probe loop on the array is the registration of the value model, its result ignored |
| SrpHandler.NetHandler.NhSetTxPrio | src/netchan.c:1364-1385 | refines the priority step and reports whether it was taken |
| SrpHandler.NetHandler.StopWalk | src/netchan.c:1394-1404 | the walk along `next` stops exactly the chain, in order |
| SrpHandler.NetHandler.NhStop | src/netchan.c:1392-1405 | both walks refine the stop-all step |
| SrpHandler.NetHandler.AnnouncePass | src/netchan_srp_client.c:85-91 | the walk along `next` sends one advertisement for each talker neither ready nor stopping, in order, and nothing else |
| SrpHandler.NetHandler.Walk | src/netchan.c:1237-1246 | finds the first listed channel of the stream |
| SrpHandler.NetHandler.RxFromSid | src/netchan.c:1248-1266 | walks the Rx list only when the array knows the stream |
| SrpHandler.NetHandler.NotifyTalker | src/netchan.c:1268-1289 | the first listed talker of the stream becomes ready on an arrival and not ready on a leave; refines the listener-heard step |
| SrpHandler.NetHandler.NotifyListener | src/netchan.c:1291-1321 | refines the talker-heard step and reports as the source does |
| HandlerHistory.Session.constructor | src/netchan.c:965-980 | a new handler has no calls behind it |
| HandlerHistory.Session.RunFacts | src/netchan.c:1152-1405 | of every object in use: lists and table in order, priorities kept, talker messages in shape, talkers and listeners of distinct streams in agreement with the network |
| HandlerHistory.Session.CreateTx | src/netchan.c:276-333 | the object stays at the end of the run of its calls, extended by the creation |
| HandlerHistory.Session.CreateRx | src/netchan.c:336-384 | the same for a listener |
| HandlerHistory.Session.Stop | src/netchan.c:418-452 | the same for a stop |
| HandlerHistory.Session.Remove | src/netchan.c:1179-1220 | the same for a removal |
| HandlerHistory.Session.Destroy | src/netchan.c:454-479 | the same for a destruction |
| HandlerHistory.Session.SetTxPrio | src/netchan.c:1364-1385 | the same for a priority |
| HandlerHistory.Session.StopAll | src/netchan.c:1392-1405 | the same for nh_stop |
| HandlerHistory.Session.Announce | src/netchan_srp_client.c:85-91 | the same for a pass of the announcer, with what it sends |
| HandlerHistory.Session.HearListener | src/netchan.c:1268-1289 | the same for a listener heard, with the flag it sets or clears |
| HandlerHistory.Session.HearTalker | src/netchan.c:1291-1321 | the same for a talker heard |
| MrpText.NumberValue | src/netchan_srp_helper.c:54-68 | printed digits denote the number printed |
| MrpText.Hex2RoundTrip | src/netchan_srp_helper.c:247-251 | a byte printed with two hex digits, either case, is read back |
| MrpText.Hex4RoundTrip | src/netchan_srp_helper.c:121-125 | a VLAN printed with at least four hex digits is read back |
| MrpText.DecRoundTrip | src/netchan_srp_helper.c:319-321 | an integer of either sign is read back |
| MrpStream.StreamMessageFits | src/netchan_srp_helper.c:52-68 | a stream declaration never exceeds 104 of the 128 characters |
| MrpStream.StreamMessageKind | src/netchan_srp_helper.c:52-68 | an advertisement starts with S++:, a withdrawal with S--:, and both are equal from position 4 on |
| MrpStream.StreamMessageInCase | src/netchan_srp_helper.c:54-68 | hex digits are printed in upper case |
| MrpMessages.TextTells | src/netchan_srp_helper.c:43-115 | the first four characters tell which of the four messages it is, and the stream is read at position 6 |
| MrpMessages.TextDetermines | src/netchan_srp_helper.c:43-115 | equal texts are the same message about the same stream |
| MrpStream.FindHexField | src/netchan_srp_helper.c:226-279 | the scan loops find the first tag, the next comma, and convert the bytes between |
| MrpStream.FindStreamId | src/netchan_srp_helper.c:226-254 | nothing below two characters, else the field tagged S |
| MrpStream.FindDst | src/netchan_srp_helper.c:256-279 | the field tagged A |
| MrpStream.FieldRoundTrip | src/netchan_srp_helper.c:226-279 | a tagged run of bytes is found and read whatever surrounds it |
| MrpStream.DeclarationRoundTrip | src/netchan_srp_helper.c:301-302 | both searches recover stream ID and destination from any declaration |
| MrpStream.StreamMessageRoundTrip | src/netchan_srp_helper.c:43-71 | in particular from the library's own messages, for all field values |
| MrpStream.StreamTailRoundTrip | src/netchan_srp_helper.c:54-68 | VLAN, frame size, interval, priority times 32 and latency are each recovered from their own tag |
| MrpStream.StreamMessageTail | src/netchan_srp_helper.c:43-71 | so from position 38 of the library's own messages |
| MrpDomain.DomainRoundTrip | src/netchan_srp_helper.c:406-418 | the scanning parser recovers any printed class, priority and VLAN |
| MrpDomain.DomainMessageRoundTrip | src/netchan_srp_helper.c:118-125 | from the class A message the handler's triple; from class B the class ID twice and the VLAN of class A |
| MrpDomain.DomainMessageKind | src/netchan_srp_helper.c:118-125 | registering starts with S+D:C=, unregistering with S-D:C=, and both are equal behind that |
| MrpDomain.DomainMessageInCase | src/netchan_srp_helper.c:118-125 | the VLAN is printed in lower case |
| MrpDomain.ClassBRecoveredIff | src/netchan_srp_helper.c:118-125 | the class B message yields the handler's triple exactly when priority equals class ID and both classes have one VLAN |
| MrpDomain.ClassBExample | src/netchan_srp_helper.c:118-125 | a handler just started announces class B with priority 0 instead of 2 |
| MrpDomain.ParsersAgreeIff | src/netchan_srp_helper.c:316-326 | the fixed-offset parser agrees with the scanning one on every VLAN exactly for one-digit class and priority |
| MrpDomain.ParsersDisagreeExample | src/netchan_srp_helper.c:316-326 | class 10 with priority 3, on any VLAN: the fixed-offset parser fails, the scanning one does not |
| MrpDomain.RepeatExample | src/netchan_srp_helper.c:199-225 | the triple (0, 2, 0) leaves class B invalid |
| MrpDomain.LastTripleWins | src/netchan_srp_helper.c:199-225 | each class ends with its last triple, valid exactly when it was or some triple differed from the first held |
| MrpDomain.ValidFromFresh | src/netchan_srp_client.c:109-112 | from the start class A is valid exactly once told; class B not by its defaults |
| MrpLines.ProcessTalkerMsg | src/netchan_srp_helper.c:331-484 | the goto loop computes the line-by-line reading and terminates |
| MrpLines.ReadListener | src/netchan_srp_helper.c:374-386 | the searches and conversions of a listener attribute |
| MrpLines.ReadDomain | src/netchan_srp_helper.c:407-418 | the searches and conversions of a domain attribute |
| MrpLines.ReadEvent | src/netchan_srp_helper.c:447-472 | join, new and leave events about listeners |
| MrpLines.ProcessIsFold | src/netchan_srp_helper.c:348-443 | on every buffer of well-formed L, D and T lines the effect is that of the lines in order |
| MrpLines.EventMeans | src/netchan_srp_helper.c:444-478 | a leave event notifies leaving, join and new events an arrival unless the substate is 0 or 1, others nothing |
| MrpLines.BufferDomains | src/netchan_srp_helper.c:406-428 | afterwards each class holds its last line; class A is valid from a fresh start exactly when an ID 6 line was there |
| MrpListener.ProcessListenerMsg | src/netchan_srp_helper.c:281-328 | prefix tests, both searches and the domain part, zeros when a field is not found |
| MrpListener.DeclarationNotifies | src/netchan_srp_helper.c:300-311 | a talker's declaration arriving as new, joined or left notifies exactly its stream and destination |
| MrpListener.NoFields | src/netchan_srp_helper.c:290-311 | a talker's message without a comma notifies stream 0 and destination 0 |
| MrpListener.JoinUpdates | src/netchan_srp_helper.c:316-326 | a domain join with one-digit class and priority yields exactly its triple |
| MrpEvents.BufferDrives | src/netchan_srp_helper.c:348-443 | a buffer of well-formed lines drives the handler as the listeners its L lines tell of: a channel is ready afterwards exactly when it was or is the first listed talker of such a stream; nothing else changes |
| MrpEvents.StoppedSendsByText | src/netchan_srp_helper.c:374-392 | a stopped talker may send again after a buffer exactly when a line tells of a listener for it |
| MrpEvents.EventDrives | src/netchan_srp_helper.c:444-478 | a leave event takes `ready` from the first listed talker of its stream, a join or new event gives it, any other does nothing |
| MrpEvents.DeclarationDrives | src/netchan_srp_helper.c:300-311 | a talker's declaration arriving as text makes the handler declare its listener and follow suit when that worked, and does nothing without one |
| Timespec.TimeBuf.Normalize | include/netchan_utils.h:12-20 | division and remainder by one second; a negative field is left alone |
| Timespec.TimeBuf.SubtractNs | include/netchan_utils.h:22-31 | exact; normalised exactly when one borrowed second suffices |
| Timespec.TimeBuf.AddNs | include/netchan_utils.h:33-39 | exact and normalised |
| Timespec.SlotTarget | src/netchan.c:575-582 | the normalised stamp of the slot minus 100us |
| Timespec.CbsTarget | src/netchan_socket.c:216-221 | the same instant below 2^63 ns plus 100us, with a negative field below 100us and from there on |
| Timespec.TargetsCompared | src/netchan_socket.c:216-221 | the two targets are equal exactly from 100us to 2^63 ns plus 100us |
| Timespec.InitTimer | src/netchan_utils.c:11-57 | none below 100us or on another clock; with base 0 always else; with a base exactly when at most one phase old; base, phase and clock are those asked for |
| Timespec.DefaultBase | src/netchan_utils.c:11-57 | with base 0 a timer is accepted exactly for a phase of at least 100us on one of the three clocks |
| Timespec.AgeLimit | src/netchan_utils.c:45-51 | a base is refused exactly when more than one phase old, on a clock older than a phase |
| Timespec.YoungClock | src/netchan_utils.c:45-51 | on a younger clock only bases near 2^64 are accepted |
| Timespec.YoungClockExample | src/netchan_utils.c:45-51 | half a second after boot a base of now is refused for a phase of one second |
| Timespec.PeriodicTimer.constructor | src/netchan_utils.c:26-54 | no cycles yet, deadline at the base |
| Timespec.PeriodicTimer.NextCycle | src/netchan_utils.c:67-74 | the deadline after n calls is base plus n phases, normalised |
| LogNames.NamesDifferIff | src/logger.c:231-240 | rotations 0 to k of a log write different files exactly when the name of rotation k fits 254 characters |
| LogNames.LogsDifferIff | src/logger.c:231-240 | the two logs never share a file exactly for paths below 254 characters, and always from there on |
| LogNames.AllDifferIff | src/logger.c:231-240 | all files of both logs up to rotation k differ exactly when the delay log's last name fits |
| LogNames.OverwrittenExample | src/logger.c:231-240 | with a path of 253 characters the second rotation overwrites the first; with 254 the delay log overwrites the entries at once |
| LogNames.OnDiskIff | src/logger.c:223-244 | after any run every file of both logs is on disk as written exactly when in each log files of one name have one content and not both have files under a path of 254 characters or more |
| LogNames.OnDiskIfFits | src/logger.c:223-244 | and so whenever the delay log's last name fits |
| LogBuffers.Accounted | src/logger.c:223-244 | written, live and lost entries add up to the logged ones |
| LogBuffers.ConservedIff | src/logger.c:223-270 | files in order followed by live entries are the logged entries exactly when nothing was live at a reset or at a rotation whose file did not open |
| DataLogger.EntryBuffer.Append | src/logger.c:255-265 | adds one row aligned across all nine columns and keeps the others |
| DataLogger.EntriesOfFrame | src/logger.c:272-289 | logged sent and received entries hold the frame's own stream, size, sequence number and stamp, and zero in the other side's columns |
| DataLogger.EntryBuffer.Lines | src/logger.c:181-192 | the print loop yields the live rows in order |
| DataLogger.DelayBuffer.Append | src/logger.c:300-304 | the same for the three delay columns |
| DataLogger.DelayBuffer.Lines | src/logger.c:211-216 | the same for the delay file |
| DataLogger.Logger.Conserved | src/logger.c:223-270 | on the object, at any time: files and live rows are what was logged exactly when no row was thrown away |
| DataLogger.Logger.FilesOnDisk | src/logger.c:223-244 | on the object: what its rotations wrote is on disk under the same exact condition |
| DataLogger.Logger.Log | src/logger.c:246-270 | stores exactly below capacity; columns and files stay what the calls so far prescribe |
| DataLogger.Logger.LogDelay | src/logger.c:291-309 | the same for wake-up delays |
| DataLogger.Logger.FlushTs | src/logger.c:169-197 | writes a file exactly when there is something to write and it opens |
| DataLogger.Logger.FlushWakeupDelay | src/logger.c:199-221 | the same for delays |
| DataLogger.Logger.FlushAndRotate | src/logger.c:223-244 | rotates both buffers under one number |
| DataLogger.Logger.ClearRows | src/logger.c:152-158 | empties both buffers |
| DataLogger.Logger.ResetLog | src/logger.c:160-167 | and so does the public call |

## Left out

- Sockets, ioctls, the PTP device, ftrace, memory locking and thread creation: I/O with nothing to prove.
- `_tas_send_now_wait` and `_cbs_send_now_wait`: they pass NULL on to code that dereferences it.
- TxPacing.TasChannel.SendAt: after a sum has wrapped the history starts afresh, so that the theorems on runs speak of calls between wraps.
- Floating-point rounding in the interval test: compared exactly.
- The logger beyond capacity: the source then locks a mutex it holds; the model reports the deadlock and stores nothing.
- ChannelList.LinkedChannels.Add: takes a channel that is in no list. Creation adds only such channels; `nh_add_tx` and `nh_add_rx` are exported and would link a listed channel into a cycle.
- SrpHandler.NetHandler.NhAdd: takes an attached channel that is in no list. Re-adding a removed channel through the exported functions, which lists it with a NULL handler pointer so that `nh_stop` passes it by, is not modelled.
- More than one thread reading the same channel.
- Switching SRP on or off while channels exist: `nh_set_srp` allows it, the model fixes the mode for a run.
- A failing mutex at src/netchan.c:238-242: `chan_destroy` then works with descriptors that are still 0. Failures of pipe, socket and callback memory are modelled.
- A full pipe, where the callback blocks, and failing `read` or `write` calls on it.
- Data races inside one library function: each is one step, a blocking read two.
- Freed memory: a destroyed channel's table entry and a tail pointer to it stay, as numbers.
- MRP text on which the source's searches run off the buffer or conversions fail: reported as undefined. Leading white space, a `0x` prefix and overflow in `scanf` conversions do not occur in the texts treated.
- VLAN join and leave messages: printing only.
- `nh_destroy`: it destroys each listed channel as modelled and frees the rest.
- Standalone setters, argument parsing, the C++ wrapper, terminal code and scripts.
