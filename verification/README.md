# Verification of BonePhone

BonePhone is a SIP telephone: a Java user agent and call control, and RAT, the audio tool in C
that carries the sound. This project models the parts of it that keep state or transform data,
and proves what they are for. `dafny verify dfyconfig.toml` checks everything (Dafny 4.11).

| file | what it models |
|---|---|
| `CallLegs.dfy` | one SIP call leg: the thirteen states, the listener's callbacks, failing sends |
| `SipSession.dfy` | a calling and a called leg joined by two in-order channels |
| `SipReinvite.dfy` | a second INVITE within a session |
| `SipClosing.dfy` | which of these sessions close, alone or with help, and which never can |
| `PortManager.dfy` | allocation of RTP/RTCP port pairs |
| `StateMachine.dfy` | the table of a call's state machine and how it is written |
| `CallControl.dfy` | any number of calls that share one media engine and one port manager |
| `CallObjects.dfy` | the objects of call control: event queue with lock and draining loop, call, engine |
| `CallTells.dfy` | what a call tells SIP and the engine, event by event and over every run |
| `PlayoutBuffer.dfy` | RAT's time-ordered buffer |
| `RedHeaders.dfy` | the headers of redundant audio (RFC 2198) and the walk over a packet |
| `RedCoder.dfy`, `RedObjects.dfy` | the redundancy coder, as functions and as the code's loops |
| `RedPlaced.dfy` | what decoding leaves in the buffer, whatever packets arrive |
| `RedLayers.dfy` | the packets of an encoder with any number of layers |
| `RedSpent.dfy`, `RedTheorem.dfy`, `RedLoss.dfy` | what a redundancy-coded talkspurt is after packet loss |
| `RedSpurts.dfy` | any number of talkspurts, one after the other |
| `Vanilla.dfy` | the plain coder that groups units into packets |
| `Bitstream.dfy` | the bit packer |
| `AudioFormat.dfy` | conversion of channels and sample types in eighty-byte chunks |
| `TransRing.dfy` | the transcoder's ring buffer and its clock |
| `Tokenizer.dfy`, `Sdp.dfy`, `Configuration.dfy` | tokens, rtpmap attributes, configuration files |
| `Arithmetic.dfy` | facts about products and quotients |
| `Options.dfy`, `ByteValues.dfy` | the optional value; bytes |

Where the code updates fields or loops over buffers the model is a class or a method with a
loop, proved to compute a function of the old state (`View()` gives a class's state as a value);
what the code is for is then proved about those functions, over every run. In a lemma, `hide`
keeps definitions that the proof does not need away from the solver.

## What the proofs found

The code was modelled as it is. Where an intended property fails, the condition under which it
holds is proved, and an input on which it fails is given.

- **Redundant history.** cc_rdncy.c:473-477 keeps frames for `pkts_off` units, while the encoder
  reaches back `pkts_off * upp` units. The loss theorem holds for every packet size and offset if
  and only if the history h is at least `(m - 1) * upp` units (`RedLoss.SurvivesLoss`,
  `RedLoss.SafeExactly`); the h = m of the code is enough exactly with one unit a packet, an offset
  of at most one packet, or both equal to two (`RedTheorem.SafeSettings`). Otherwise the first
  redundant block starts at the oldest unit left, `Lost`, and is decoded in place of units 0 and on;
  the packets whose block would begin among the units so sent carry none; and from
  `Lost + upp` on every block is the right one (`RedTheorem.EncodeRun`, `RedLoss.KeptExactly`,
  `RedLoss.HistoryTooShort`).
- **Stale packet time.** After a change of codec inside a talkspurt the plain coder gives the next
  packet the time of the previous one. An output buffer that still holds that one refuses it
  (`Vanilla.KeptUnlessHurried`, `Vanilla.CodecChangeLosesPacket`); transmit.c drains the buffer after
  each call, and then the packet is sent and the decoder finds its time taken
  (`Vanilla.RoundTripDrained`). Either way its units are lost. This is a property of the coder's
  interface: transmit.c:527-575 hands over whole packets by one set of encodings.
- **First read of the transcoder ring.** It forgets how much is buffered but not where, so what
  was written before it is played late, in place of what is written after it, and the ring is out of
  step until the device is drained (`TransRing.FirstReadKeeps`, `TransRing.LateForEver`).
- **Sessions that cannot be closed.** A leg that has hung up ignores the other's BYE, and a leg that is
  over ignores everything. Two legs that hang up at once, a caller in CL_cancel whose callee hangs up
  after the ACK, and a callee that accepts a caller who hung up in CL_calling never both end
  (`SipClosing.CanCloseExactly`, `SipClosing.CallerGone`, `SipClosing.CrossedByes`). Every other
  session can be closed, and `SipClosing.ClosesAloneExactly` says which need no further help.
- **Overflowing write.** After a write that does not fit not all of the newest bytes are left, but only
  as many as there were too many, going round (`TransRing.WriteOverflows`).
- **A call's own error.** GEN_ERROR ends a call without a word to SIP and keeps its ports and the engine,
  wherever it stands. Every other end of a call that SIP still knows of is told, unless it is the other
  side that has hung up (`CallTells.EndIsTold`).
- **Hanging up a re-INVITE twice.** The second time repeats the INVITE, the last request that opened a
  transaction, in place of the BYE (`SipReinvite.ReinviteHungUp`).
- **Averaging signed bytes.** Signed samples of eight bits are halved as unsigned ones; the average
  is wrong exactly when the signs differ (`AudioFormats.MeanOfSigned`).
- **Hang-up callback.** It precedes the reply to a BYE, so a lost reply makes it fire again
  (`CallLegs.HangupAtMostOnce`, `CallLegs.TwoHangups`).
- **Bare codec state.** Peek accepts a packet of codec state alone, as holding no unit, on which the
  decoder reads past the end (`Vanilla.PeekOfBareState`).
- **First port.** freePort releases every pair but the first (PortManager.java:38), so the first
  port is given out once only (`PortManagers.ReleaseFrees`, `PortManagers.FirstPortOnce`).
- **Word loads.** The decoder loads four bytes also at the one-byte primary header, which reads past
  a packet with fewer than three bytes of data (`RedHeaders.WordsInside`). The first of the four
  decides (`RedHeaders.FieldsOfBytes`), and the model reads that one alone.

MED_STOP and SIP_INVITE on a call without local media would throw out of the event loop and leave
its lock taken for ever; `CallControl.DrainOk` shows that no run gets there.

## Reading the model

- SIP: a message is its kind, method, status code and transaction; a transaction stands for what
  the SIP stack remembers. `Env` says how many sends succeed in a step. In the product of two legs
  sends succeed and the caller invites once; hanging up in CL_calling and hanging up on both sides
  at once are among its runs. Time-outs and retransmissions of the stack are not.
- Call control: one trigger of one call is a step; steps of different calls interleave freely.
  `Faults` are the exceptions, and the automatic answer, of one step.
- RAT: timestamps and integers are unbounded; the codec table is a parameter (`Codecs`), and so are
  the mu-law and A-law tables (`Tables`). `None` stands for a failed assertion or, in a decoder, for
  reading past the end of a packet. A doubly linked playout buffer is a sequence, an iterator an
  index into it.
- Audio conversion: the loops of the source differ only in the body, which is one function of the
  encoding here (`Remix`, `Recode`). Samples of sixteen bits are two bytes, low byte first.
  The case from DEV_U8 to mu-law runs on into the two cases below it (audio_fmt.c:381-396), which find
  the source used up and change nothing.
- Configuration: one byte of a file is one character; lines may end in LF or CR LF.

## Model

| member | source | states |
|---|---|---|
| `CallLegs.CallLeg.constructor` | BonePhone/SipUserAgent/CallLeg.java:55-97 | a new leg is in CL_initial and has sent and reported nothing |
| `CallLegs.CallLeg.Send` | BonePhone/SipUserAgent/CL_call_proceed.java:42-51 | a send either reaches the provider, and then the message is on the wire, or throws, and then the leg is unchanged |
| `CallLegs.CallLeg.SendNewRequest` | BonePhone/SipUserAgent/CL_initial.java:38-51 | after a request has gone out its transaction is the current one and can be found again; a throwing provider leaves the old one |
| `CallLegs.CallLeg.Invite` | BonePhone/SipUserAgent/CL_established.java:38-51 | invite() in every state equals `OnInvite`: first INVITE, re-INVITE, repetition, or nothing |
| `CallLegs.CallLeg.Hangup` | BonePhone/SipUserAgent/CL_established.java:53-66 | hangup() in every state equals `OnHangup`: silent end, CANCEL, BYE, repeated BYE, or nothing |
| `CallLegs.CallLeg.Accept` | BonePhone/SipUserAgent/CL_proceed.java:95-113 | accept() answers 200 and waits for the ACK only if the answer went out; the status is set either way |
| `CallLegs.CallLeg.Decline` | BonePhone/SipUserAgent/CL_recall_proceed.java:115-132 | decline() answers 603; a declined re-INVITE leaves the session up, a declined INVITE fails it |
| `CallLegs.CallLeg.ProcessResponse` | BonePhone/SipUserAgent/CL_calling.java:55-104 | a response does in each of the thirteen states what `OnResponse` says, failing sends included |
| `CallLegs.CallLeg.ProcessInviteAnswer` | BonePhone/SipUserAgent/CL_modify_proceed.java:55-109 | the four states that wait for an INVITE answer share three branches: provisional, 2xx with ACK, failure with ACK |
| `CallLegs.CallLeg.ProcessByeAnswer` | BonePhone/SipUserAgent/CL_bye.java:55-87 | a final BYE response reports the hang-up and terminates; a provisional one only sets the status |
| `CallLegs.CallLeg.ProcessCancelling` | BonePhone/SipUserAgent/CL_cancel.java:45-109 | the cancel race: CANCEL repeated on 1xx, ACK and BYE on a late 2xx, ACK on a failure |
| `CallLegs.CallLeg.ProcessInvite` | BonePhone/SipUserAgent/CL_initial.java:95-147 | an INVITE is answered 482, 180 or 404 by the loop, address and registration tests, and the next state depends on the answer having gone out |
| `CallLegs.CallLeg.ProcessBye` | BonePhone/SipUserAgent/CL_established.java:209-231 | the listener is told before the reply is sent, so a lost reply leaves an established leg that has already reported the hang-up |
| `CallLegs.CallLeg.ProcessCancel` | BonePhone/SipUserAgent/CL_proceed.java:63-88 | 200 to the CANCEL, then 487 to the INVITE; only both together end the leg |
| `CallLegs.CallLeg.ProcessAck` | BonePhone/SipUserAgent/CL_success.java:68-71 | an ACK establishes a leg that accepted and terminates one that refused |
| `CallLegs.StepCallbacks` | BonePhone/SipUserAgent/CL_calling.java:55-104 | one step fires exactly the one callback that a listed branch guard names - hang-up, notification or error - or none; failed and terminated legs stay so and stay silent |
| `CallLegs.StepSends` | BonePhone/SipUserAgent/CL_cancel.java:45-109 | what each input makes a leg send, by kinds of states: messages go out in order up to the first the provider refuses |
| `CallLegs.StepState` | BonePhone/SipUserAgent/CL_recall_proceed.java:63-132 | where each input leads, by kinds of states; a step that cannot send all it has to leaves the leg in its state |
| `CallLegs.StepTransaction` | BonePhone/SipUserAgent/CallLeg.java:348-362 | the current transaction is that of the last request opened or taken, and the leg remembers those it opened |
| `CallLegs.StepStatus` | BonePhone/SipUserAgent/CallLeg.java:221-228 | the status is that of the last response taken, or of the user's last answer to an INVITE |
| `CallLegs.NotifyAccount` | BonePhone/SipUserAgent/CallLeg.java:530-538 | over any history, with sends failing anywhere, the listener is notified once for each entry into a session by a 2xx and once for each INVITE offered to the user, and hears of an error once for each INVITE that fails within a session |
| `CallLegs.AckAccount` | BonePhone/SipUserAgent/CL_terminated.java:45-69 | over any history there goes out one ACK for each final response to an INVITE that comes where one is to be acknowledged, and no other |
| `CallLegs.HangupAccount` | BonePhone/SipUserAgent/CallLeg.java:540-543 | over any history the hang-up callbacks number the lost BYE replies plus at most one, and that one is the end of the leg |
| `CallLegs.CallbacksAt` | BonePhone/SipUserAgent/CL_established.java:209-231 | over any history, by the events that fire it: the callback fires never if no event is a lost BYE reply or an ending, and at most once if and only if no lost reply is followed by another or by an ending |
| `CallLegs.HangupAtMostOnce` | BonePhone/SipUserAgent/CL_established.java:209-231 | the callback fires at most once if and only if no lost reply to a BYE is followed by another lost reply or by an ending that reports a hang-up; so always when none is lost |
| `CallLegs.OverIsFinal` | BonePhone/SipUserAgent/CL_failed.java:38-82 | no input whatever, with sends failing anywhere, takes a leg out of the set of CL_failed and CL_terminated |
| `CallLegs.TwoHangups` | BonePhone/SipUserAgent/CL_established.java:209-231 | a concrete history with one lost BYE reply in which the callback fires twice |
| `SipSession.LegGetsFinal` | BonePhone/SipUserAgent/CL_terminated.java:45-69 | in whatever state a final INVITE response finds the caller it is acknowledged, and a late 2xx after CANCEL is followed by BYE |
| `SipSession.LegGetsInvite` | BonePhone/SipUserAgent/CL_initial.java:95-147 | the three answers to a first INVITE and the states they lead to |
| `SipSession.LegIsCancelled` | BonePhone/SipUserAgent/CL_proceed.java:63-88 | a ringing leg answers a CANCEL with 200 and then its INVITE with a failure |
| `SipSession.LegWaits` | BonePhone/SipUserAgent/CL_success.java:38-82 | a leg that waits for an ACK ignores a late CANCEL and sends nothing |
| `SipSession.LegInSession` | BonePhone/SipUserAgent/CL_bye.java:35-117 | once the ACK is in, a leg answers a BYE, repeats its own, and sends nothing else |
| `SipSession.LegHandshake` | BonePhone/SipUserAgent/CL_established.java:53-66 | a leg comes to talk only by getting a 2xx, which it acknowledges, or an ACK |
| `SipSession.AnsweredLast` | BonePhone/SipUserAgent/CL_cancel.java:54-77 | delivering the final response puts its ACK on the wire behind any CANCEL |
| `SipSession.AckSentUp` | BonePhone/SipUserAgent/CL_success.java:58-71 | delivering what precedes the ACK keeps it in flight; delivering the ACK releases the callee |
| `SipSession.HandshakeMeans` | BonePhone/SipUserAgent/CallLeg.java:274-325 | the handshake counter is 3 only if INVITE, a later 2xx and a still later ACK are in the history |
| `SipSession.PhaseKept` | BonePhone/SipUserAgent/CL_cancel.java:45-109 | the six phases of the joint protocol are closed under every action of either user and either channel |
| `SipSession.BookkeepingKept` | BonePhone/SipUserAgent/CallLeg.java:348-362 | the current transaction of a leg that has not been answered stays that of its INVITE |
| `SipSession.InvKept` | BonePhone/SipUserAgent/CL_call_proceed.java:55-109 | the joint invariant of both legs, both channels and the history is inductive |
| `SipSession.Reachable` | BonePhone/SipUserAgent/CallLeg.java:274-325 | every state of every run satisfies the joint invariant |
| `SipSession.NeverStranded` | BonePhone/SipUserAgent/CL_cancel.java:54-77 | in every reachable state a callee waiting for an ACK either has its final answer in flight, last in the channel and the only final answer there, or the ACK in flight back |
| `SipSession.AckArrives` | BonePhone/SipUserAgent/CL_terminated.java:45-69 | from every reachable state deliveries alone, of no user doing anything, bring a waiting callee its ACK |
| `SipSession.DeliveryHelps` | BonePhone/SipUserAgent/CL_terminated.java:45-69 | while the callee waits each delivery leaves strictly less to deliver |
| `SipSession.EstablishedTogether` | BonePhone/SipUserAgent/CL_established.java:53-66 | an established caller talks to a callee that is accepting, established or saying BYE |
| `SipSession.EstablishedAfterHandshake` | BonePhone/SipUserAgent/CL_calling.java:55-104 | whenever either side is established INVITE, 2xx and ACK have been sent before, in that order (RFC 3261 section 13) |
| `SipReinvite.ReinviteAnswered` | BonePhone/SipUserAgent/CL_modify_proceed.java:55-109 | a leg that invites again is back in its session by any final answer, after any provisional ones, with one ACK, and tells the listener which it was |
| `SipReinvite.ReinviteOffered` | BonePhone/SipUserAgent/CL_recall_proceed.java:63-132 | a leg that is invited again rings, gives one final answer and is back in its session with the ACK, whether the change is accepted, declined or called off |
| `SipReinvite.ReinviteRefused` | BonePhone/SipUserAgent/CL_established.java:155-207 | an INVITE for somebody else is refused and the session goes on; one that has come round ends this side |
| `SipReinvite.ReinviteHungUp` | BonePhone/SipUserAgent/CL_modify.java:50-63 | hanging up during a re-INVITE sends a BYE on its transaction, or a CANCEL after a provisional response; hanging up again repeats the INVITE in place of the BYE |
| `SipReinvite.Repeated` | BonePhone/SipUserAgent/CL_calling.java:35-48 | inviting or hanging up again before an answer repeats the request under a new transaction |
| `SipReinvite.SessionChanged` | BonePhone/SipUserAgent/CL_recall_proceed.java:95-132 | both legs and both channels together: a session survives a second INVITE, accepted or declined, with nothing left on the way and both listeners told |
| `SipClosing.LedgerReachable` | BonePhone/SipUserAgent/CL_established.java:209-231 | in every reachable state a leg that has sent a BYE has it, or its answer, on the way, unless the other leg has hung up too |
| `SipClosing.DeliveryLightens` | BonePhone/SipUserAgent/CL_cancel.java:54-77 | every delivery, in whatever states the two legs are, leaves less to deliver, so deliveries come to rest |
| `SipClosing.ClosesAloneExactly` | BonePhone/SipUserAgent/CL_bye.java:55-97 | exactly in which states deliveries alone, in any order, bring both legs to CL_terminated |
| `SipClosing.DanglingForEver` | BonePhone/SipUserAgent/CL_bye.java:94-97 | from a dangling session no run whatever ends with both legs in CL_terminated |
| `SipClosing.BringsToEnd` | BonePhone/SipUserAgent/CL_established.java:209-231 | from any other session some run does |
| `SipClosing.CanCloseExactly` | BonePhone/SipUserAgent/CL_bye.java:55-97 | a session can still be closed if and only if it is not dangling: the caller over with a callee that has accepted, or two legs that have both hung up and whose answer to a BYE is not on its way |
| `SipClosing.CallerGone` | BonePhone/SipUserAgent/CL_calling.java:50-53 | a concrete run to a dangling session: the caller hangs up before the callee rings, and the callee accepts |
| `SipClosing.CrossedByes` | BonePhone/SipUserAgent/CL_bye.java:94-97 | so does every established session in which both sides hang up at once |
| `PortManagers.GetPortGives` | BonePhone/bonephone/PortManager.java:13-32 | getPort returns an even port of a free pair, marks that pair and no other, and throws exactly when every pair is busy |
| `PortManagers.GetPortCloses` | BonePhone/bonephone/PortManager.java:13-32 | every successful getPort hands out a free pair or brings the search strictly closer to it |
| `PortManagers.ReleaseKeeps` | BonePhone/bonephone/PortManager.java:37-43 | freePort makes no free pair busy and moves no search position |
| `PortManagers.ReleaseFrees` | BonePhone/bonephone/PortManager.java:37-43 | releasing a busy pair frees it and changes nothing else, if and only if it is not the first pair |
| `PortManagers.FirstPairGone` | BonePhone/bonephone/PortManager.java:37-43 | once the first pair is busy no run of allocations and releases hands it out again |
| `PortManagers.FirstPortOnce` | BonePhone/bonephone/PortManager.java:13-43 | a new manager gives out its first port first, and then never again |
| `PortManagers.CloserUntilHandedOut` | BonePhone/bonephone/PortManager.java:13-32 | over any run of allocations and releases the cyclic distance to a pair that stays free shrinks with every success |
| `PortManagers.BoundedWaiting` | BonePhone/bonephone/PortManager.java:13-32 | a pair that stays free is handed out within as many successes as there are pairs |
| `PortManagers.Allot` | BonePhone/bonephone/PortManager.java:13-32 | the flags of each pair stay equal under allocation |
| `PortManagers.Release` | BonePhone/bonephone/PortManager.java:37-43 | the flags of each pair stay equal under release |
| `PortManagers.Even16` | BonePhone/bonephone/PortManager.java:51-53 | masking with 65534 takes off the parity and every multiple of 65536, so the result is even and within sixteen bits |
| `PortManagers.PortManager.constructor` | BonePhone/bonephone/PortManager.java:49-59 | all ports are free; first port and count are rounded down to even, and there is one pair at least |
| `PortManagers.PortManager.GetPort` | BonePhone/bonephone/PortManager.java:13-32 | the object computes `Allot` |
| `PortManagers.PortManager.Scan` | BonePhone/bonephone/PortManager.java:15-30 | one scanning loop stops at the first free even index of its range |
| `PortManagers.PortManager.FreePort` | BonePhone/bonephone/PortManager.java:37-43 | the object computes `Release`, so the first port is never released |
| `StateMachines.StateMachine.AddPath` | BonePhone/bonephone/StateMachine.java:64-71 | a path overwrites its cell and forgets the actions there |
| `StateMachines.StateMachine.AddAction` | BonePhone/bonephone/StateMachine.java:94-107 | an action goes to the end of the cell written last |
| `StateMachines.StateMachine.AddGlobalPath` | BonePhone/bonephone/StateMachine.java:78-86 | a global path changes the cells of one event in every state and no other cell |
| `StateMachines.StateMachine.AddRow` | BonePhone/bonephone/Call.java:411-418 | one path with its actions changes one cell |
| `StateMachines.StateMachine.Configure` | BonePhone/bonephone/Call.java:386-513 | the calls that fill the table leave in every cell what `Transition` says, and nothing in the others |
| `CallControl.TriggerPosts` | BonePhone/bonephone/StateMachine.java:121-140 | handling an event posts only events of lower rank, together lighter than it |
| `CallControl.HandleLightens` | BonePhone/bonephone/IPT_Event.java:42-46 | every turn of the draining loop makes the queue lighter, whatever it posts |
| `CallControl.CellShape` | BonePhone/bonephone/Call.java:386-513 | no cell holds more than three actions, and GEN_ERROR has none |
| `CallControl.LsdpOk` | BonePhone/bonephone/Call.java:68-77 | a failed MED_LSDP posts GEN_ERROR and leaves the call as it was; a successful one holds a pair nobody held |
| `CallControl.StopOk` | BonePhone/bonephone/Call.java:96-101 | MED_STOP gives up the engine and the pair of this call and touches no pair of another |
| `CallControl.HandleOk` | BonePhone/bonephone/StateMachine.java:121-140 | every handled event keeps the call in order and is considerate of all other calls |
| `CallControl.DrainOk` | BonePhone/bonephone/IPT_Event.java:34-49 | draining to the end leaves an empty queue, throws nothing out of the loop and takes nothing from other calls |
| `CallControl.TurnKeepsInv` | BonePhone/bonephone/MediaControl.java:32-39 | one trigger of one call keeps the invariant of all |
| `CallControl.InvKept` | BonePhone/bonephone/Call.java:523-526 | every move - a new call, an outside event, a turn - keeps the joint invariant |
| `CallControl.Reachable` | BonePhone/bonephone/Call.java:523-526 | every state of every interleaving of any number of calls satisfies it |
| `CallControl.OneOwner` | BonePhone/bonephone/MediaControl.java:32-39 | a call with MED_AVL pending or in ST_ACTIVE owns the engine, so no two calls are ever active |
| `CallControl.PortsExclusive` | BonePhone/bonephone/Call.java:186-204 | media of distinct calls name different pairs, all marked busy, and a drained call that is calling, ringing or active has one |
| `CallControl.TurnSparesOthers` | BonePhone/bonephone/Call.java:96-101 | no turn of one call, MED_STOP after a failed MED_LSDP included, frees or reassigns a pair another call holds |
| `CallControl.ErrorAndDeleteClosed` | BonePhone/bonephone/Call.java:409-513 | ERROR and DELETE are closed under every event and run no actions |
| `CallTells.StateAfter` | BonePhone/bonephone/Call.java:409-513 | which events lead a call to which state, by kinds of states and events, whatever its actions do |
| `CallTells.TellsExactly` | BonePhone/bonephone/Call.java:63-182 | exactly which commands to SIP and to the engine one event gives, in order: an answer or an invitation, the engine, the end of the call; by what the event means, not by the cells of the table |
| `CallTells.LeavesExactly` | BonePhone/bonephone/Call.java:68-101 | all else a turn leaves: events posted, owner of the engine, port pair and pairs in use, failures included |
| `CallTells.TurnTells` | BonePhone/bonephone/StateMachine.java:121-140 | what a call has told since it came to its state fits that state, whatever it handles |
| `CallTells.ReachableTells` | BonePhone/bonephone/Call.java:386-513 | that holds of every call in every reachable world |
| `CallTells.ConnectedAfterAnswer` | BonePhone/bonephone/Call.java:430-459 | in every reachable world an active call with no event of its own left has started the engine directly after it has accepted an INVITE, or sent one and nothing since |
| `CallTells.RejectedUnanswered` | BonePhone/bonephone/Call.java:453-454 | in every reachable world a call is declined exactly when its user rejects it while it rings, unaccepted, or when it has just come in and offers no codec |
| `CallTells.EndIsTold` | BonePhone/bonephone/Call.java:409-513 | in every reachable world a call that ends hangs up or declines unless the other side has hung up or SIP has nothing of it any more; but its own error tells nobody and keeps ports and engine |
| `CallObjects.Queue.Insert` | BonePhone/bonephone/Queue.java:11-15 | the queue grows at its end |
| `CallObjects.Queue.Fetch` | BonePhone/bonephone/Queue.java:18-26 | the oldest element leaves the queue; an empty queue gives null and stays empty |
| `CallObjects.MediaControl.IsAvailable` | BonePhone/bonephone/MediaControl.java:32-39 | the engine goes to the caller exactly if nobody else has it, and engine and owner stay together |
| `CallObjects.MediaControl.Stop` | BonePhone/bonephone/MediaControl.java:70-74 | engine and owner are both gone, whoever asks |
| `CallObjects.Call.constructor` | BonePhone/bonephone/Call.java:386-513 | a new call has a configured table, an empty queue and an open lock |
| `CallObjects.Call.Set` | BonePhone/bonephone/IPT_Event.java:34-49 | run to completion: under the lock set() only queues; otherwise it computes `Drain` and terminates; an outside event to a call in order ends without a crash, with the queue empty, the lock open, every posted event handled in the order posted, and the call in order again |
| `CallObjects.Call.TakeTurn` | BonePhone/bonephone/IPT_Event.java:42-46 | one turn handles exactly the oldest event, with no handler nested in it, and leaves a lighter queue |
| `CallObjects.Call.FetchNext` | BonePhone/bonephone/IPT_Event.java:43-43 | the event handled next is the one inserted first |
| `CallObjects.Call.Trigger` | BonePhone/bonephone/StateMachine.java:121-140 | the object looks its actions up in the table and computes `CallControl.Trigger` |
| `CallObjects.Call.RunActions` | BonePhone/bonephone/StateMachine.java:131-134 | actions run in order up to the first that fails |
| `CallObjects.Call.DoAction` | BonePhone/bonephone/Call.java:63-182 | each action does to the call, the engine and the port manager what `Act` says |
| `CallObjects.Call.FindPorts` | BonePhone/bonephone/Call.java:68-77 | MED_LSDP: a pair for the call, or its own error |
| `CallObjects.Call.StopMedia` | BonePhone/bonephone/Call.java:96-101 | MED_STOP gives up engine and ports, or throws without local media |
| `CallObjects.Call.EnterNext` | BonePhone/bonephone/StateMachine.java:135-139 | the new state is entered once, after the actions; entering RINGING may queue the automatic answer |
| `PlayoutBuffers.PlayoutBuffer.Add` | BonePhone/rat-4.2.20/rat/playout.c:167-204 | a unit for a new time is added in order, one for a time that is taken is refused; every other time keeps its unit |
| `PlayoutBuffers.PlayoutBuffer.Find` | BonePhone/rat-4.2.20/rat/cc_rdncy.c:714-743 | the retreating search finds the unit of a time if there is one |
| `PlayoutBuffers.PlayoutBuffer.DetachHead` | BonePhone/rat-4.2.20/rat/playout.c:368-414 | the oldest unit is taken off |
| `PlayoutBuffers.PlayoutBuffer.Audit` | BonePhone/rat-4.2.20/rat/playout.c:493-535 | exactly the units more than the history older than the iterator are dropped |
| `PlayoutBuffers.ContentsOfInsert` | BonePhone/rat-4.2.20/rat/playout.c:167-204 | inserting in order changes the buffer, seen as a map from times, at one time only |
| `RedHeaders.MacrosRoundTrip` | BonePhone/rat-4.2.20/rat/cc_rdncy.c:37-43 | what the set macros put into the three bit fields the get macros take out, on bit vectors |
| `RedHeaders.MacrosAdd` | BonePhone/rat-4.2.20/rat/cc_rdncy.c:37-43 | the or-ed header is the sum of its fields |
| `RedHeaders.HeaderBytes` | BonePhone/rat-4.2.20/rat/cc_rdncy.c:133-170 | the four bytes of a header give back payload type, offset and length, and are marked as redundant |
| `RedHeaders.FieldsOfBytes` | BonePhone/rat-4.2.20/rat/cc_rdncy.c:861-864 | any four bytes with the top bit set are the header of the fields read from them |
| `RedHeaders.ParseOfLayout` | BonePhone/rat-4.2.20/rat/cc_rdncy.c:816-882 | the two-pointer walk recovers every payload type, offset and block of any packet that add_hdr and stage 3 lay out (RFC 2198 section 3), empty redundant blocks and empty primary data included |
| `RedHeaders.LayoutOfParse` | BonePhone/rat-4.2.20/rat/cc_rdncy.c:816-882 | the converse: bytes that the walk accepts are the layout of what it found, so the format has no second reading |
| `RedHeaders.WalkPacket` | BonePhone/rat-4.2.20/rat/cc_rdncy.c:824-882 | the skipping loop and the walking loop together compute `Parse`; of the primary header only its one byte is read |
| `RedHeaders.WordsInside` | BonePhone/rat-4.2.20/rat/cc_rdncy.c:824-875 | the code loads a word of four bytes at every header; these lie in the packet if and only if at least three bytes of data follow the primary header |
| `RedHeaders.WalkBlocks` | BonePhone/rat-4.2.20/rat/cc_rdncy.c:861-876 | the loop with its two pointers computes `Walk` |
| `RedPlaced.AlwaysTidy` | BonePhone/rat-4.2.20/rat/cc_rdncy.c:681-711 | after any sequence of packets, well formed or not, in any order, no unit has more than MAX_MEDIA_UNITS codings or two by one codec, a native one is only its last, and each is by a codec that some packet offered beside a primary one it is compatible with |
| `RedPlaced.DecodingKeeps` | BonePhone/rat-4.2.20/rat/cc_rdncy.c:681-711 | no later packet changes or removes a coding, or adds one to a unit that has been decoded |
| `RedPlaced.BlockDecoded` | BonePhone/rat-4.2.20/rat/cc_rdncy.c:746-813 | a block whose codec does not go with the primary one changes nothing; the frames of any other go to consecutive units up to exactly the first that had no room |
| `RedPlaced.PacketIgnored` | BonePhone/rat-4.2.20/rat/cc_rdncy.c:824-851 | packets without redundancy or of an unknown codec are ignored; bytes that begin like a redundant packet and are none make the decoder run past their end |
| `RedCoder.AcceptedExactly` | BonePhone/rat-4.2.20/rat/cc_rdncy.c:779-812 | frames are placed up to the first whose unit was full, had a coding by the codec or had been decoded, in the buffer before the block |
| `RedCoder.NothingAfterRefusal` | BonePhone/rat-4.2.20/rat/cc_rdncy.c:779-812 | once a frame of a block is refused no later frame of the block is placed anywhere |
| `RedCoder.SplitPlacesPrefix` | BonePhone/rat-4.2.20/rat/cc_rdncy.c:746-813 | splitting a block puts a prefix of its frames at consecutive times, one more coding in each of those units, and changes nothing else |
| `RedObjects.RedundancyEncoder.MakePdu` | BonePhone/rat-4.2.20/rat/cc_rdncy.c:173-226 | make_pdu moves the data of up to upp units out of the buffer, state first, and stops at a unit without the codec |
| `RedObjects.RedundancyEncoder.Rewind` | BonePhone/rat-4.2.20/rat/cc_rdncy.c:253-258 | the iterator goes back to the layer or to the start of the buffer |
| `RedObjects.RedundancyEncoder.Gather` | BonePhone/rat-4.2.20/rat/cc_rdncy.c:247-269 | stage 1 collects the layers the buffer reaches back to |
| `RedObjects.RedundancyEncoder.Headers` | BonePhone/rat-4.2.20/rat/cc_rdncy.c:280-307 | stage 2 writes one header a redundant block, all with the last layer's codec and offset, and an empty one first if layers are missing |
| `RedObjects.RedundancyEncoder.Output` | BonePhone/rat-4.2.20/rat/cc_rdncy.c:229-327 | the three stages and the audit compute `Output`, or an assertion fails |
| `RedObjects.RedundancyEncoder.Encode` | BonePhone/rat-4.2.20/rat/cc_rdncy.c:345-396 | one unit is buffered, sent with its packet, or flushes the buffer; the time of the last unit is kept |
| `RedObjects.RedundancyEncoder.EncodeUnits` | BonePhone/rat-4.2.20/rat/cc_rdncy.c:329-398 | the whole loop drains the input buffer and sends what `EncodeAll` does, or an assertion fails |
| `RedObjects.TrimIs` | BonePhone/rat-4.2.20/rat/playout.c:493-535 | the audit loop removes what `Trim` drops |
| `RedObjects.HasRoom` | BonePhone/rat-4.2.20/rat/cc_rdncy.c:681-711 | a unit takes a coding if it has space, none by that codec, and its newest is not the native one |
| `RedObjects.RedundancyDecoder.GetOrCreate` | BonePhone/rat-4.2.20/rat/cc_rdncy.c:714-743 | afterwards there is a unit for the time and every other unit is as before |
| `RedObjects.RedundancyDecoder.PlaceUnit` | BonePhone/rat-4.2.20/rat/cc_rdncy.c:681-711 | the object computes `Place` |
| `RedObjects.RedundancyDecoder.SplitUnit` | BonePhone/rat-4.2.20/rat/cc_rdncy.c:746-813 | the object computes `SplitUnit` |
| `RedObjects.RedundancyDecoder.SplitFrames` | BonePhone/rat-4.2.20/rat/cc_rdncy.c:779-812 | the loop places each frame of a block in turn, and moves on in time only past one that was placed |
| `RedObjects.RedundancyDecoder.Decode` | BonePhone/rat-4.2.20/rat/cc_rdncy.c:816-882 | the object computes `DecodePacket`: redundant blocks realigned by offset, then the primary block at the greatest offset |
| `RedSpent.MakePduWears` | BonePhone/rat-4.2.20/rat/cc_rdncy.c:173-226 | where make_pdu has been, a unit that held one coding by the codec holds none any more, and no coding appears |
| `RedTheorem.MakePduPacks` | BonePhone/rat-4.2.20/rat/cc_rdncy.c:173-226 | from units that have the codec make_pdu takes all their data, one coding from each, and leaves every other coding in place |
| `RedTheorem.TookLeaves` | BonePhone/rat-4.2.20/rat/transmit.c:463-472 | the coding left for the second layer, by another codec or a second one by the same, does not depend on how the first was taken |
| `RedTheorem.GatherCollects` | BonePhone/rat-4.2.20/rat/cc_rdncy.c:247-269 | in a full buffer stage 1 finds the primary block and, from packet m on, the block that the history still reaches, unless that block begins with a unit already sent: then none |
| `RedTheorem.TrimDrops` | BonePhone/rat-4.2.20/rat/playout.c:493-535 | auditing with a history of h units keeps exactly h units before the iterator |
| `RedTheorem.OutputSends` | BonePhone/rat-4.2.20/rat/cc_rdncy.c:229-327 | packet j carries its own units and, where stage 1 finds any, the redundant copies of the units the history still holds, whether by another codec or by the same |
| `RedTheorem.AcceptLast` | BonePhone/rat-4.2.20/rat/cc_rdncy.c:382-392 | the unit that completes a packet sends it and leaves the buffer ready for the next |
| `RedTheorem.SafeSettings` | BonePhone/rat-4.2.20/rat/cc_rdncy.c:473-477 | the history that set_parameters keeps reaches back far enough if and only if there is one unit a packet, or the offset is at most one packet, or both are two |
| `RedTheorem.LoLate` | BonePhone/rat-4.2.20/rat/cc_rdncy.c:473-477 | from packet m on the buffer starts between the first unit kept and the next redundant block |
| `RedTheorem.EncodeRun` | BonePhone/rat-4.2.20/rat/cc_rdncy.c:329-398 | after any number of units of a talkspurt, with any history: the packets sent carry no redundancy before packet m, in packet m the block of the first unit kept, none while the block would begin inside that one, and from then on the block of m packets before |
| `RedLayers.GatherFrom` | BonePhone/rat-4.2.20/rat/cc_rdncy.c:247-269 | stage 1 with any number of layers: each layer finds what the buffer held before, at the farthest offset so far; the iterator never moves forward |
| `RedLayers.PduSpares` | BonePhone/rat-4.2.20/rat/cc_rdncy.c:190-214 | what make_pdu takes for one layer leaves the codings by every other codec as they were |
| `RedLayers.PduIs` | BonePhone/rat-4.2.20/rat/cc_rdncy.c:190-214 | make_pdu gives the codings of the leading units that have one by the codec, in a row, with the state of the first alone |
| `RedLayers.BlocksAre` | BonePhone/rat-4.2.20/rat/cc_rdncy.c:280-307 | stage 2 with any number of layers: from the primary header backwards the layers in order, and an empty block in front when some are missing |
| `RedLayers.PacketHolds` | BonePhone/rat-4.2.20/rat/cc_rdncy.c:229-327 | what a receiver finds in a packet of any number of layers: of each layer up to the first that stops, the codings of the units its offset points back to |
| `RedSpurts.PauseSeparates` | BonePhone/rat-4.2.20/rat/cc_rdncy.c:370-380 | over any units: what comes before units without data, those units, and what comes after give the packets of the first part followed by those a new encoder sends for the last, so no packet mixes two talkspurts |
| `RedSpurts.StreamSent` | BonePhone/rat-4.2.20/rat/cc_rdncy.c:329-398 | the packets of any number of talkspurts are those of each encoded on its own |
| `RedLoss.FramesOfBlock` | BonePhone/rat-4.2.20/rat/cc_rdncy.c:779-812 | splitting the block of n units finds those n units |
| `RedLoss.BlockSlots` | BonePhone/rat-4.2.20/rat/cc_rdncy.c:857-880 | a redundant block starts in the slot of its first unit, and so does the primary block, start-up packets included |
| `RedLoss.BlockRefused` | BonePhone/rat-4.2.20/rat/cc_rdncy.c:681-711 | a block by the codec its first unit already holds a coding of is refused as a whole |
| `RedLoss.RedundantDecoded` | BonePhone/rat-4.2.20/rat/cc_rdncy.c:861-876 | a redundant block is offered to each unit m packets back and to no other: one coding more, or none where the unit has one by the same codec; an empty block adds none |
| `RedLoss.PrimaryDecoded` | BonePhone/rat-4.2.20/rat/cc_rdncy.c:877-881 | so does a primary block, beside redundant copies already there |
| `RedLoss.PacketDecoded` | BonePhone/rat-4.2.20/rat/cc_rdncy.c:816-882 | a packet is decoded into the right slots whatever was lost before it |
| `RedLoss.ArrivedDecoded` | BonePhone/rat-4.2.20/rat/cc_rdncy.c:885-915 | after decoding those packets that arrived every slot holds exactly what they carried for it, with any history |
| `RedLoss.HeardAfterLoss` | BonePhone/rat-4.2.20/rat/cc_rdncy.c:229-327 | encode a talkspurt with any history, lose any packets, decode the rest: exactly what is heard at every time |
| `RedLoss.SurvivesLoss` | BonePhone/rat-4.2.20/rat/cc_rdncy.c:229-327 | the loss theorem: with the full history kept, for every packet size and offset, every unit of which a copy arrived is heard at its time plus one constant shift, both copies together, and nothing else is |
| `RedLoss.SafeExactly` | BonePhone/rat-4.2.20/rat/cc_rdncy.c:473-477 | every loss pattern is survived if and only if the history is at least (m - 1) * upp units |
| `RedLoss.KeptExactly` | BonePhone/rat-4.2.20/rat/cc_rdncy.c:473-477 | with any history a unit survives every loss if and only if its packet begins at or beyond unit Lost + upp, or it is of the first packet and coded like the unit sent in its place |
| `RedLoss.PrimarySurvives` | BonePhone/rat-4.2.20/rat/cc_rdncy.c:877-881 | with any history the primary copy of a unit whose packet arrived is heard, and no other coding by that codec; with two codecs and the packet lost, none is |
| `RedLoss.HeardOnce` | BonePhone/rat-4.2.20/rat/transmit.c:463-472 | with one codec for both copies every unit is heard once, whichever copy arrives |
| `RedLoss.LostIsHeard` | BonePhone/rat-4.2.20/rat/cc_rdncy.c:473-477 | if only the first packet with redundancy arrives, unit `Lost` + i is heard in place of unit i |
| `RedLoss.FirstAlone` | BonePhone/rat-4.2.20/rat/cc_rdncy.c:473-477 | that is a recovery if and only if those units are coded alike |
| `RedLoss.HistoryTooShort` | BonePhone/rat-4.2.20/rat/cc_rdncy.c:473-477 | concrete talkspurts, with one codec and with two, of four units a packet and an offset of three packets: unit 5 is heard for unit 0, packets 4 and 5 carry no redundancy, packet 6 carries units 12 to 15 |
| `RedLoss.CountingIsGood` | BonePhone/rat-4.2.20/rat/cc_rdncy.c:405-483 | the hypotheses of these theorems can be met with every packet size, offset and history that fits the headers, with one codec and with two |
| `RedSpurts.DecodeBoth` | BonePhone/rat-4.2.20/rat/cc_rdncy.c:885-915 | decoding packets one after the other is decoding the first and then the others into what is there |
| `RedSpurts.TalkspurtsHeard` | BonePhone/rat-4.2.20/rat/cc_rdncy.c:329-398 | any number of talkspurts by one encoder, any packets lost, the rest decoded into one buffer: every unit of every talkspurt is heard as if there were only that one, and nothing else is heard |
| `RedSpurts.TalkspurtsSurvive` | BonePhone/rat-4.2.20/rat/cc_rdncy.c:229-327 | with the full history kept every unit of which a copy arrived is heard, in every talkspurt |
| `RedSpurts.CountingTalksAreGood` | BonePhone/rat-4.2.20/rat/cc_rdncy.c:405-483 | such streams exist for every packet size, offset and history that fits the headers, with any number of talkspurts |
| `Vanilla.CutsConserve` | BonePhone/rat-4.2.20/rat/cc_vanilla.c:134-176 | spans of 1..upp units by one codec, never over an empty unit, cut short only where the input forces it, cover in order and once all units with data that are not pending |
| `Vanilla.CutsNoted` | BonePhone/rat-4.2.20/rat/cc_vanilla.c:148-165 | a packet carries its first unit's time unless it follows at once on one that a change of codec cut short |
| `Vanilla.RunIsCuts` | BonePhone/rat-4.2.20/rat/cc_vanilla.c:118-181 | the packets the encoder sends are those spans, in order, and its pending units the open one |
| `Vanilla.Conservation` | BonePhone/rat-4.2.20/rat/cc_vanilla.c:75-224 | for any input, the units of all packets followed by the pending ones are the units with data, in order |
| `Vanilla.KeptUnlessHurried` | BonePhone/rat-4.2.20/rat/cc_vanilla.c:111-114 | into an empty buffer a packet is accepted if and only if it does not follow at once on one that a change of codec cut short; otherwise its stale time is taken and it is dropped |
| `Vanilla.CodecChangeLosesPacket` | BonePhone/rat-4.2.20/rat/cc_vanilla.c:162-164 | a concrete talkspurt of five units whose second packet is lost that way |
| `Vanilla.FramesOfGroup` | BonePhone/rat-4.2.20/rat/cc_vanilla.c:185-224 | splitting a packet gives back its units, with codec state on the first only |
| `Vanilla.EmitAll` | BonePhone/rat-4.2.20/rat/cc_vanilla.c:200-222 | units go to consecutive times if those are free, and nothing else changes |
| `Vanilla.AcceptedPrompt` | BonePhone/rat-4.2.20/rat/cc_vanilla.c:111-114 | the packets the output buffer takes are those of the spans that are not hurried, each with the time of its first unit |
| `Vanilla.AcceptedIsBuffer` | BonePhone/rat-4.2.20/rat/cc_vanilla.c:111-114 | and together they are the contents of that buffer |
| `Vanilla.RoundTrip` | BonePhone/rat-4.2.20/rat/cc_vanilla.c:75-224 | for any input: encode into the output buffer, decode what is there; exactly the units of the spans that are not hurried come back, each at its own time, with state on packet heads only |
| `Vanilla.HurriedIgnored` | BonePhone/rat-4.2.20/rat/cc_vanilla.c:200-222 | a packet whose time is taken at the decoder adds nothing |
| `Vanilla.RoundTripDrained` | BonePhone/rat-4.2.20/rat/transmit.c:581-586 | if every packet is taken from the output buffer before the next is added, all are sent, and again exactly those units come back |
| `Vanilla.SingleCodec` | BonePhone/rat-4.2.20/rat/cc_vanilla.c:156-165 | in a talkspurt by a single codec no span is hurried |
| `Vanilla.SingleCodecRoundTrip` | BonePhone/rat-4.2.20/rat/cc_vanilla.c:75-224 | so it comes back whole: every unit but the fewer than upp still pending, at its own time, and nothing else |
| `Vanilla.PeekIsDecode` | BonePhone/rat-4.2.20/rat/cc_vanilla.c:265-309 | peek announces n > 0 units if and only if the decoder emits n |
| `Vanilla.PeekOfBareState` | BonePhone/rat-4.2.20/rat/cc_vanilla.c:265-309 | peek announces none exactly for a packet of codec state alone, on which the decoder would read past the end unless the codec has no state |
| `Vanilla.VanillaEncoder.Output` | BonePhone/rat-4.2.20/rat/cc_vanilla.c:75-115 | the pending units become one packet, state of the first and data of all, offered to the output buffer under the noted time |
| `Vanilla.VanillaEncoder.Take` | BonePhone/rat-4.2.20/rat/cc_vanilla.c:134-176 | one turn of the loop computes `Step` |
| `Vanilla.VanillaEncoder.Encode` | BonePhone/rat-4.2.20/rat/cc_vanilla.c:118-181 | the input buffer is drained and the output buffer receives what `Run` sends |
| `Vanilla.VanillaEncoder.Reset` | BonePhone/rat-4.2.20/rat/cc_vanilla.c:59-71 | nothing is pending |
| `Vanilla.DecodeUnit` | BonePhone/rat-4.2.20/rat/cc_vanilla.c:185-224 | the decoder's loop computes `Decode` |
| `Vanilla.PeekUnits` | BonePhone/rat-4.2.20/rat/cc_vanilla.c:265-309 | the peeking loop computes `Peek` |
| `Bitstreams.PutAppends` | BonePhone/rat-4.2.20/rat/bitstream.c:58-83 | bs_put appends the field to the bits written and leaves the rest of the buffer clear |
| `Bitstreams.GetIsField` | BonePhone/rat-4.2.20/rat/bitstream.c:85-113 | bs_get returns the one value of the next n bits |
| `Bitstreams.FieldInjective` | BonePhone/rat-4.2.20/rat/bitstream.c:85-113 | a value below 2 to the n is determined by its field |
| `Bitstreams.Bitstream.constructor` | BonePhone/rat-4.2.20/rat/bitstream.c:47-56 | attached at the first bit |
| `Bitstreams.Bitstream.Attach` | BonePhone/rat-4.2.20/rat/bitstream.c:47-56 | back at the first bit, the buffer untouched |
| `Bitstreams.Bitstream.Put` | BonePhone/rat-4.2.20/rat/bitstream.c:58-83 | the object does so within the buffer, whether or not the field crosses a byte |
| `Bitstreams.Bitstream.Get` | BonePhone/rat-4.2.20/rat/bitstream.c:85-113 | the object returns the next field and changes no byte |
| `Bitstreams.Bitstream.BytesUsed` | BonePhone/rat-4.2.20/rat/bitstream.c:115-123 | the bits written, divided by eight and rounded up |
| `Bitstreams.RoundTrip` | BonePhone/rat-4.2.20/rat/bitstream.c:47-123 | any fields of one to eight bits, written to a zeroed buffer of enough bytes and read back after re-attaching, come back, with no access outside the buffer and the bytes used as counted |
| `AudioFormats.LoadStore` | BonePhone/rat-4.2.20/rat/audio_types.h:37-37 | a stored sample of sixteen bits loads back |
| `AudioFormats.RecodeIsNarrowWide` | BonePhone/rat-4.2.20/rat/audio_fmt.c:190-401 | every pair of encodings converts through sixteen bits, the eight-bit short cuts included |
| `AudioFormats.WideMeans` | BonePhone/rat-4.2.20/rat/audio_fmt.c:327-398 | a byte of DEV_S8 or DEV_U8 is the top byte of its sample |
| `AudioFormats.NarrowMeans` | BonePhone/rat-4.2.20/rat/audio_fmt.c:212-246 | a sample becomes the byte of its upper half in DEV_S8 and DEV_U8 |
| `AudioFormats.WideningIsLossless` | BonePhone/rat-4.2.20/rat/audio_fmt.c:190-401 | converting to sixteen bits and back gives the sample back, in mu-law and A-law if and only if the two tables are inverse there |
| `AudioFormats.MeanOfWide` | BonePhone/rat-4.2.20/rat/audio_fmt.c:131-141 | averaging DEV_S16 rounds toward zero and is never off by more than a half |
| `AudioFormats.MeanOfLaws` | BonePhone/rat-4.2.20/rat/audio_fmt.c:142-161 | averaging mu-law or A-law gives the code, by its own table, of the average of the two decoded samples, rounded toward zero |
| `AudioFormats.MeanOfSame` | BonePhone/rat-4.2.20/rat/audio_fmt.c:142-179 | exactly which bytes are the average of themselves: where the two tables are inverse, and the even ones in DEV_S8 and DEV_U8 |
| `AudioFormats.MonoIsDoubled` | BonePhone/rat-4.2.20/rat/audio_fmt.c:122-129 | in the one-byte encodings mono to stereo gives both channels of every frame the byte |
| `AudioFormats.BothOfFrame` | BonePhone/rat-4.2.20/rat/audio_fmt.c:427-447 | one frame with both conversions: its sample recoded, twice, or the average of its two samples recoded |
| `AudioFormats.BytesAndBack` | BonePhone/rat-4.2.20/rat/audio_fmt.c:113-179 | in the one-byte encodings mono to stereo and back is the identity on a buffer if and only if every byte of it is the average of itself |
| `AudioFormats.StereoAndBack` | BonePhone/rat-4.2.20/rat/audio_fmt.c:113-141 | mono to stereo and back is the identity on any buffer of sixteen-bit samples |
| `AudioFormats.MeanOfSigned` | BonePhone/rat-4.2.20/rat/audio_fmt.c:162-170 | averaging DEV_S8 is right to within one if and only if both samples have the same sign |
| `AudioFormats.MeanOfUnsigned` | BonePhone/rat-4.2.20/rat/audio_fmt.c:171-178 | averaging DEV_U8 is right to within one |
| `AudioFormats.ChannelsLength` | BonePhone/rat-4.2.20/rat/audio_fmt.c:107-107 | the length of a channel conversion |
| `AudioFormats.SamplesLength` | BonePhone/rat-4.2.20/rat/audio_fmt.c:200-200 | the length of a sample conversion |
| `AudioFormats.Chunk` | BonePhone/rat-4.2.20/rat/audio_fmt.c:427-447 | converting channels and then samples of a whole buffer equals doing so piece by piece, wherever the pieces end between frames |
| `AudioFormats.ConvertedLength` | BonePhone/rat-4.2.20/rat/audio_fmt.c:414-414 | out_bytes is the length of the result |
| `AudioFormats.ConvertChannels` | BonePhone/rat-4.2.20/rat/audio_fmt.c:91-188 | the destination holds the converted frames and no byte beyond them changes |
| `AudioFormats.ConvertSamples` | BonePhone/rat-4.2.20/rat/audio_fmt.c:190-401 | likewise for samples; too small a destination and equal encodings change nothing |
| `AudioFormats.ConvertChunk` | BonePhone/rat-4.2.20/rat/audio_fmt.c:434-441 | eighty bytes never overrun the scratch buffer of 160 |
| `AudioFormats.ConvertBoth` | BonePhone/rat-4.2.20/rat/audio_fmt.c:427-447 | the chunk loop writes the conversion of the whole buffer |
| `AudioFormats.Convert` | BonePhone/rat-4.2.20/rat/audio_fmt.c:403-452 | audio_format_buffer_convert writes exactly out_bytes, the conversion of the whole buffer, and nothing if neither encoding nor channels change |
| `TransRing.WriteAppends` | BonePhone/rat-4.2.20/rat/auddev_trans.c:294-323 | a write appends to the byte queue if and only if buffered and new bytes stay below CHANNEL_SIZE |
| `TransRing.WriteOverflows` | BonePhone/rat-4.2.20/rat/auddev_trans.c:294-323 | what any write that does not fit leaves, one longer than the ring included: the oldest of the newest bytes, as many as there were too many, going round; and exactly when the ring stays in step |
| `TransRing.TakesOff` | BonePhone/rat-4.2.20/rat/auddev_trans.c:274-282 | taking bytes off the ring takes them off the front of the queue |
| `TransRing.FirstReadKeeps` | BonePhone/rat-4.2.20/rat/auddev_trans.c:242-248 | the first read after a reset keeps head and tail in step, and the buffered bytes, if and only if nothing is buffered |
| `TransRing.LagMeans` | BonePhone/rat-4.2.20/rat/auddev_trans.c:242-323 | the bytes heard and buffered are those written but the last n, and head and tail do not fit unless n is 0 |
| `TransRing.LateForEver` | BonePhone/rat-4.2.20/rat/auddev_trans.c:242-323 | if n bytes were written before the first read, then after it and until the device is drained, over any run of reads and of writes that fit, playback lags by n bytes and the ring is out of step unless n is 0 |
| `TransRing.LateAtOnce` | BonePhone/rat-4.2.20/rat/auddev_trans.c:228-323 | open, write a, read, write b: the bytes buffered then are the first |b| of a and b together |
| `TransRing.OneByteLate` | BonePhone/rat-4.2.20/rat/auddev_trans.c:228-323 | a concrete run: written 1, read, written 2; the byte to be read next is 1 again |
| `TransRing.ReadIs` | BonePhone/rat-4.2.20/rat/auddev_trans.c:228-289 | a read delivers buffered bytes first and then silence, and what it returns and leaves over is the time that has passed, for every clock |
| `TransRing.QueueAndClock` | BonePhone/rat-4.2.20/rat/auddev_trans.c:229-323 | over any run of harmless operations, bytes heard before silence and bytes buffered are the bytes written, (head + avail) mod size is tail, and bytes returned plus left over are last_bytes |
| `TransRing.ElapsedGrows` | BonePhone/rat-4.2.20/rat/auddev_trans.c:215-222 | the bytes due never shrink while the clock does not go back |
| `TransRing.ElapsedMeans` | BonePhone/rat-4.2.20/rat/auddev_trans.c:215-222 | the bytes due are those of a whole number of milliseconds that differs from the time in microseconds by less than one |
| `TransRing.MillisUnique` | BonePhone/rat-4.2.20/rat/auddev_trans.c:215-222 | that number is unique, and exact if the time is a multiple of a millisecond |
| `TransRing.ReadServes` | BonePhone/rat-4.2.20/rat/auddev_trans.c:228-289 | a read gives nothing while less than a block is due, else what is due as far as it is wanted, and leaves the rest over; what is due is counted from the first read |
| `TransRing.ReturnedIsTime` | BonePhone/rat-4.2.20/rat/auddev_trans.c:228-289 | over any run, harmless or not, bytes returned since the reset and left over are those of the milliseconds between the first read and the last that was served |
| `TransDevices.TransDevice.constructor` | BonePhone/rat-4.2.20/rat/auddev_trans.c:59-92 | an open device is empty, aligned and unread |
| `TransDevices.TransDevice.Drain` | BonePhone/rat-4.2.20/rat/auddev_trans.c:154-164 | the device is as good as new, its bytes lost |
| `TransDevices.TransDevice.Write` | BonePhone/rat-4.2.20/rat/auddev_trans.c:294-323 | the object computes `Write` |
| `TransDevices.TransDevice.Read` | BonePhone/rat-4.2.20/rat/auddev_trans.c:228-289 | the object computes `Read`, within the caller's buffer |
| `TransDevices.TransDevice.Copy` | BonePhone/rat-4.2.20/rat/auddev_trans.c:266-282 | the two loops fill the caller's buffer from the ring and then with silence |
| `Tokenizers.TrimThrows` | BonePhone/bonephone/Tokenizer.java:11-35 | trim throws exactly on a non-empty string of nothing but separators |
| `Tokenizers.SplitThrows` | BonePhone/bonephone/Tokenizer.java:54-73 | so does split, with any set of separators |
| `Tokenizers.SplitIsWords` | BonePhone/bonephone/Tokenizer.java:54-73 | with one separator character split gives the longest stretches without it |
| `Tokenizers.SplitOfJoin` | BonePhone/bonephone/Tokenizer.java:54-73 | splitting joined tokens gives the tokens back |
| `Tokenizers.TrimData` | BonePhone/bonephone/Tokenizer.java:11-35 | the two trimming loops compute `Trim`, and end |
| `Tokenizers.FindSep` | BonePhone/bonephone/Tokenizer.java:38-46 | the loop finds the first place of the separator that is first in the list |
| `Tokenizers.SplitData` | BonePhone/bonephone/Tokenizer.java:54-73 | the splitting loop computes `Split`; the data gets shorter with every token, so it ends |
| `SdpManager.ParseOfPrint` | BonePhone/bonephone/SDPManager.java:191-203 | parseInt reads a printed number back if and only if it is an int |
| `SdpManager.NameIsPlain` | BonePhone/bonephone/SDPManager.java:182-206 | whatever text convertRtpmap accepts, the name it finds is not empty and has neither space nor slash |
| `SdpManager.ConvertJoined` | BonePhone/bonephone/SDPManager.java:182-206 | 8000 Hz and one channel where the text gives none, nothing behind the third field, and no codec if a number is none |
| `SdpManager.ConvertWords` | BonePhone/bonephone/SDPManager.java:187-188 | and no codec in any number of words but two |
| `SdpManager.RtpmapRoundTrip` | BonePhone/bonephone/SDPManager.java:182-206 | converting the text printed by build gives the descriptor back if and only if its name is plain and it has at least one channel (RFC 4566 section 6) |
| `SdpManager.CodecDescriptorDB.GetByPayloadType` | BonePhone/bonephone/SDPManager.java:378-386 | the first entry of the payload type |
| `SdpManager.CodecDescriptorDB.Update` | BonePhone/bonephone/SDPManager.java:367-376 | the payload type means the new codec, and every other type what it meant before |
| `Configurations.ParseCanonical` | BonePhone/bonephone/Configuration.java:41-84 | what the parser produces has trimmed keys and values on one line, and no key with a colon or a leading hash |
| `Configurations.ParseByLines` | BonePhone/bonephone/Configuration.java:41-84 | the list of a file is that of its first line followed by that of the rest |
| `Configurations.PlainLine` | BonePhone/bonephone/Configuration.java:59-70 | a blank line is marked, a comment kept, and a line without a colon dropped |
| `Configurations.KeyLine` | BonePhone/bonephone/Configuration.java:71-81 | any other line gives what stands before its first colon and behind it, without the blanks around |
| `Configurations.LastLineLost` | BonePhone/bonephone/Configuration.java:49-56 | a last line that does not end is not read |
| `Configurations.ParseOfWrite` | BonePhone/bonephone/Configuration.java:172-190 | reading what was written gives the pairs back, but for keys spelled as the mark of a blank line |
| `Configurations.ReadWriteRead` | BonePhone/bonephone/Configuration.java:41-84 | for every text, terminated or not, parse, write and parse gives the first list if and only if no key spelled "-empty-" has a value |
| `Configurations.Configuration.constructor` | BonePhone/bonephone/Configuration.java:26-86 | the reading loop computes `Parse` |
| `Configurations.Configuration.GetIndex` | BonePhone/bonephone/Configuration.java:88-96 | the first pair of the name, or -1 |
| `Configurations.Configuration.Set` | BonePhone/bonephone/Configuration.java:141-151 | the key has the value, every other key its old one, and no pair moves |
| `Configurations.Configuration.SetUnset` | BonePhone/bonephone/Configuration.java:160-166 | a known key is left alone, an unknown one is added at the end |
| `Configurations.Configuration.WriteOut` | BonePhone/bonephone/Configuration.java:172-190 | the writing loop computes `Write` |

## Left out

- The user interface, mbus, control of the RAT process and the audio drivers of the platforms:
  input, output and foreign calls.
- The SIP stack, its transaction listeners and the retransmission of stored responses, message
  formatting, SDP bodies, tags, subjects and address lookup; only kind, method, status and
  transaction of a message remain.
- CallLegs.CallLeg.ProcessInvite: which addresses are local or registered, and whether a request
  has looped, are inputs of the step.
- SipSession.InvKept: re-INVITEs, lost messages and failing sends are not part of the product of two
  legs; single legs have all three, and `SipReinvite.SessionChanged` joins two for one re-INVITE.
- Growth of CSeq numbers on incoming legs.
- CallObjects.Call.Set: threads. The unlock of IPT_Event.java:47 lies outside its synchronized
  block; the model is one thread that may re-enter.
- CallControl.InvKept: setState and fakeCall are not among the moves, and outside events of the
  graphical interface and of SIP come to a call whose queue is empty.
- CallControl.PortsExclusive: pairs and the engine are not conserved; several paths of the table
  drop them, and only exclusiveness is proved.
- Loss of packets with three layers: all headers carry the last layer's codec and offset
  (cc_rdncy.c:291-299), so such packets are not decoded into place. `RedLayers.PacketHolds` says what is
  in them, layers by different codecs; the loss theorem has two layers.
- RedLoss.SurvivesLoss: codecs of equal frame duration, neither native, decoded in order;
  `RedSpurts.TalkspurtsSurvive` has any number of talkspurts, each contiguous.
- RedLoss.HeardAfterLoss: with a history that is too short, units that come with yet another coding by
  the second codec (`Once`); the encoder would send that one in a later packet.
- RedHeaders.WalkPacket: reads the one byte of the primary header, where the code loads a word of four
  and uses the first byte; `WordsInside` says when that word lies in the packet.
- redundancy_decoder_peek, redundancy_decoder_describe, and reading and printing of coder settings:
  they look headers up and format text, and nothing above depends on them.
- Wrap-around of timestamps and of the integers of C; overflow of `uint16_t` lengths.
- Memory management of media units and packets, and the iterators other than the one in use.
- Vanilla.DecodeUnit: packets that end inside a unit, on which the code reads on.
- AudioFormats.ConvertSamples: source and destination that are the same buffer, which the code
  refuses.
- Tokenizers.SplitIsWords: several separator characters; `Split` models them, and `SplitThrows`
  covers them.
- The translation of codec names between RAT and IANA, the rest of the session description, and the
  selection of codecs from profiles.
- cc_layered.c and the older classes of transactions and states, which are not in use.
