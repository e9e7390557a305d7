# A model of the Switch 2 controller bridges

The repository connects a Switch 2 Pro Controller over Bluetooth LE in several ways: a raw-HCI daemon with its own
pairing code, a BTstack bridge in two builds, a packet-socket daemon, and a Python runner that tries connection
profiles. This project models the parts of them that carry state, protocol order or byte arithmetic, and proves what
they keep.

| Component | Modules |
|---|---|
| raw-HCI session loop (`sw2d_final.c`, `hci_transport_user.c`) | `Transport`, `Controller`, `Pairing`, `Host`, `Daemon`, `Exposure`, `CreateSafety`, `TraceSafety`, `PairExactly`, `LossExactly`, `AttExactly`, `HciCommands`, `Witnesses` |
| BTstack bridge, both builds | `Bridge`, `BridgeWorld`, `BridgeProgress`, `BridgeDaemon` |
| packet stack of `sw2d.c` | `PacketStream`, `PacketReader` |
| HID descriptors and report builders | `HidDescriptor`, `HidReports` |
| advertising walkers | `Advertising` |
| Python session runner | `Runner`, `RunnerSafety`, `RunnerStages`, `RunnerDaemon` |
| dump analyser | `Analyser` |

Code that changes state is modelled by classes and loops (`Daemon`, `BridgeDaemon`, `PacketReader`, `HidReports`,
`RunnerDaemon`, and the loops of `Transport`, `Advertising` and `Analyser`). Each such method is proved to compute a
function of the old state, and the theorems are about those functions, so that they hold of the loops.

What the programs do not control is a script or an oracle, and every theorem is for all of them. In the daemon a script
says what the controller does between two reads, when a read comes back empty and when a deadline passes; the controller
is a queue of unprocessed commands, a "create pending" flag and a FIFO of unread events. Separate oracles say which
writes fail, which random numbers are drawn and what an uninitialised buffer holds. AES is any block function; where
injectivity is needed the lemma asks for it. In the packet stack a plan says how each read and write is cut short or
interrupted. In the runner each awaited call takes one turn, which says whether it succeeds, whether a shutdown signal
arrives and which notifications are delivered meanwhile.

## Where the code does not do what it seems to promise

- The transport's cancel (`hci_transport_user.c:202-232`) is meant to keep a second LE Create Connection from meeting a
  pending one. A session can have its create turned down exactly when it writes the create with no cancel written
  before it, because the flag was down or the cancel could not be written, while an earlier attempt can still be
  pending in the controller (`CreateSafety.SessionCanDisallowExactly`). Whether the drain finds the cancel's reply does
  not matter for that session; it matters for later ones, since a stale connection read instead takes the flag down
  with a create still pending (`Witnesses.MissedReplyIsDisallowed`). A cancel that cannot be written is the other way
  (`Witnesses.FailedCancelIsDisallowed`).
- Pairing can go on behind a Disconnection Complete read in the same session. It does so exactly when the drain of the
  cancel read one and the connection then came about (`LossExactly.GoesOnBehindLossExactly`), as in the second session
  of a run from the start of the process (`Witnesses.PairingAfterDrainedLossFromBoot`).
- A key request is answered with the session key for whatever handle it names (`TraceSafety.KeyRequestsAnswered`).
- `sw2d_final.c:950` tests `last_disconnect_reason`, which line 943 has just cleared, so only `did_cancel` decides.
- `hci_user_acl_send` takes 512 payload bytes, but a packet with more than 503 does not fit the receive buffer of the
  same transport (`Transport.AclRoundTrip`).
- The comment in `hid_report_descriptor.h:126-127` gives report sizes of 11 and 2 without the report ID; the constants
  (13 and 3, with it) are what the descriptor declares (`HidReports.LengthsAgree`). The rumble field's one-byte Logical
  Maximum 0xFF is the number -1, below its minimum of 0 (`HidDescriptor.DaemonInterpreted`).
- That descriptor declares 24 buttons and `build_hid_report` copies 21 (`HidReports.DaemonButtonsAsSent`).
- `parse_input` and `decode_stick12` read the sticks of the same bytes by different layouts
  (`HidReports.StickDecodersAgree`).
- The BTstack build that goes straight to discovery starts it a second time if Just Works is asked for and encryption or
  pairing is then reported (`BridgeWorld.DiscoveryStartsOnce`), and it makes a request over an outstanding one exactly
  when a request is outstanding at that report (`BridgeWorld.ClashesExactly`, `BridgeWorld.DirectBuildClashes`).
- A report accepted by the runner is not enough for a winning profile: a subscription must also have succeeded
  (`RunnerSafety.WinnerIsFirst`, `RunnerSafety.ReportIsNotEnough`).
- The analyser's two loops disagree about a position exactly when no change is counted there and the reports that reach
  it do so in stretches that do not all begin with one value (`Analyser.LoopsAgreeExactly`, `Analyser.GapHidesChange`).

## Model

| member | source | states |
|---|---|---|
| Pairing.C1InjectiveInRandom | sw2d_final.c:364-382 | for an injective block function two randoms give one confirm value exactly when they are equal |
| Pairing.C1InjectiveInPdus | sw2d_final.c:364-382 | with random and addresses fixed, equal confirm values mean equal responses, requests and address types, and conversely |
| Pairing.C1InjectiveInAddresses | sw2d_final.c:364-382 | with the rest fixed, equal confirm values mean equal address pairs, and conversely |
| Pairing.S1DependsOnFirstHalves | sw2d_final.c:387-394 | two pairs of randoms give one STK exactly when their first eight bytes agree |
| Pairing.C1Layout | sw2d_final.c:364-382 | the two blocks given to the cipher, byte by byte: response, request, responder's address type, initiator's; then four zeros, initiator's address, responder's |
| Pairing.S1Layout | sw2d_final.c:387-394 | the block given to the cipher, byte by byte: first half of the first random, first half of the second |
| Pairing.SmpC1 | sw2d_final.c:364-382 | the buffers filled, masked and encrypted in place end in the c1 value |
| Pairing.SmpS1 | sw2d_final.c:387-394 | likewise for the STK |
| Transport.AclRoundTrip | hci_transport_user.c:296-373 | reading inverts sending exactly for handles below 4096, and the packet fits the receive buffer exactly up to 503 payload bytes |
| Transport.CommandHeaderRoundTrip | hci_transport_user.c:178-198 | the opcode gives back ogf and ocf exactly when they have six and ten bits; length byte and parameters follow |
| Transport.HciFrame.Read | hci_transport_user.c:296-345 | the record filled in place, whatever it held before, shows its readers the frame the datagram means |
| Transport.HciFrame.ParseEvent | hci_transport_user.c:306-334 | payload position and length, and the subevent, status, opcode and handle fields for each event kind |
| Transport.AclSend | hci_transport_user.c:349-373 | -1 and nothing written for more than 512 bytes or a refused write; otherwise one datagram, header and payload in order |
| HciCommands.ControllerReadsWhatWasWritten | sw2d_final.c:313-338 | the bytes of every command and PDU, read by the positions of the Core Specification, are what the host meant |
| HciCommands.EncryptionReads | sw2d_final.c:1103-1147 | handle, zero random number and diversifier, and the key where the controller looks for them, in the start and in the key reply |
| HciCommands.EventsReadAsSent | hci_transport_user.c:296-345 | each kind of event a conforming controller sends is read for what it is, whatever the parameters ignored |
| Controller.ActKeepsLoad | hci_transport_user.c:202-232 | nothing the controller does by itself raises the number of connections that can still come out, or answers a create as disallowed while that number is at most one |
| Controller.ReadKeepsLoad | sw2d_final.c:405-508 | reading an event lowers that number by one exactly when the event is a successful connection |
| Controller.ActKeepsCancelling | hci_transport_user.c:202-232 | a cancellation under way stays so, and no connection comes out behind its reply |
| Controller.ReadWhileCancelling | hci_transport_user.c:219-229 | reading the reply to a cancellation leaves nothing pending; any other read leaves it under way |
| CreateSafety.DrainSettles | hci_transport_user.c:202-232 | a drain that reaches the reply leaves nothing pending |
| CreateSafety.DrainReadsUntilReply | hci_transport_user.c:222-232 | the drain reads until the reply, until a read comes back empty, or its number of frames, and misses the reply exactly if none of those it read is one |
| CreateSafety.CancelReadsFiveFrames | hci_transport_user.c:202-232 | that number is five |
| CreateSafety.AwaitConnectionSettles | sw2d_final.c:405-508 | a wait for the connection that succeeds has used up the one connection that could come out |
| CreateSafety.BeginSettles | sw2d_final.c:938-954 | a session start, with or without cancel, leaves nothing pending unless a reply was missed |
| CreateSafety.SessionKeepsBetween | sw2d_final.c:938-1298 | between sessions at most one connection can still come out, and none after a session that ended encrypted |
| CreateSafety.NoCreateIsDisallowed | sw2d_final.c:938-1298 | over any number of sessions in which no cancel goes unanswered, no create meets a pending one, late completions of cancelled attempts included |
| Exposure.CanDisallowExactly | hci_transport_user.c:202-232 | from any controller state some course of events turns a create down exactly if a create written stands behind a pending attempt or an earlier create with no cancel in between |
| CreateSafety.SessionCanDisallowExactly | sw2d_final.c:938-969 | a session can have a create turned down exactly if it writes one behind no written cancel while an attempt can be pending |
| CreateSafety.UnexposedRunIsSafe | sw2d_final.c:938-1298 | a run none of whose sessions starts that way has no create turned down, missed replies or not |
| Witnesses.FailedCancelIsDisallowed | sw2d_final.c:950-953 | a run in which the cancel cannot be written and the next create is turned down |
| Witnesses.MissedReplyIsDisallowed | hci_transport_user.c:219-232 | a run in which the drain gives up early, the stale connection is adopted, and the third session's create is turned down |
| TraceSafety.PairTrace | sw2d_final.c:975-1100 | against any peer: our Random is written only after the peer's 17-byte Confirm was read, and pairing succeeds only with a received Random whose c1 is that Confirm, the key being s1 of it and the random committed to |
| TraceSafety.CommitTrace | sw2d_final.c:1033-1062 | the Confirm sent is c1 with this host as initiator over this session's random and the response stored; success means a 17-byte Confirm was read |
| TraceSafety.RevealTrace | sw2d_final.c:1064-1100 | the random revealed is the one committed to, and a mismatch ends the session |
| TraceSafety.CommitmentOpens | sw2d_final.c:1033-1069 | in every proper trace the PDU behind opcode 3 is c1 over the Random written later, the request as written, this host's type and address as initiator's: a responder that recomputes it accepts |
| TraceSafety.KeyWasCommittedTo | sw2d_final.c:1084-1114 | when a key is put to use the peer's Confirm read is c1 over its Random read, the peer's type and address in the initiator's place, and the key is the cipher of the two first halves |
| TraceSafety.AwaitPairingResponseTrace | sw2d_final.c:997-1031 | with the one retry after a Security Request, success means a PDU of seven bytes or more was read on the connection in use and what is stored starts like a Pairing Response, and is the PDU's own start if that fits the buffer |
| TraceSafety.EncryptTrace | sw2d_final.c:1102-1156 | Start Encryption and every long-term-key reply use the key of the checked exchange, while connected; a reply follows the request for its handle |
| TraceSafety.KeyRequestsAnswered | sw2d_final.c:1116-1149 | while encryption is awaited the key is written for a handle exactly when a key request for it is read, and right behind it |
| TraceSafety.EncryptEnds | sw2d_final.c:1116-1156 | encryption counts as done exactly when a status-0 Encryption Change on the handle in use was read after the start |
| TraceSafety.SecureTrace | sw2d_final.c:956-1156 | connecting, pairing and encrypting write nothing out of place: every SMP PDU and start goes to the handle of the Connection Complete that answered this session's create, with no disconnection read since that create |
| TraceSafety.LossBeforeCreate | sw2d_final.c:938-1156 | pairing or encryption goes on behind a disconnection read in the session only if the create was written in between |
| LossExactly.GoesOnBehindLossExactly | sw2d_final.c:938-1156 | a session pairs or encrypts behind a disconnection it has read exactly if the drain of its cancel read one and the connection then came about |
| Witnesses.PairingAfterDrainedLossFromBoot | sw2d_final.c:937-1156 | a run from the start of the process, no write failing, whose second session does |
| Witnesses.PairingAfterDrainedLoss | hci_transport_user.c:219-229 | a session in which it does, the drain having read the disconnection |
| TraceSafety.AttributesTrace | sw2d_final.c:1161-1279 | every ATT PDU goes out on the encrypted handle, after its Encryption Change in the same session |
| AttExactly.SessionAttWrites | sw2d_final.c:1161-1245 | every ATT PDU of a session is one of four in their order, byte for byte: MTU, services, characteristics in the range of the first service read, and the write 12 lo hi 01 00 to one more than the value handle of the last notifying characteristic read, or what the record held, or 0x000F |
| AttExactly.AttributesWrite | sw2d_final.c:1161-1279 | the same for the phase, and unless it is cut short the write that enables notifications is made |
| AttExactly.MtuStep | sw2d_final.c:1164-1179 | the MTU kept is the one answered, or 23 |
| TraceSafety.BeginTrace | sw2d_final.c:938-954 | a cancel is written only first, and exactly when the flag was up |
| TraceSafety.SessionIsProper | sw2d_final.c:938-1298 | one session: every entry is allowed where it stands; it cancels exactly when the flag was up and leaves it up exactly when it ended unencrypted |
| TraceSafety.EverySessionIsProper | sw2d_final.c:938-1298 | any run: all of that for every session, and session n+1 cancels exactly when session n ended unencrypted |
| Witnesses.RevealAccepts | sw2d_final.c:1071-1099 | for an injective block function the peer is accepted exactly when it reveals the random it committed to |
| PairExactly.PairsExactly | sw2d_final.c:975-1100 | over every script, for an injective block function: pairing succeeds exactly if request, response, our Confirm, the peer's, our Random and a Random the peer's Confirm commits to stand in the trace in this order since it began |
| Witnesses.HonestPeerPairs | sw2d_final.c:975-1100 | a peer that confirms by the formula of lines 1087-1089 and whose three PDUs are read one after the other is paired with, and both sides hold the same key |
| Witnesses.EchoIsForgiven | sw2d_final.c:1012-1027 | a Security Request of any length that fits, read before the Pairing Response, does not keep the response from being taken |
| Daemon.Daemon.ReadFrame | hci_transport_user.c:296-345 | one read as the waits see it: a frame, nothing, or the end of the time |
| Daemon.Daemon.CancelConnect | hci_transport_user.c:202-232 | write the cancel, then read at most five frames in search of its Command Complete; -1 exactly if the write fails |
| Daemon.Daemon.AwaitConnectionComplete | sw2d_final.c:405-508 | 0 for a successful connection with its handle, -2 for a disconnection with its reason, -1 otherwise |
| Daemon.Daemon.AwaitAclData | sw2d_final.c:516-554 | return code, buffer and length; a payload that does not fit changes neither and still counts |
| Daemon.Daemon.AwaitResponse | sw2d_final.c:997-1031 | the wait for the Pairing Response with its one retry, and what is stored |
| Daemon.Daemon.SendConfirm | sw2d_final.c:1033-1062 | random drawn, our Confirm sent, the peer's awaited and stored |
| Daemon.Daemon.SendRandom | sw2d_final.c:1064-1100 | our random sent, the peer's awaited and checked, the key derived |
| Daemon.Daemon.PairWithPeer | sw2d_final.c:975-1100 | the pairing steps in order, each failure ending the session |
| Daemon.Daemon.StartAndAwaitEncryption | sw2d_final.c:1102-1156 | the key is put to use and the wait answers key requests until it is decided |
| Daemon.Daemon.DiscoverReport | sw2d_final.c:1199-1223 | the loop over characteristic responses and the handles it leaves |
| Daemon.Daemon.ReceiveReports | sw2d_final.c:1247-1279 | the report loop up to a disconnection or the end of the process |
| Daemon.Daemon.UseAttributes | sw2d_final.c:1161-1279 | MTU, service, characteristics, notification write and report loop |
| Daemon.Daemon.StartSession | sw2d_final.c:938-954 | the record is reset, a cancel goes out if the flag is up, the flag is raised |
| Daemon.Daemon.RunSession | sw2d_final.c:938-1298 | the loop body computes the session of the specification |
| Daemon.Daemon.RunSessions | sw2d_final.c:937-1298 | the reconnect loop: proper traces, cancels exactly after unencrypted sessions and never in the first, no create disallowed if no cancel was missed or no session started exposed |
| Bridge.StepKeepsSequence | switch2_btstack_bridge.c:167-431 | any event in any state keeps the pair sequence invariant |
| Bridge.PairSequenceInOrder | switch2_btstack_bridge.c:124-431 | after any events: in PAIRING the step is 0 to 3, both handles are nonzero and unchanged since entry, and the requests since entry are exactly the pair writes up to the step; in NOTIFYING and READY all four and one CCCD write |
| Bridge.ConnectsToAdvertiser | switch2_btstack_bridge.c:367-380 | after any events, while connecting, the address is that of an advertisement that named the manufacturer |
| BridgeProgress.CompletionLeadsOn | switch2_btstack_bridge.c:208-264 | after any events of the modelled client, a successful completion in CHAR_DISCOVERING, PAIRING or NOTIFYING leaves a request outstanding or the bridge READY |
| BridgeProgress.AnsweredLinkIsReady | switch2_btstack_bridge.c:124-412 | in both builds, on any new link whose requests are all answered, the requests are exactly search input, search command, the four pair writes and one CCCD configuration, and the bridge is READY |
| BridgeWorld.RunKeepsOrder | switch2_btstack_bridge.c:167-431 | with a well-behaved client and security manager, both builds keep the joint invariant of state and outstanding request |
| BridgeWorld.OneRequestAtATime | switch2_btstack_bridge.c:192-412 | with the security manager at most one request outstanding and at most one discovery start on a link; in both builds characteristics in the slots of their own UUIDs while no request was made over another |
| BridgeWorld.ClashesExactly | btstack-upstream/example/switch2_btstack_bridge.c:302-412 | a request is made over an outstanding one exactly if, in the direct build, encryption or pairing is first reported after Just Works while a request is outstanding |
| BridgeWorld.DiscoveryStartsOnce | btstack-upstream/example/switch2_btstack_bridge.c:382-412 | in either build, discovery has started at most once on the link exactly if the build waits for the security manager or nothing was reported after Just Works |
| BridgeWorld.PairWriteFollowsCompletion | switch2_btstack_bridge.c:208-264 | in both builds, while no request was made over another, each next pair write answers the successful completion of the one before |
| BridgeWorld.DirectBuildClashes | btstack-upstream/example/switch2_btstack_bridge.c:382-412 | three events that make the direct build issue a request over an outstanding one |
| BridgeDaemon.BridgeDaemon.BuildCmd | switch2_btstack_bridge.c:100-112 | header and data in the caller's buffer, and the length |
| BridgeDaemon.BridgeDaemon.WriteStep | switch2_btstack_bridge.c:124-163 | the write of the current step, none for any other |
| BridgeDaemon.BridgeDaemon.QueryCompleted | switch2_btstack_bridge.c:208-264 | what a completion does in each state |
| BridgeDaemon.BridgeDaemon.GattClientHandler | switch2_btstack_bridge.c:167-280 | the GATT handler moves the globals as the step function says |
| BridgeDaemon.BridgeDaemon.SmPacketHandler | switch2_btstack_bridge.c:302-346 | so does the security manager's handler |
| BridgeDaemon.BridgeDaemon.PacketHandler | switch2_btstack_bridge.c:349-431 | so does the HCI handler, in both builds |
| BridgeDaemon.BridgeDaemon.Handle | switch2_btstack_bridge.c:349-431 | any event: the new globals are the step of the old, so the sequence stays in order |
| PacketStream.ReadAllOfConcat | sw2d.c:240-285 | successive reads of a stream of well-formed packets give exactly those packets |
| PacketStream.ReadAttFindsFirst | sw2d.c:391-439 | on any packets and polls: the payload of the first ATT frame for the handle, -2 if a Disconnection Complete comes first, 0 or -1 if a poll finds no data or the stream ends before |
| PacketStream.AttRoundTrip | sw2d.c:366-439 | every PDU of 1 to 1024 bytes comes back byte for byte into every buffer that holds it |
| PacketStream.FrameTakenExactly | sw2d.c:414-436 | a frame is taken exactly if it is of the handle, on channel 4, and fits; any other is passed over, whatever its flags and trailing bytes |
| PacketStream.EventTakenExactly | sw2d.c:403-412 | a Disconnection Complete with its parameters gives -2; any other event is passed over |
| PacketStream.PayloadComesFromFrame | sw2d.c:414-436 | a payload only comes from a packet that is such a frame |
| PacketStream.LongPacketLosesHeader | sw2d.c:258-280 | a packet too long for the buffer is refused with only its header consumed |
| PacketStream.StrayByte | sw2d.c:255-285 | a byte that begins no packet known is returned by itself |
| PacketStream.ResponseFindsFirst | sw2d.c:441-464 | on any packets, polls and buffer size: decided by the first disconnection, empty PDU or PDU that is no notification, the stream left just behind it; -1 if there is none or a poll finds no data |
| PacketStream.ResponseSkipsNotifications | sw2d.c:441-464 | the first PDU that is no notification is returned, however many notifications, events and frames of others precede it |
| PacketReader.ReadFull | sw2d.c:130-146 | the bytes and the count do not depend on how reads are cut or interrupted; short only at the end of the stream |
| PacketReader.WriteFull | sw2d.c:114-128 | everything is written in order; on failure a prefix is |
| PacketReader.HciReadPacket | sw2d.c:240-285 | return value, buffer and stream left are those of the stream alone, or -1 when a read fails outright |
| PacketReader.ReadPackets | sw2d.c:130-146 | successive reads return exactly the packets of the stream in order, however it is cut, interrupted and timed out |
| PacketReader.AclSendAtt | sw2d.c:366-389 | over 1024 bytes nothing is sent; success means the whole frame was |
| PacketReader.ReadAclAtt | sw2d.c:391-439 | the loop over packet buffers computes the reader on the stream, timeouts included, or gives -1 when a read fails outright |
| PacketReader.AttRequestResponse | sw2d.c:441-464 | request written, then the first non-notification answer or the error; -1 when a write or read fails outright, with no more than a part of the request written |
| HidDescriptor.InterpretIsFold | hid_report_descriptor.h:46-115 | walking the bytes of a descriptor by item lengths takes its items one after the other |
| HidDescriptor.DaemonInterpreted | hid_report_descriptor.h:46-115 | the five fields declared: offsets, sizes, counts, ranges, usages and flags |
| HidDescriptor.GamepadInterpreted | sw2d.c:525-538 | the same for the other table |
| HidReports.LengthsAgree | hid_report_descriptor.h:129-130 | declared bits are exactly those the builders send after the report ID, for both input reports and the output report |
| HidReports.Controller.ParseInput | switch2-bt.c:375-403 | fewer than eleven bytes change nothing; otherwise the fields are the decoded controls |
| HidReports.Controller.BuildHidReport | switch2-bt.c:409-444 | the thirteen bytes, buttons copied one by one |
| HidReports.DaemonButtons | switch2-bt.c:375-444 | every declared button reads as the raw bit sent for the first 21, released for the last three |
| HidReports.DaemonButtonsAsSent | switch2-bt.c:409-444 | all 24 read as sent exactly when the top three raw bits are clear |
| HidReports.DaemonAxes | switch2-bt.c:375-444 | each 16-bit axis field holds the decoded stick, in logical range |
| HidReports.DaemonAxesRaw | switch2-bt.c:375-444 | the four axes read are 16*d[5]+d[6]/16, 16*d[7]+d[6]%16, 16*d[8]+d[9]/16, 16*d[10]+d[9]%16 of the raw report |
| HidReports.DaemonHatRaw | switch2-bt.c:386-444 | the hat read points where the direction bits of d[3] point, and is centred exactly if none or two opposite ones are set |
| HidReports.DaemonHat | switch2-bt.c:375-444 | the hat field holds the decoded direction, in range or the null value; padding is zero |
| HidReports.HatFollowsDirections | switch2-bt.c:386-402 | the hat points where the pressed directions point and is centred exactly when none is pressed or two opposite ones are |
| HidReports.SticksDetermineBytes | switch2-bt.c:380-385 | two reports have equal sticks exactly when their six stick bytes are equal |
| HidReports.StickDecodersAgree | switch2d.py:266-277 | the two decoders agree on a stick exactly when one nibble fills its first two bytes |
| HidReports.Report09ToUhid | sw2d.c:631-658 | refused for a wrong length, first byte or buffer, without touching it; otherwise thirteen bytes, nothing behind them |
| HidReports.GamepadButtons | sw2d.c:631-658 | buttons 1 to 16 as sent, 17 and 18 repeat bits 6 and 7, the others released |
| HidReports.GamepadAxes | sw2d.c:624-658 | each 12-bit axis, two straddling bytes, holds the raw report's stick, in range |
| HidReports.GamepadHat | sw2d.c:604-622 | the hat is centred in every report, padding zero |
| HidReports.GamepadTriggers | sw2d.c:655-656 | each trigger is at an end of its declared range as bit 6 or 7 says |
| Advertising.StructuresOfEncoded | sw2d_final.c:188-225 | reading back encoded AD structures gives them, whatever follows |
| Advertising.AdvDataHasSwitch2 | sw2d_final.c:188-225 | on every byte string the walk finds a match exactly when one of its AD structures is one |
| Advertising.AdvIsNintendo | switch2_btstack_bridge.c:283-298 | the same for the bridge's walk, whose 8-bit cursor never wraps |
| Advertising.TakenByBytes | sw2d_final.c:188-225 | of data made of any structures, which are taken by each walker, told from the bytes |
| Advertising.Switch2ImpliesNintendo | switch2_btstack_bridge.c:283-298 | whatever the daemon takes for a Switch 2 controller the bridge takes for a Nintendo one |
| Advertising.RecognisedAsParsed | switch2d.py:337-362 | the daemon matches manufacturer data wrapped under the company code exactly when the parser reads the controller from it or its first four bytes are vendor and product |
| Advertising.ParsedControllerIsFound | switch2d.py:337-362 | manufacturer data the Python parser reads as the controller is matched by the C walker |
| Advertising.FirstMatchIsFirst | sw2d_final.c:261-298 | the report taken is the first that matches, and none only if none does |
| Advertising.ReportsReadBack | sw2d_final.c:261-298 | reports encoded one after the other are read back, as many as the event says |
| Advertising.ScanEvent | sw2d_final.c:255-298 | on every event payload: the first match among the records that fit, its address and type |
| Advertising.ScanReports | sw2d_final.c:266-298 | the loop over records equals the search over the split list, within the payload |
| Advertising.SoughtIsFirstMatch | sw2d_final.c:266-298 | the search by cursor finds what the search over the split list finds |
| Runner.BridgeWritesTheSameFrames | switch2d.py:838-851 | the bridge's pair writes are the frames this runner builds for the same address |
| RunnerSafety.SessionInOrder | switch2d.py:808-957 | any profile, any failures: the command writes are a prefix of pair then init frames, at most the last fails, the input subscription comes only after all, and success means a subscription and a report |
| RunnerSafety.ReportsOnlyAfterCommands | switch2d.py:1107-1155 | a report is accepted only in a session whose commands were all written |
| RunnerSafety.PairSequenceOk | switch2d.py:808-895 | pair_sequence_ok holds after a session exactly when the profile pairs and all four frames were written |
| RunnerSafety.SearchSettles | switch2d.py:1241-1265 | attempts are a prefix of the order, only the last can be a success, the winner is its profile, and an early end without winner means shutdown |
| RunnerSafety.WinnerIsFirst | switch2d.py:1202-1322 | the winner is the first profile whose session subscribed and accepted a report; exit code 0 exactly if there is one |
| RunnerSafety.ReportIsNotEnough | switch2d.py:945-957 | a session that accepts a report while every subscription attempt fails is no success |
| RunnerStages.ConnectsExactly | switch2d.py:653-680 | the stage succeeds exactly if one of as many turns as there are retries does |
| RunnerStages.SubscribesExactly | switch2d.py:941-957 | the subscription to the matched characteristic likewise |
| RunnerStages.FirstListing | switch2d.py:684-712 | the services are those of the first turn within the retries that lists any |
| RunnerStages.LastHandlesMatch | switch2d.py:730-752 | command and response handles are those of the last characteristics with their UUIDs |
| RunnerStages.FirstInputMatches | switch2d.py:730-745 | the input is the first characteristic with an input UUID and a handle, if any |
| RunnerStages.AcceptedCounts | switch2d.py:988-996 | the filtered profile counts reports of handle 45 and those without a sender, the others all |
| RunnerStages.TakesTheWantedNumber | switch2d.py:1139-1155 | of a steady stream a session takes exactly the number of reports wanted, or all |
| RunnerDaemon.DaemonState.HandleReport | switch2d.py:988-998 | the counters move exactly for senders the profile's handle filter lets through |
| RunnerDaemon.DaemonState.StageConnect | switch2d.py:653-680 | retries until success or exhaustion |
| RunnerDaemon.DaemonState.StageDiscover | switch2d.py:684-776 | handles found and the four ways to fail |
| RunnerDaemon.DaemonState.StagePair | switch2d.py:808-895 | four writes in order, the failing step recorded, the flag raised only after the last |
| RunnerDaemon.DaemonState.StageInit | switch2d.py:903-923 | init writes up to the first failure |
| RunnerDaemon.DaemonState.StageSubscribe | switch2d.py:928-984 | retries on the matched characteristic, or all notifying ones with one success enough |
| RunnerDaemon.DaemonState.RunSession | switch2d.py:1107-1168 | the stage loop computes the session, reports during the final disconnect included, with the order of writes and the meaning of success and of pair_sequence_ok |
| RunnerDaemon.DaemonState.TryProfile | switch2d.py:1202-1238 | success and winner from the session's result and report count |
| RunnerSafety.OnlyOnePairs | switch2d.py:75-138 | of the program's profiles only the experimental one pairs, and it is not searched |
| RunnerSafety.JoyconWinsAfterInit | switch2d.py:1241-1265 | when the search settles on joycon2cpp, the two before it failed and its four init commands were written first |
| RunnerDaemon.DaemonState.AutoDetect | switch2d.py:1241-1322 | attempts, winner and exit code are those of the search in the program's order |
| Analyser.ByteFrequency | tools/dump_reports.py:120-141 | both tables hold, for every position, the number of changes and of each value |
| Analyser.Summary | tools/dump_reports.py:148-180 | every position some report reaches is listed once and in order, static exactly if one value occurs there |
| Analyser.ChangesAreCounted | tools/dump_reports.py:120-132 | the changes of a position are the reports that differ there from the one before |
| Analyser.ValuesArePresent | tools/dump_reports.py:120-132 | the count of a value is the number of reports that have it there |
| Analyser.CountsAddUp | tools/dump_reports.py:120-132 | the value counts of a position sum to the reports that reach it |
| Analyser.DistinctValues | tools/dump_reports.py:120-132 | distinct values number at most changes plus unbroken stretches |
| Analyser.LoopsAgreeExactly | tools/dump_reports.py:120-172 | on any reports a position is static exactly if unchanged, if and only if a change is counted there or all stretches begin with one value |
| Analyser.StaticIffUnchanged | tools/dump_reports.py:120-172 | where reports reach a position in one stretch, it is static exactly if no change is counted |
| Analyser.LoopsAgree | tools/dump_reports.py:120-180 | for reports of one length the summary's verdict and the change table agree at every position, and the counts sum to the number of reports |
| Analyser.GapHidesChange | tools/dump_reports.py:120-172 | three reports of different lengths on which they do not |
| Analyser.DiffReports | tools/dump_reports.py:100-108 | the differences of two reports, padded to the longer |
| Analyser.DifferencesDetermine | tools/dump_reports.py:100-108 | a report and its differences from another determine the other |

## Left out

- Sockets, poll, clocks, sleeps and backoff, signals, uhid and uinput writes, D-Bus walking, bleak calls, logging: replaced by scripts, plans and turns, or dropped.
- AES itself, and whether c1 and s1 follow the Core Specification; the claims are about the code's own definition.
- Transport.HciFrame.Read: only for datagrams whose length fields agree with the bytes received and whose event parameters have at least the length a conforming controller sends; the code takes the lengths from the header.
- Transport.HciFrame.ParseEvent: the same for the event part of it.
- CreateSafety.NoCreateIsDisallowed: the controller executes commands in order, raises events in order, and ends a cancelled create with a status other than success; its condition is sufficient only, the exact one is that of CreateSafety.SessionCanDisallowExactly, session by session.
- Daemon.Daemon.RunSessions: `session_t.state` is not modelled; it is written in the middle of a wait and read only by the report loop, where it always has the value asked for.
- Daemon.Daemon.AwaitConnectionComplete: models rx_await in its one use, without its output buffer.
- AttExactly.SessionAttWrites: a frame of more bytes than the buffer holds shows what the buffer held before, which is left open; frames that fit show themselves.
- TraceSafety.AttributesTrace: says nothing about ATT PDUs after a disconnection, because the MTU, service and notification steps go on after any return code.
- TraceSafety.AwaitPairingResponseTrace: a PDU of more than 32 bytes leaves the buffer as it was and still counts, as in the code; then the stored response is what the buffer held, given by an oracle.
- BridgeWorld.ClashesExactly: for the direct build the stack is assumed to report its state only while there is no link, as it does when it starts; BridgeWorld.DiscoveryStartsOnce assumes the same. For the build with the security manager nothing is assumed about it.
- BridgeWorld.OneRequestAtATime: return values of the GATT client calls are ignored, as the code ignores them; the client is assumed to accept every request.
- The bridge's report of values and its service list beyond the count of 32: nothing depends on them.
- HidReports.StickDecodersAgree: the rounded x_norm and y_norm of the decoder are not modelled.
- RunnerDaemon.DaemonState.StagePair: pair responses are collected and logged but all three ends of the stage raise the flag, so they are left out; the host address is given as six bytes, its lookup and hex parsing are not modelled.
- RunnerDaemon.DaemonState.TryProfile: failure_reason and the stage flags it reads, which survive from earlier profiles, and the telemetry lists are not modelled.
- RunnerDaemon.DaemonState.RunSession: notifications reach the handler only after it was handed to start_notify in the same session; a client left over from an earlier session delivers nothing. Running the plain reconnect loop and the diagnose mode for one profile adds nothing to it.
- RunnerDaemon.DaemonState.StageScan: the advertisement filter of the scan callback is one outcome of a turn; the parser behind it is in `Advertising`.
- Usage and physical extents of the descriptors beyond what a field records (units, physical ranges, collections).
- `src/switch2_protocol.c`, the other daemons and inspectors, and the copies under `legacy/`: straight-line framing or the same code again.
