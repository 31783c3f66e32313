# A verified model of the PRUDP transport, its codecs and the UDP relay

This project models, in Dafny 4.11, the parts of the server that carry data between consoles:

* the **PRUDP reliable transport**: a sender cuts a message into fragments, numbers them with a
  16-bit counter, encrypts them with a running key stream and sends them again until they are
  acknowledged; a receiver reorders by number, decrypts, reassembles and hands messages on;
* the **connection state machine** of a secure endpoint (SYN, CONNECT, DATA, PING, DISCONNECT);
* the **wire formats**: PRUDP version 0 and 1 packets, the version 0 checksum, RMC messages, the
  NEX value types and the text form of station URLs;
* the **UDP relay**: two concurrent pumps per link, and the two handlers that hand out addresses;
* the **round-trip estimate** and the retransmission timeout computed from it.

Code that works step by step is modelled by classes and methods, each proved equal to a
specification function of the old state; what the system promises is then proved of those
functions, over whole runs. Cipher, tickets, sockets, clocks and the iteration order of maps are
parameters, so that every theorem holds for all of them.

## What is proved

* **Delivery** (`Delivery.ReliableDelivery`, `Delivery.HandedAtEveryMoment`). For every list of
  messages and keep-alives, every fragment size, and every loss, repetition and reordering of at
  most 65535 packets numbered from 2, what has been handed on at any moment is exactly what the
  packets make up that come before the first one missing when the last DATA arrived. So it is a
  prefix of the messages sent, and all of them if and only if every packet up to the last fragment
  had arrived when the last DATA arrived. Longer streams are covered as long as no copy arrives
  after its number has come round. The bound is exact: with 65536 packets one repeated packet is
  handed on twice (`Streams.OnePacketMoreIsTooMany`).
* **Reordering across wraparound** (`DispatchQueue.WraparoundRefinement`). The 16-bit queue does
  exactly what a queue over unbounded numbers does, for runs of any length whose arrivals lie in
  the window; outside it a stale copy comes back one lap later.
* **Session safety** (`Session.SessionSafety`). Over every input sequence of any number of peers,
  each "data" event is raised on a connected connection, after a ticket accepted since its last
  SYN, with the PID of the last accepted ticket, for a packet that arrived since that SYN. The
  converse holds too: a peer is connected under a PID if and only if the inputs say so
  (`Session.ConnectedIff`), and what a session hands on from a substream is, in order and once
  each, what a queue of its own would dispatch (`SessionStream.SubstreamFollowsQueue`). SYN
  does not empty the fragment buffers: for every event of every run, `Leftovers` says exactly when
  its payload is made of this session's packets alone.
* **Retransmission** (`Retransmission.BoundedTransmission` and the lemmas beside it). In every
  interleaving of sends, acknowledgements, timers and cleanup: pending is sent minus
  acknowledged, a packet is sent at most 20 times and never after its acknowledgement, and the
  timer after the last attempt ends the connection. A packet sent before the end is never
  transmitted after it; one sent after the end is transmitted exactly once.
* **Checksum** (`Checksum.SingleBitErrorDetected`). Both forms tell apart any two strings of equal
  length that differ in one bit; for the 8-bit form this is an argument about carries. A packet
  sealed under another key is refused exactly when the key sums differ modulo 256
  (`PacketV0.OtherKeyAcceptedIff`).
* **Codecs**. Each round trip is stated with the exact condition under which it holds, and
  `WireLayout` states what is written byte by byte, with a second writer in plain arithmetic.
* **Relay** (`RelayPump.PumpsForwardInOrder`, `RelayLinks.HandoutsAgree`,
  `RelayLinks.TrafficUsesTheToldPort`). In every interleaving, datagrams are forwarded once, in
  order and unchanged, to the other side's latest address; in every run of the handlers it is
  known what each event hands out (`RelayLinks.EventAdds`) and all addresses for a pair come from one link;
  together, all traffic of a pair uses the ports its players were told.

## Where the code differs from what one would expect

* Outgoing packets are numbered from 1 and the incoming queue expects 2. A receiver of this code
  never dispatches the first packet of a fresh sender of this code, and dispatches the others as
  usual (`Delivery.OwnNumberingLosesTheFirst`); what it hands on is then never what was sent
  (`Delivery.OwnNumberingIsNotUnderstood`). Of the streams that arrive whole, exactly those
  numbered from 2 are dispatched whole (`Streams.WholeStreamIff`).
* A reliable PING is queued but does not drain the queue (`Delivery.PingDoesNotDrain`).
* A fragment that waits when its peer starts over is handed on under the PID of the next ticket
  (`Leftovers.FragmentCrossesSessions`).
* A send on a connection that has ended is transmitted (`Retransmission.SendAfterTheEnd`).
* The 256th full fragment carries ID 0 and closes the message (`Fragments.MessageSurvivesIff`).
* Old-form aggregate acknowledgements of odd length are read for ever
  (`AggregateAck.OldFormTerminatesIff`).
* The round-trip time is sampled exactly for packets that were sent again, against the comment in
  the code and section 3 of RFC 6298 (`Retransmission.OnlyResentPacketsAreSampled`).
* The variance is updated from itself and not from the average, unlike section 2.3 of RFC 6298;
  under equal samples it never decays (`Rtt.UpdateIsStandardIff`, `Rtt.VarianceNeverDecays`).
* A station URL with an unknown scheme is replaced by one without a scheme when the relay rewrites
  it (`StationUrl.RewriteOfUnknownScheme`).
* RMC protocol 0x7F is written as the escape for extended IDs but without one
  (`Rmc.EscapeComesBackWrong`).
* Version 0 packets without a size field take everything up to the end of the datagram
  (`PacketV0.UnsizedSwallows`).

## Files

| file | content |
|---|---|
| `Wrappers.dfy`, `Bits.dfy`, `Bytes.dfy`, `Text.dfy` | options, bit operations, little-endian streams, string operations |
| `Cipher.dfy` | key streams and the RC4 object |
| `DispatchQueue.dfy`, `Streams.dfy` | reordering, and numbered streams through a lossy network |
| `Fragments.dfy`, `Delivery.dfy` | fragmentation, end-to-end delivery |
| `Session.dfy`, `Leftovers.dfy`, `SessionStream.dfy` | connection state machine, what its messages are made of, and what a session hands on |
| `Retransmission.dfy`, `AggregateAck.dfy`, `Rtt.dfy` | timers, acknowledgements, round-trip times |
| `PacketV1.dfy`, `PacketV0.dfy`, `Checksum.dfy` | packet formats |
| `Values.dfy`, `Rmc.dfy` | value types, messages |
| `WireLayout.dfy` | all wire formats byte by byte |
| `StationUrl.dfy`, `ConnectionData.dfy` | station URLs, and the structure that carries them |
| `RelayPump.dfy`, `RelayLinks.dfy` | the relay |

`dafny verify dfyconfig.toml` checks the whole project.

## Model

| member | source | states |
|---|---|---|
| Bytes.FromLEOfLE | server/vendor-nex/byte_stream_out.go:60-81 | a number that fits its width is read back from the bytes it was written as |
| Bytes.ReadWritten | server/vendor-nex/byte_stream_in.go:80-105 | reading a number after writing it returns the number and exactly the bytes that followed |
| Bytes.LEDigits | server/vendor-nex/byte_stream_out.go:60-81 | byte i on the wire is digit i of the number to the base 256, lowest first |
| Bytes.ByteStreamIn.Remaining | server/vendor-nex/byte_stream_in.go:50-52 | the number of bytes not yet read |
| Bytes.ByteStreamIn.Read | server/vendor-nex/byte_stream_in.go:63-69 | takes bytes off the front, or fails and leaves the cursor where it was |
| Bytes.ByteStreamIn.ReadUIntLE | server/vendor-nex/byte_stream_in.go:72-105 | reads a little-endian number, or fails and leaves the cursor where it was |
| Bytes.ByteStreamOut.Write | server/vendor-nex/byte_stream_out.go:54-57 | appends the bytes to what was written |
| Bytes.ByteStreamOut.WriteUIntLE | server/vendor-nex/byte_stream_out.go:60-81 | appends the low bytes of the number, least significant first |
| Cipher.XorAtUndo | server/vendor-nex/encryption/rc4.go:42-61 | decrypting at the position where the data was encrypted gives the data back |
| Cipher.XorAtBits | server/vendor-nex/encryption/rc4.go:42-61 | each bit that goes out is the bit of the data, turned over exactly where the key stream has a bit |
| Cipher.EncryptedZeros | server/vendor-nex/encryption/rc4.go:42-50 | zeros are encrypted to the key stream itself |
| Cipher.SameTextIff | server/vendor-nex/encryption/rc4.go:42-61 | two key streams make the same text of some data if and only if they agree at its positions |
| Cipher.PiecesAreOneStream | server/vendor-nex/encryption/rc4.go:42-50 | encrypting pieces one after the other is encrypting their concatenation |
| Cipher.PiecesRoundTrip | server/vendor-nex/encryption/rc4.go:42-61 | pieces encrypted in order and decrypted in order come back piece by piece |
| Cipher.RC4.SetKey | server/vendor-nex/encryption/rc4.go:22-39 | a valid key restarts both key streams and leaves the counters; an invalid one changes only the stored key |
| Cipher.RC4.Encrypt | server/vendor-nex/encryption/rc4.go:42-50 | the payload combined with the next key bytes; position and counter advance by its length |
| Cipher.RC4.Decrypt | server/vendor-nex/encryption/rc4.go:53-61 | the same on the decrypting side, without touching the encrypting side |
| Cipher.RC4.Copy | server/vendor-nex/encryption/rc4.go:64-84 | a new object whose streams have been advanced by the counters |
| Cipher.CountsRunAheadByEarlierKeys | server/vendor-nex/encryption/rc4.go:22-61 | over every history, refused keys included, the counters exceed the positions by exactly the bytes processed before the last accepted key |
| Cipher.CopyKeepsPositionsIff | server/vendor-nex/encryption/rc4.go:64-84 | a copy is in the same state if and only if nothing was processed before the last accepted key, and the last key given was accepted or the ciphers run on the default key |
| DispatchQueue.PacketDispatchQueue.constructor | server/vendor-nex/packet_dispatch_queue.go:39-44 | a new queue is empty and expects number 2 |
| DispatchQueue.PacketDispatchQueue.Enqueue | server/vendor-nex/packet_dispatch_queue.go:13-15 | the packet takes the slot of its number, whatever was dispatched before |
| DispatchQueue.PacketDispatchQueue.GetNextToDispatch | server/vendor-nex/packet_dispatch_queue.go:19-25 | the packet in the expected slot, or none |
| DispatchQueue.PacketDispatchQueue.MarkDispatched | server/vendor-nex/packet_dispatch_queue.go:28-31 | the slot is emptied and the expected number moves on modulo 65536 |
| DispatchQueue.PacketDispatchQueue.Purge | server/vendor-nex/packet_dispatch_queue.go:34-36 | all slots are emptied |
| DispatchQueue.DispatchShrinks | server/vendor-nex/prudp_endpoint.go:602-638 | each round of the drain loop empties one slot, so the loop ends |
| DispatchQueue.DrainTakesFrom | server/vendor-nex/prudp_endpoint.go:602-638 | everything a drain dispatches was in the queue |
| DispatchQueue.WraparoundRefinement | server/vendor-nex/packet_dispatch_queue.go:13-31 | for runs of any length whose true numbers lie in the window, the 16-bit queue dispatches what a queue of unbounded numbers does and stays related to it |
| DispatchQueue.DispatchInOrderWithoutGaps | server/vendor-nex/prudp_endpoint.go:590-639 | the queue of unbounded numbers dispatches consecutive numbers, each a packet that came in under that number |
| DispatchQueue.StaleCopyComesBack | server/vendor-nex/packet_dispatch_queue.go:13-31 | a copy of a packet already dispatched is dispatched again after one lap, for every lap |
| DispatchQueue.RunNumbered | server/vendor-nex/prudp_endpoint.go:590-639 | whatever arrives, dispatch counts through the 16-bit numbers one by one |
| DispatchQueue.RunTakesFrom | server/vendor-nex/prudp_endpoint.go:590-639 | everything dispatched was queued before or arrived |
| DispatchQueue.RunRemembers | server/vendor-nex/packet_dispatch_queue.go:13-31 | what has arrived waits until its number is dispatched |
| Streams.ShortStreamDispatched | server/vendor-nex/prudp_endpoint.go:590-639 | a stream of at most 65535 packets numbered from anywhere, under any loss, repetition and reordering: exactly the packets from number 2 up to the first that was missing when the last DATA arrived are dispatched |
| Streams.WholeStreamIff | server/vendor-nex/packet_dispatch_queue.go:39-44 | with everything arrived and DATA last, such a stream is dispatched whole if and only if it is numbered from 2 |
| Streams.StreamDispatched | server/vendor-nex/prudp_endpoint.go:590-639 | the same for streams of any length numbered from 2 whose copies arrive within a lap |
| Streams.OnePacketMoreIsTooMany | server/vendor-nex/packet_dispatch_queue.go:13-31 | with 65536 packets one repetition is dispatched twice |
| Fragments.FragmenterLaw | server/vendor-nex/prudp_server.go:307-322 | any length and fragment size give len/size full pieces with IDs counting from 1 modulo 256, then one with ID 0 and the remainder; concatenation restores the data |
| Fragments.CutReassembles | server/vendor-nex/prudp_endpoint.go:618-634 | while IDs do not wrap, reassembly of the pieces gives the one message and leaves nothing |
| Fragments.CutClosures | server/vendor-nex/prudp_server.go:307-322 | the exact number of messages a receiver makes of the pieces of one |
| Fragments.MessageSurvivesIff | server/vendor-nex/prudp_server.go:307-322 | a message comes back whole if and only if it has at most 255 full fragments |
| Fragments.ItemsReassemble | server/vendor-nex/prudp_endpoint.go:602-638 | messages and keep-alives in any order reassemble to exactly the messages |
| Fragments.FragmentsAreClosed | server/vendor-nex/prudp_server.go:307-322 | from any fragment of a stream on, some fragment closes a message |
| Delivery.OutgoingSubstream.SendPacket | server/vendor-nex/prudp_server.go:335-399 | numbers and encrypts one fragment so that what was sent is that fragment after all before it |
| Delivery.OutgoingSubstream.Send | server/vendor-nex/prudp_server.go:301-333 | the packets on the wire are exactly the pieces of the message, numbered and encrypted in one stream |
| Delivery.IncomingSubstream.HandlePing | server/vendor-nex/prudp_endpoint.go:468-486 | a reliable PING is queued and nothing is dispatched |
| Delivery.IncomingSubstream.Dispatch | server/vendor-nex/prudp_endpoint.go:603-637 | one dispatched packet is decrypted, added to the buffer, and closes a message if its ID is 0 |
| Delivery.IncomingSubstream.HandleReliable | server/vendor-nex/prudp_endpoint.go:590-639 | a DATA packet is queued and the queue drained, with the effect on queue, cipher, buffer and messages |
| Delivery.ArrivalsDispatch | server/vendor-nex/prudp_endpoint.go:590-639 | what a run hands on depends only on what its queue dispatches |
| Delivery.ConsumeDecrypts | server/vendor-nex/prudp_endpoint.go:603-637 | packets taken in order decrypt and reassemble like the pieces they carry |
| Delivery.HandedAtEveryMoment | server/vendor-nex/prudp_endpoint.go:590-639 | at every moment what has been handed on is exactly what the units make up that come before the first one missing when the last DATA arrived |
| Delivery.ReliableDelivery | server/vendor-nex/prudp_endpoint.go:590-639 | end to end: the messages handed on are a prefix of those sent under any loss, repetition and reordering, and all of them if and only if every unit up to the last fragment had arrived when the last DATA arrived |
| Delivery.PingDoesNotDrain | server/vendor-nex/prudp_endpoint.go:468-486 | a run on which that condition fails although everything has arrived: the PING came last |
| Delivery.OwnNumberingLosesTheFirst | server/vendor-nex/prudp_connection.go:114-122 | of any short stream numbered from 1, under any arrivals, the first packet is never dispatched and what is dispatched is a prefix of the rest |
| Delivery.OwnNumberingIsNotUnderstood | server/vendor-nex/prudp_connection.go:114-122 | so for every list of messages and keep-alives that starts with a message, what is handed on is never what was sent |
| Session.PRUDPConnection.Reset | server/vendor-nex/prudp_connection.go:66-81 | state and queues are cleared, PID and fragment buffers stay |
| Session.PRUDPConnection.InitializePacketDispatchQueues | server/vendor-nex/prudp_connection.go:103-110 | fresh queues for the substreams, the count being an 8-bit sum |
| Session.PRUDPEndPoint.HandleConnect | server/vendor-nex/prudp_endpoint.go:286-432 | ignored before SYN; otherwise queues are rebuilt, and PID and state are set only with an accepted ticket |
| Session.PRUDPEndPoint.HandleReliable | server/vendor-nex/prudp_endpoint.go:590-639 | the new connection and the events raised, in order |
| Session.PRUDPEndPoint.HandleData | server/vendor-nex/prudp_endpoint.go:435-449 | ignored unless connected; reliable and unreliable data raise the events of the specification |
| Session.PRUDPEndPoint.HandlePing | server/vendor-nex/prudp_endpoint.go:468-486 | queued when connected and reliable, without events of its own |
| Session.PRUDPEndPoint.HandlePacket | server/vendor-nex/prudp_endpoint.go:153-164 | dispatch by packet type to the new connection and its events; an acknowledgement changes neither |
| Session.PRUDPEndPoint.FindOrCreate | server/vendor-nex/prudp_endpoint.go:135-149 | the connection of the peer, or a new one in the map; the others stay |
| Session.PRUDPEndPoint.CleanupConnection | server/vendor-nex/prudp_endpoint.go:117-133 | the connection is reset and removed; the others stay |
| Session.PRUDPEndPoint.Process | server/vendor-nex/prudp_endpoint.go:135-165 | one input of any peer changes only that peer's connection and appends its events |
| Session.SessionSafety | server/vendor-nex/prudp_endpoint.go:135-165 | over every run, each data event is raised while connected, after a ticket accepted since the last SYN, with the PID of the last accepted ticket, for an arrival since that SYN |
| Session.StaysConnected | server/vendor-nex/prudp_endpoint.go:155-189 | the converse over every run: a ticket accepted since the last SYN, with no end and no later ticket, leaves the peer connected under its PID, whatever else has arrived, acknowledgements included |
| Session.ConnectedIff | server/vendor-nex/prudp_endpoint.go:135-165 | after every run a peer is connected under a PID if and only if that is the PID of the last ticket accepted since its last SYN, not ended |
| Session.OpenIff | server/vendor-nex/prudp_endpoint.go:239-284 | after every run a peer is past the SYN stage if and only if its last SYN was not ended |
| Session.OthersLeaveTheConnection | server/vendor-nex/prudp_endpoint.go:155-189 | acknowledgements, unreliable packets and packets of other peers leave state, PID, queues and buffers of a connection as they were |
| Session.OnlyDataRaises | server/vendor-nex/prudp_endpoint.go:153-189 | no input but DATA raises an event |
| Session.UnreliableRaisesOne | server/vendor-nex/prudp_endpoint.go:642-701 | unreliable DATA of an authenticated peer raises exactly one event, for itself and under the PID of its ticket, if its fragment ID is 0, and none otherwise |
| Session.UnauthenticatedIsDropped | server/vendor-nex/prudp_endpoint.go:435-449 | DATA and PING of a peer that no accepted ticket connects raise nothing and change nothing |
| Session.ConnectRebuildsQueues | server/vendor-nex/prudp_connection.go:103-110 | CONNECT of an open peer leaves one empty queue, waiting for number 2, for each substream up to the maximum, even if its ticket is refused; none for maximum 255 |
| SessionStream.SubstreamFollowsQueue | server/vendor-nex/prudp_endpoint.go:590-639 | after every run, while a session goes on: the queue of a substream is what a new queue becomes from just the reliable packets of that substream since CONNECT, and the events raised are, in order and once each, the complete messages it dispatched |
| Leftovers.WaitingArrivedBefore | server/vendor-nex/prudp_connection.go:227-240 | what waits in a fragment buffer arrived earlier in the run |
| Leftovers.BufferKept | server/vendor-nex/prudp_connection.go:66-81 | since a SYN, and until an event is raised on the substream, its buffer starts with what waited at the SYN and grows only by later arrivals; after that it holds later arrivals only |
| Leftovers.MessageOfThisSessionIff | server/vendor-nex/prudp_endpoint.go:618-634 | for every event of every run: its parts all arrived since the SYN if and only if the last DATA dispatched on the substream before the SYN had closed its message, or an event was raised on it since |
| Leftovers.WaitingEmptyIff | server/vendor-nex/prudp_endpoint.go:618-634 | nothing waits in a buffer if and only if the last DATA dispatched on the substream closed its message |
| Leftovers.FirstMessageAfterSyn | server/vendor-nex/prudp_connection.go:66-81 | after any run, a new handshake and a one-fragment message, the event has the new PID and its payload starts with what waited before the SYN |
| Leftovers.FragmentCrossesSessions | server/vendor-nex/prudp_connection.go:66-81 | a run on which a fragment of one session is handed on in the next, under another PID |
| Retransmission.TimeoutManager.SchedulePacketTimeout | server/vendor-nex/timeout_manager.go:17-31 | a packet takes the next number, is transmitted and pending under it, and its timer runs, whatever the state of the connection |
| Retransmission.TimeoutManager.AcknowledgePacket | server/vendor-nex/timeout_manager.go:34-43 | a pending number is removed and sampled if sent often enough; other numbers change nothing |
| Retransmission.TimeoutManager.Start | server/vendor-nex/timeout_manager.go:45-82 | a timer that fires stops, resends, or ends the connection |
| Retransmission.TimeoutManager.Stop | server/vendor-nex/timeout_manager.go:85-88 | nothing is pending any more, and nothing else changes |
| Retransmission.TimeoutManager.Cleanup | server/vendor-nex/prudp_connection.go:66-90 | the connection is closed, its window stopped, and the next send finds a fresh one numbered from 1 |
| Retransmission.PendingIsSentMinusAcknowledged | server/vendor-nex/timeout_manager.go:17-88 | in every run pending is exactly the packets sent and not acknowledged, each under its own number; after the end none of those sent before it is pending |
| Retransmission.BoundedTransmission | server/vendor-nex/timeout_manager.go:45-82 | each packet is sent at least once, at most the configured number of times, and never after its acknowledgement |
| Retransmission.TwentyByDefault | server/vendor-nex/timeout_manager.go:45-82 | with the default settings at most 20 transmissions; the timer after the 20th ends the connection, and none before it does |
| Retransmission.AfterTheEnd | server/vendor-nex/timeout_manager.go:45-82 | a packet transmitted before the connection ended is never transmitted after it; one transmitted after is transmitted exactly once |
| Retransmission.SendAfterTheEnd | server/vendor-nex/prudp_connection.go:125-137 | a send after the end is transmitted, and its timer does nothing |
| Retransmission.UnacknowledgedIsResentOrEndsTheConnection | server/vendor-nex/timeout_manager.go:45-82 | an unacknowledged packet has a timer, which resends it, or ends the connection after the last attempt |
| Retransmission.AcknowledgedIsLeftAlone | server/vendor-nex/timeout_manager.go:45-82 | the timer of an acknowledged packet, or one that fires after the end, does nothing |
| Retransmission.OnlyResentPacketsAreSampled | server/vendor-nex/timeout_manager.go:34-43 | with the default settings exactly the acknowledged packets that were sent at least twice are sampled |
| Retransmission.OneLapReusesNoNumber | server/vendor-nex/prudp_server.go:391-399 | a session of at most 65536 reliable sends meets the condition of the lemmas above |
| Retransmission.ReuseResendsAcknowledgedPacket | server/vendor-nex/timeout_manager.go:45-82 | without it, a timer resends a packet acknowledged one lap ago |
| AggregateAck.OldFormTerminatesIff | server/vendor-nex/prudp_endpoint.go:217-220 | the loop over an old-form payload ends if and only if its length is even |
| AggregateAck.Decode | server/vendor-nex/prudp_endpoint.go:191-221 | window, base number and listed numbers of both forms, reads past the end giving zero |
| AggregateAck.NewFormRead | server/vendor-nex/prudp_endpoint.go:201-215 | window, count, base and numbers written as bytes are read back, whatever the number of the packet that carries them |
| AggregateAck.OldFormRead | server/vendor-nex/prudp_endpoint.go:216-221 | numbers that fill the payload are read back, with window 0 and the packet's own number as base |
| AggregateAck.NewFormEffect | server/vendor-nex/prudp_endpoint.go:191-237 | from the bytes of a new-form packet to its effect: a number still waits if and only if it did and is of another window, or above the base and not listed |
| AggregateAck.OldFormEffect | server/vendor-nex/prudp_endpoint.go:191-237 | the same for the old form, whose window is 0 and whose base is the packet's number |
| AggregateAck.AcknowledgeCovered | server/vendor-nex/prudp_endpoint.go:223-237 | exactly the pending numbers at most the base or listed are removed, and the new state, log and samples included, is the old one after single acknowledgements |
| AggregateAck.AggregateIsARun | server/vendor-nex/prudp_endpoint.go:191-237 | on a live connection an aggregate is a run of single acknowledgements, so the lemmas about runs cover it |
| AggregateAck.HandleMultiAcknowledgment | server/vendor-nex/prudp_endpoint.go:191-237 | only the named window is touched, and exactly the covered numbers leave its pending set |
| AggregateAck.SameLapComparesTruly | server/vendor-nex/prudp_endpoint.go:225-231 | within a lap the 16-bit comparison is the comparison of the true numbers |
| AggregateAck.LaterPacketLostIff | server/vendor-nex/prudp_endpoint.go:225-236 | a later packet that is not listed is removed if and only if it is in another lap than the base |
| Rtt.RTT.Adjust | server/vendor-nex/rtt.go:26-39 | the first sample sets, every other moves, average and variance |
| Rtt.AverageStaysBetween | server/vendor-nex/rtt.go:26-39 | over every sequence of samples the average stays between the least and greatest of three times the first and the later ones |
| Rtt.VarianceStaysBetween | server/vendor-nex/rtt.go:26-39 | the variance stays between zero and the greatest sample |
| Rtt.FirstSample | server/vendor-nex/rtt.go:32-37 | the first sample gives three times itself as average and half of itself as variance |
| Rtt.LaterSamplesMove | server/vendor-nex/rtt.go:26-31 | after any samples, the next moves the average by an eighth of the way to it and the variance by a quarter of the way to its own distance from it |
| Rtt.UpdateIsStandardIff | server/vendor-nex/rtt.go:26-39 | an update agrees with section 2.3 of RFC 6298 if and only if the sample is as far from the variance as from the average |
| Rtt.FirstUpdateIsStandardIff | server/vendor-nex/rtt.go:32-37 | the first update agrees with section 2.2 of RFC 6298 if and only if the sample is zero |
| Rtt.VarianceNeverDecays | server/vendor-nex/rtt.go:26-39 | after any number of equal samples the variance is half of one |
| Rtt.StandardVarianceDecays | server/vendor-nex/rtt.go:26-39 | where that of RFC 6298 falls by a quarter each time |
| Rtt.TimeoutNeverShrinks | server/vendor-nex/prudp_endpoint.go:759-789 | below the trigger the timeout does not fall as the packet is sent more often |
| Rtt.TimeoutFallsAtTrigger | server/vendor-nex/prudp_endpoint.go:759-789 | at the trigger it falls, exactly when the base is not zero |
| Rtt.TimeoutIsPositiveIff | server/vendor-nex/prudp_endpoint.go:759-789 | the timeout is not zero if and only if nothing was measured or the average is at least 8 ms |
| Rtt.SlowRoundTripsAlwaysWait | server/vendor-nex/prudp_endpoint.go:759-789 | after any samples of at least 8 ms every retransmission waits |
| Rtt.TimeoutWithoutMeasurement | server/vendor-nex/prudp_endpoint.go:759-789 | without a measurement the timeout is 937.5 ms, for a SYN packet 312.5 ms, times the number of transmissions, rounded down |
| Rtt.TimeoutFromTrigger | server/vendor-nex/prudp_endpoint.go:759-789 | five quarters of base times transmissions, rounded down, below 50 transmissions, and the plain product from 50 on |
| Rtt.FirstTimeouts | server/vendor-nex/stream_settings.go:54-70 | the first timeout is 937 ms, for a SYN packet 312 ms, after one round trip of 80 ms 37 ms |
| PacketV1.HeaderRoundTrip | server/vendor-nex/prudp_packet_v1.go:140-219 | header fields in range are read back |
| PacketV1.OptionRoundTrip | server/vendor-nex/prudp_packet_v1.go:221-323 | every option is read back as the field it sets, with exactly its bytes consumed |
| PacketV1.OptionsRoundTrip | server/vendor-nex/prudp_packet_v1.go:221-323 | any sequence of known options is read as setting the fields in that order |
| PacketV1.OptionOrderIsFree | server/vendor-nex/prudp_packet_v1.go:221-282 | known options without repetition decode to the same fields in every order |
| PacketV1.DecodedInRange | server/vendor-nex/prudp_packet_v1.go:76-111 | whatever decodes has all fields in range |
| PacketV1.DecodedSigned | server/vendor-nex/prudp_packet_v1.go:76-111 | whatever decodes has a signature of 16 bytes and a connection signature of 16 bytes or none |
| PacketV1.PacketRoundTripIff | server/vendor-nex/prudp_packet_v1.go:76-138 | a packet comes back and exactly its bytes are consumed if and only if its fields are in range and its signatures have 16 bytes |
| WireLayout.V1Layout | server/vendor-nex/prudp_packet_v1.go:113-138 | byte for byte what a packet is written as: magic EA D0, version 1, lengths, ports, type and flags, IDs, signature, options by type with their numbers and sizes, payload |
| WireLayout.OptionsWritten | server/vendor-nex/prudp_packet_v1.go:284-323 | types 0 and 1 carry options 0, 1 and 4, type 1 option 3 before the last, type 2 its fragment ID in option 2, the others none |
| PacketV1.DatagramRoundTrip | server/vendor-nex/prudp_packet_v1.go:356-369 | a datagram of packets in range decodes to exactly those packets |
| PacketV1.DecodeHeader | server/vendor-nex/prudp_packet_v1.go:140-203 | the header parser on the stream, with every error |
| PacketV1.DecodeOption | server/vendor-nex/prudp_packet_v1.go:240-278 | one option on the stream; unknown options leave their body unread |
| PacketV1.DecodeOptions | server/vendor-nex/prudp_packet_v1.go:221-282 | the option loop on its own stream |
| PacketV1.DecodePacket | server/vendor-nex/prudp_packet_v1.go:76-111 | the packet parser on the stream, with every error |
| PacketV1.DecodeDatagram | server/vendor-nex/prudp_packet_v1.go:356-369 | all packets up to the first error, and whether there was one |
| PacketV1.WriteOptions | server/vendor-nex/prudp_packet_v1.go:284-323 | the options of the packet's type, in order |
| PacketV1.WriteHeader | server/vendor-nex/prudp_packet_v1.go:205-219 | the twelve header bytes |
| PacketV1.PacketBytes | server/vendor-nex/prudp_packet_v1.go:113-138 | magic, header, signature, options and payload |
| Checksum.Calculate | server/vendor-nex/prudp_packet_v0.go:355-390 | the loops compute the word sum, padded and 32-bit, or with the bytes left over and folded to 8 bits |
| Checksum.SumOf | server/vendor-nex/sum.go:5-11 | the loop computes the sum of the bytes |
| Checksum.WordSumUpdate | server/vendor-nex/prudp_packet_v0.go:355-390 | changing one byte shifts the 32-bit word sum by the weighted difference |
| Checksum.KeyMovesFolded | server/vendor-nex/prudp_packet_v0.go:380-388 | a key sum larger by d makes the 8-bit form larger by d modulo 256 |
| Checksum.KeyMovesEnhanced | server/vendor-nex/prudp_packet_v0.go:355-378 | the 32-bit form changes by the change of the low byte of the key sum |
| Checksum.BaseValue | server/vendor-nex/prudp_packet_v0.go:355-390 | without a key, zeros of any length have checksum 0 in both forms |
| Checksum.SameChecksumIff | server/vendor-nex/prudp_packet_v0.go:355-390 | two keys give any data the same checksum if and only if their byte sums agree modulo 256 |
| Checksum.AddCarries | server/vendor-nex/prudp_packet_v0.go:378-388 | how the byte sum of a word changes when one of its bytes is increased, carry by carry |
| Checksum.FoldDiffers | server/vendor-nex/prudp_packet_v0.go:378-388 | the folded byte changes whenever a byte of the word sum moves by 1 to 128 |
| Checksum.SingleBitErrorDetected | server/vendor-nex/prudp_packet_v0.go:355-390 | both forms differ for any two strings of equal length that differ in exactly one bit |
| PacketV0.AcceptedIff | server/vendor-nex/prudp_packet_v0.go:154-186 | a body with a checksum is accepted if and only if the checksum is that of the body |
| PacketV0.PacketRoundTripIff | server/vendor-nex/prudp_packet_v0.go:62-237 | a sized or last packet comes back and exactly its bytes are consumed if and only if its fields are in range |
| PacketV0.OtherKeyAcceptedIff | server/vendor-nex/prudp_packet_v0.go:166-186 | a packet sealed under one access key comes back under another if and only if their byte sums agree modulo 256, and is refused otherwise |
| WireLayout.V0Layout | server/vendor-nex/prudp_packet_v0.go:192-237 | byte for byte what a packet is written as: ports, type and flags, session, signature, number, connection signature or fragment ID by type, size if flag bit 3 is set, payload, and the checksum of all that |
| PacketV0.FlippedBitRefused | server/vendor-nex/prudp_packet_v0.go:166-186 | a packet with one bit of its body flipped and the same layout is refused, with either checksum and whatever follows a sized packet |
| PacketV0.UnsizedSwallows | server/vendor-nex/prudp_packet_v0.go:136-158 | a packet without a size is never read correctly when something follows it |
| PacketV0.DatagramRoundTripIff | server/vendor-nex/prudp_packet_v0.go:272-285 | a datagram of packets in range decodes to exactly those packets if and only if all but the last carry their size |
| PacketV0.VersionsAreToldApart | server/vendor-nex/prudp_server.go:222-249 | packets with equal stream types never go to the version 1 decoder; packets of version 1 always do |
| PacketV0.DecodeExtras | server/vendor-nex/prudp_packet_v0.go:115-132 | connection signature or fragment ID by packet type |
| PacketV0.DecodeSize | server/vendor-nex/prudp_packet_v0.go:134-152 | the size field, or what is left before the checksum as 16 bits |
| PacketV0.DecodeChecksum | server/vendor-nex/prudp_packet_v0.go:160-188 | the checksum covers exactly what was read of this packet |
| PacketV0.DecodePacket | server/vendor-nex/prudp_packet_v0.go:62-189 | the packet parser on the stream, with every error |
| PacketV0.DecodeDatagram | server/vendor-nex/prudp_packet_v0.go:272-285 | all packets up to the first error, and whether there was one |
| PacketV0.PacketBytes | server/vendor-nex/prudp_packet_v0.go:192-237 | header, optional fields, payload and checksum |
| Values.ValueRoundTrip | server/vendor-nex/types/list.go:21-62 | every nesting of numbers, booleans, strings, lists, maps and structures that fits is read back, with exactly the bytes that followed left |
| Values.MapInAnyOrder | server/vendor-nex/types/map.go:26-73 | in whatever order a map is iterated, reading it back gives the map |
| Values.StringRoundTrip | server/vendor-nex/types/string.go:15-60 | a string that does not end in NUL and whose length fits is read back, in both length widths |
| Values.UnfitStringChanges | server/vendor-nex/types/string.go:15-60 | any other string is read back as a different one |
| Values.ListRoundTrip | server/vendor-nex/types/list.go:21-62 | a list whose elements fit and whose length takes 32 bits is read back |
| Values.MapRoundTrip | server/vendor-nex/types/map.go:26-73 | a map whose keys and values fit is read back |
| Values.HeaderRoundTrip | server/vendor-nex/types/structure.go:14-42 | the version is read back with a header, or is 0 without one, and the length never refuses the content |
| Values.UnfitChanges | server/vendor-nex/types/list.go:21-62 | a value without maps that does not fit is never read back as it was, even where it could be read from other bytes |
| Values.ReadIsReadable | server/vendor-nex/types/map.go:48-73 | whatever bytes are read, numbers are below their width, strings trimmed and within their length, counts within 32 bits |
| Values.UnfitIsUnreadable | server/vendor-nex/types/map.go:26-73 | a value that does not fit, maps included, is read from no bytes at all |
| Values.ValueRoundTripIff | server/vendor-nex/types/rv_connection_data.go:19-67 | a value is read back if and only if it fits, maps, headers and versions included |
| Values.ConnectionDataRoundTripIff | server/vendor-nex/types/rv_connection_data.go:19-67 | the structure with its URLs as text is read back if and only if structures have headers or the version is 0, both texts fit, and the list fits |
| WireLayout.ConnectionDataLayout | server/vendor-nex/types/rv_connection_data.go:19-37 | byte for byte what the structure is written as, in both settings: header, URL, protocols, special URL, and the time from version 1 on |
| ConnectionData.StationsRoundTripIff | server/vendor-nex/types/rv_connection_data.go:19-67 | the structure with its URLs parsed comes back if and only if, in addition, both stations are separable, for every order their parameters are written in |
| Values.WriteStringTo | server/vendor-nex/types/string.go:15-26 | length with the terminator, characters, terminator |
| Values.WriteListTo | server/vendor-nex/types/list.go:21-27 | length, then the elements in order |
| Values.WriteMapTo | server/vendor-nex/types/map.go:26-33 | length, then keys and values in iteration order |
| Values.WriteStructureTo | server/vendor-nex/types/rv_connection_data.go:19-37 | header with the length of the content, then the fields the version has |
| Values.ExtractStringFrom | server/vendor-nex/types/string.go:29-60 | the string parser on the stream, with every error |
| Values.ExtractListFrom | server/vendor-nex/types/list.go:42-62 | the list loop on the stream, with every error |
| Values.ExtractMapFrom | server/vendor-nex/types/map.go:48-73 | the map loop on the stream, a repeated key keeping its last value |
| Values.ExtractHeaderFrom | server/vendor-nex/types/structure.go:14-34 | the header parser on the stream, with every error |
| Values.ExtractStructureFrom | server/vendor-nex/types/rv_connection_data.go:40-67 | the fields the version has, read from the stream |
| Rmc.FrameRoundTrip | server/vendor-nex/rmc_message.go:57-67 | the size in front is accepted if and only if it fits 32 bits |
| Rmc.ProtocolRoundTrip | server/vendor-nex/rmc_message.go:69-83 | every protocol ID but 0x7F is read back, short or extended, with the request flag |
| Rmc.PackedRoundTripIff | server/vendor-nex/rmc_message.go:57-132 | a packed message comes back in every field its kind carries if and only if its protocol is not 0x7F, the marker bit of a success is clear and its size fits |
| WireLayout.PackedLayout | server/vendor-nex/rmc_message.go:218-273 | byte for byte what a packed message is written as: size, protocol with the request bit 0x80 or the escape 0x7F, call and method in order, the method of a success with 0x8000, the error before the call |
| Rmc.EscapeComesBackWrong | server/vendor-nex/rmc_message.go:74-81 | a message of protocol 0x7F never comes back |
| Rmc.VerboseRoundTripIff | server/vendor-nex/rmc_message.go:134-207 | for every iteration order of its versions, a verbose message comes back in every field its kind carries if and only if its names, its versions and its size fit |
| WireLayout.VerboseLayout | server/vendor-nex/rmc_message.go:275-322 | byte for byte what a verbose message is written as, each structure name before its version |
| Rmc.FromPackedBytes | server/vendor-nex/rmc_message.go:57-132 | the packed decoder on a stream, with every error |
| Rmc.PackedBytes | server/vendor-nex/rmc_message.go:218-273 | the packed encoder by branch |
| Rmc.FromVerboseBytes | server/vendor-nex/rmc_message.go:134-207 | the verbose decoder on a stream, with every error |
| Rmc.VerboseBytes | server/vendor-nex/rmc_message.go:275-322 | the verbose encoder by branch, a missing container being written as an empty one |
| Text.DecimalRoundTrip | server/vendor-nex/types/station_url.go:219-221 | a number in decimal digits is parsed back |
| Text.DecimalExamples | server/vendor-nex/types/station_url.go:219-221 | numbers and signs as the standard library writes and reads them |
| Text.SplitUndoesJoin | server/vendor-nex/types/station_url.go:645-714 | joined parts without the separator are split into the same parts |
| StationUrl.ParsedClean | server/vendor-nex/types/station_url.go:603-679 | no parsed key or value has a separator |
| StationUrl.Limits | server/vendor-nex/types/station_url.go:645-664 | an address is refused if and only if it has more than 256 characters, a port if and only if it is above 65535 or below 0 |
| StationUrl.LongestText | server/vendor-nex/types/station_url.go:603-632 | texts of more than 1024 characters are neither parsed nor written; a text that starts with udp:/ and is not longer is parsed |
| StationUrl.TextLayout | server/vendor-nex/types/station_url.go:682-732 | the text of stations of each scheme, with its separators in place |
| StationUrl.SeparableRoundTrip | server/vendor-nex/types/station_url.go:603-732 | for every iteration order, a separable station that can be formatted is parsed back as it was |
| StationUrl.RoundTripIff | server/vendor-nex/types/station_url.go:603-732 | it is parsed back if and only if it is separable: no separators, known scheme or no parameters, standard parameters beside custom ones, flags as in the type parameter |
| StationUrl.CustomAloneChanges | server/vendor-nex/types/station_url.go:645-674 | a station with only custom parameters comes back with another parameter |
| StationUrl.RewriteKeepsTheRest | server/relay_integration.go:110-113 | for every text with a known scheme, the rewritten station reads as the same station with the new address and port, every other parameter kept; it is written unless address or text is too long |
| StationUrl.RewriteOfUnknownScheme | server/relay_integration.go:110-113 | a text with an unknown scheme is replaced by address and port without a scheme, which parses as no station; it is written unless address or text is too long |
| StationUrl.Rewrite | server/relay_integration.go:110-113 | parsing the text, setting address and port and formatting the object gives the text the lemmas speak of, or the old one |
| StationUrl.StationURL.constructor | server/vendor-nex/types/station_url.go:787-797 | a station made from a text has been parsed from it |
| StationUrl.StationURL.ParseUrl | server/vendor-nex/types/station_url.go:603-632 | length limits, scheme and early returns |
| StationUrl.StationURL.ParseSections | server/vendor-nex/types/station_url.go:634-679 | the two sections, what was set before a refused parameter staying set, and the flags |
| StationUrl.StationURL.SetStandardParameters | server/vendor-nex/types/station_url.go:645-664 | the loop up to the first refused parameter |
| StationUrl.StationURL.Format | server/vendor-nex/types/station_url.go:682-732 | the new text for the given orders, or the old one where the formatter gives up |
| RelayPump.PumpsForwardInOrder | server/relay.go:111-123 | in every interleaving each side's datagrams are accounted for: the first ones dropped, the others sent on once, in order, unchanged up to 2048 bytes, from the right socket, to an address heard on the other side; only one side drops |
| RelayPump.ForwardsToLatestAddress | server/relay.go:111-123 | after every interleaving a pump sends the datagram it has in hand, cut to 2048 bytes, to where the last datagram stored on the other side came from, or drops it if there is none |
| RelayPump.SocketsAreCrossed | server/relay.go:101-106 | what A sends is read from the socket that reaches B and sent on from the socket that reaches A |
| RelayPump.NothingIsLostOnceBothAreHeard | server/relay.go:111-123 | once both addresses are stored nothing more is dropped |
| RelayPump.FirstDatagramIsLost | server/relay.go:111-123 | a datagram from one side is lost while the other was not heard |
| RelayPump.RelayLink.ReadFromUDP | server/relay.go:112-117 | a datagram cut to the buffer is in hand |
| RelayPump.RelayLink.StoreSource | server/relay.go:118-118 | the address it came from is stored |
| RelayPump.RelayLink.WriteToPeer | server/relay.go:119-121 | it is sent to the address loaded from the other side, or dropped |
| RelayLinks.PairKeyIsInjective | server/relay.go:48-53 | two keys are equal if and only if they name the same two players, in either order |
| RelayLinks.GetLinkKeeps | server/relay.go:73-109 | a call returns the pair's link, adds at most one and replaces none |
| RelayLinks.GetLinkIff | server/relay.go:73-109 | a call gives a link if and only if the pair had one or both sockets open, and links no other pair |
| RelayLinks.NewLinkPorts | server/relay.go:125-131 | in a new link the first socket's port is that of the player named first, the second's that of the other |
| RelayLinks.HostsAreDealtInTurn | server/relay.go:79-100 | a host that probes new players tells each in turn the next address of the pool, the public one where the pool has none, and its own port on their link |
| RelayLinks.RunKeeps | server/relay_integration.go:44-56 | over every run of the handlers links are never replaced and every handout is the pair's link address |
| RelayLinks.EventAdds | server/relay_integration.go:44-115 | over every run, exactly what each event hands out: session URLs one address for each of the host's stations if the host is connected and there is a link; a probe one for each target of a host link that has a link by then, in target order, with that receiver and the caller's port |
| RelayLinks.ProbeLinksIff | server/relay_integration.go:106-115 | a player is linked with the caller after a probe if and only if it was before, or sockets opened for it as target of a host link |
| RelayLinks.ProbeExample | server/relay_integration.go:106-115 | host 7 probes player 9 over ports 5000 and 5001: 9 is told 5000, and 7 is told 5001 when 9 probes back |
| RelayLinks.HandoutsAgree | server/relay_integration.go:93-115 | in every run all addresses handed out for a pair of distinct players come from one link, and each side is told the other's port |
| RelayLinks.TrafficUsesTheToldPort | server/relay.go:101-131 | the port a player was told is the one its datagrams are read from and the one the peer's datagrams are forwarded from, in every run and interleaving |
| RelayLinks.RelayManager.SetHosts | server/relay.go:42-46 | the pool is replaced, links and cursor stay |
| RelayLinks.RelayManager.GetOrOpen | server/relay.go:73-109 | the existing link, or a new one with the next host; the cursor moves even when a socket cannot be opened |
| RelayLinks.RelayManager.RelayGetSessionURLs | server/relay_integration.go:44-56 | the caller is told the host's port once for each of its stations, if the host is connected and there is a link |
| RelayLinks.RelayManager.RelayRequestProbeInitiationExt | server/relay_integration.go:93-115 | each target of a host link is told the caller's port, in the order of the targets |

## Left out

- AggregateAck.Decode: old-form payloads of odd length are excluded, because the loop does not end on them (AggregateAck.OldFormTerminatesIff).
- AggregateAck.HandleMultiAcknowledgment: the same payloads are excluded.
- Values.ValueRoundTripIff: values with maps that hold a string of exactly 65535 bytes (or 4294967295, with wide lengths) are excluded; such a string can be read but not written.
- Values.UnfitChanges: covers values without maps; those with maps are covered by Values.UnfitIsUnreadable.
- Rmc.VerboseRoundTripIff: excludes requests with a structure name of that one length.
- PacketV0.FlippedBitRefused: a flipped bit that changes the layout (packet type, flags, size field) is not covered, because other bytes are then taken for the checksum.
- PacketV0.DatagramRoundTripIff: for datagrams below 65536 bytes, the most that UDP carries.
- Rtt.TimeoutNeverShrinks: up to 49 transmissions, where the multiplier changes; 20 are made at most.
- RelayPump.PumpsForwardInOrder: datagrams lost between the sockets and the network are not modelled.
- RelayLinks.RelayManager.RelayRequestProbeInitiationExt: the targets are those whose station resolves to a connection; the RMC requests sent to them are not modelled.
- HPP responses, which leave out the protocol and are decoded by the console only.
- Quazal mode of version 0 packets (one byte for type and flags), and PRUDPLite over WebSocket.
- The cipher's permutation, MD5, HMAC, packet signatures and compression: the key stream is an arbitrary function, the compression the identity, as configured.
- Encryption of unreliable DATA and session keys of several substreams, which depend on shared state and map order.
- The content of Kerberos tickets: a CONNECT carries the PID of its ticket or none.
- Steps finer than one handled packet: a connection that ends while another packet waits for its lock is modelled as ending before or after it.
- Heartbeat timers, whose only effect on the model is the cleanup they may cause.
- The concurrency of timers and repeated CONNECT: the retransmission lemmas are about one window of a connection that is opened once.
- Time itself: a timer may fire at any step. Durations of the round-trip estimate are reals, without the rounding of floating point.
- Text encodings: characters of station URLs stand for bytes, and limits count characters; ConnectionData.StationsRoundTripIff is about characters below 256.
- Equality and copy methods of the value types, SQL conversions, pretty printing.
- HTTP, TLS, account registration, database access, matchmaking, metrics and logging.
