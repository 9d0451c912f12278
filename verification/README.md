# A model of BTP and BRFT in Dafny

BTP is a reliable transport over UDP with 16-bit packet numbers; BRFT is a file transfer protocol with
resumption on top of it. This project models both and proves what they guarantee, from one ring slot of
the receiver up to a whole download over a network that loses, reorders and repeats datagrams.
`dafny verify dfyconfig.toml` checks everything.

## How it is built

Code that works by changing things step by step is modelled by classes and methods with loops; each is
proved equal to a function of its old state, and the properties are proved about these functions: what
each one computes is also stated without its name, and runs are sequences of steps over them.

- `PacketNumbers`, `DataReader`, `ReaderRuns`: the 16-bit number circle, the ring of the receiver, and
  whole runs of it. The ring refines an unbounded map from absolute number to packet.
- `ByteStream`, `Congestion`, `Sender`, `Connection`: a connection object with `Write`, `Read`,
  transmission, retransmission, acknowledgements, and both halves of the handshake.
- `Transport`, `TransportSafety`, `Delivery`, `TransportOrder`: sender, network and receiver as a step
  system, its invariant, what follows from it, the recovery from every state that can recover, and exactly
  when order is kept.
- `Simulation`: every method of a connection object is a run of that step system.
- `Handshake`, `Opened`: one client, a listener that opens a connection for every copy of a Conn, and the
  link from the handshake's result to the start of the transport.
- `Messages`, `Codec`, `Decoder`, `WireFormat`, `MessageStream`: the bytes of all seven messages, encoders
  and decoders, where each field stands, and the proof that the stream delimits itself.
- `BrftFiles`, `ChunkLoop`, `Transfer`, `Resumption`: files as bytes and a cursor, the server's loop, both
  sides of a session, and runs of sessions.
- `SendQueues`, `MetaPaging`, `Dispatch`: the two queues, listings in pages, and the client's dispatch.
- `Conversation`: both directions of a connection, and what the two sides wait for.
- `EndToEnd`: all of it composed.
- `Rtt`: the round-trip estimator.

Packets carry their unbounded number `num` as history; the code reads only `SeqNr()`, its value modulo
2^16. `nextNum` of a connection is the same kind of label.

## Premises

The code does not check these, so the theorems assume them; where it was cheap a lemma shows a run that
fails without them.

- The waiting reader takes only packets that are not delivered yet and at most 36 ahead of the next one
  (`Timely`, for a ring of 50). `ReaderRuns.WindowIsTight` and `ReaderRuns.StaleCopy` break it;
  `TransportOrder.InOrderExactly` does without it and says exactly when order is kept.
- When a packet is sent, no datagram, acknowledgement or watched packet is 2^16 numbers old (`Young`).
- The network holds no second copy of the last handshake message once the connection is open.
  `TransportSafety.StrayHandshakeAck` breaks it.
- In runs of the transport, writing to the local UDP socket succeeds; losing the datagram is the network's
  part. `Connection.Conn.Transmit` has both cases, and `Sender.FailedWriteForgets` says what goes wrong.
- A dialling client has a congestion object of its own: the source uses the one in the caller's options.
- Decompression undoes compression, checksums are 32 bytes, and contents with equal checksums among those
  offered for one download are equal. A file's size fits 64 bits.
- A stream pushes to outData only when its FileResp has left, and the server answers listings in the order
  in which they were asked for. `SendQueues` and `Dispatch` assume this; `Conversation` derives it from what
  both sides wait for. `SendQueues.DataMayOvertake` breaks it.

## Where the code differs from what it is meant to do

The model follows the code.

- A rest that is a multiple of the chunk size ends with Undefined, not TransferComplete, so such a file,
  the empty one included, is never completed (`Resumption.NeverCompletes`).
- A client file that lacks only its Close asks for an offset that the server refuses, and stays as it is.
- `SeekOffset` does not skip the header of a client file, although its comment says it does.
- The listener sends the minimum of both sides' options but keeps its own (`Handshake.ServerKeepsItsOptions`).
- The client adopts the negotiated initial window as an option, but its congestion object, made before, is
  not reset as a comment says (btp/conn.go:64), so the negotiated window is in force there only when the
  object's own one happens to be the same (`Handshake.NegotiatedWindow`).
- A client that resumes a file which the user wants in another version reads the checksum of a file that it
  has not opened, and its process ends (`Resumption.CrashesExactly`).
- The single item of a file's listing carries the file's path with its directory. Beyond 255 bytes its page
  cannot be encoded and is skipped, and the client waits for ever (`MetaPaging.LongPathNeverListed`).
- Unknown optional headers are written with a length that counts the type and read with one that does not;
  chunks of 2^24 bytes and short checksums in a StartTransmission are encoded without an error
  (`MessageStream.RoundTripExactly`).
- A page without a waiting listing leaves a lock locked, and the next page blocks the client
  (`Dispatch.BlockedExactly`).
- The recorded minimum round-trip time never leaves zero (`Rtt.EstimatorBounds`), and neither does the largest
  one of the congestion algorithm (`Congestion.LargestStaysZero`).

## Model

| member | source | states |
|---|---|---|
| PacketNumbers.NumberGenerator.Next | btp/packet_number.go:19-23 | hands out the current 16-bit number and moves on by one, 65535 being followed by 0 |
| PacketNumbers.NumberGenerator.Peek | btp/packet_number.go:25-27 | returns the number that Next will hand out, without using it up |
| PacketNumbers.SlotsDistinctExactly | btp/data_reader.go:63-64 | for any ring length, a window of consecutive packets occupies distinct slots, across every wrap of the 16-bit numbers, if and only if it is no wider than the length when that divides 2^16, and than 2^16 modulo the length otherwise |
| PacketNumbers.ConnectionRing | btp/conn.go:254 | the ring of 50 that every connection uses separates exactly the windows of at most 36 packets |
| DataReader.SequentialDataReader.Next | btp/data_reader.go:31-69 | the loop over channel and ring in place computes the specified step: what comes out, the ring, the next number, and which entries of the channel are used up, for the cases packet, closed channel and waiting |
| DataReader.SequentialDataReader.Push | btp/data_reader.go:26-28 | appends to the channel and touches nothing else |
| DataReader.SequentialDataReader.Close | btp/data_reader.go:89-91 | only marks the channel closed |
| DataReader.BeginRefines | btp/data_reader.go:38-44 | starting a call on the ring and on an unbounded map from absolute number to packet yields the same packet and related states again |
| DataReader.AcceptRefines | btp/data_reader.go:58-67 | taking a packet that is not yet delivered and at most 36 ahead of the next one does the same on the ring and on the unbounded map: nothing is overwritten or returned under another number |
| DataReader.NextStarves | btp/data_reader.go:38-67 | a call returns a packet if and only if the slot of the next number is filled when it starts or a packet with the next number is queued; otherwise it has used up the queue, no packet with the next number is stored, and it ends exactly when the stream is closed |
| ReaderRuns.CallsDoNotBlock | btp/data_reader.go:31-69 | once the next k packets are in the ring or in the channel, in any order and however often, also among nil entries, k calls return exactly these, in order, and none waits |
| ReaderRuns.NextCallRefines | btp/data_reader.go:31-69 | a whole call of Next on any queue refines the call of the unbounded reader, as long as each packet is timely when it is taken |
| ReaderRuns.InOrderExactly | btp/data_reader.go:38-67 | a run of the reader delivers consecutive packets if and only if no call finds a packet with another 16-bit number in the slot of the next one, the check that Next omits |
| ReaderRuns.NextCallIsRun | btp/data_reader.go:46-68 | every call of Next is such a run, with the outputs that the run has |
| ReaderRuns.WindowIsTight | btp/data_reader.go:63-64 | a packet 37 numbers ahead, taken across the wrap, is delivered 36 numbers too early |
| ReaderRuns.StaleCopy | btp/data_reader.go:39-44 | for every ring length from 2 on, a second copy of a delivered packet comes out in place of the packet one ring length later |
| Congestion.ElasticTcpAlgorithm.SentMessages | btp/congestioncontrol/elastic.go:39-50 | raises the count of unacknowledged packets and changes nothing else |
| Congestion.ElasticTcpAlgorithm.ReceivedAcks | btp/congestioncontrol/elastic.go:52-67 | lowers the count, not below zero |
| Congestion.ElasticTcpAlgorithm.NumFreeSend | btp/congestioncontrol/elastic.go:69-73 | the width of the window less the count of unacknowledged packets, which may be negative |
| Congestion.ElasticTcpAlgorithm.UpdateRTT | btp/congestioncontrol/elastic.go:98-107 | records the sample plus one and leaves window and count alone |
| Congestion.ElasticTcpAlgorithm.HandleEvent | btp/congestioncontrol/elastic.go:109-119 | on a loss or a duplicate cuts the window to seven tenths, rounded |
| Congestion.NewWindowFacts | btp/congestioncontrol/elastic.go:24-33 | a new window has nothing unacknowledged, all its initial width free, and half of it as the threshold |
| Congestion.RoomExactly | btp/congestioncontrol/elastic.go:39-73 | sending i packets takes exactly i of the room, acknowledging i gives exactly i back, and there is room if and only if fewer are unacknowledged than the window is wide |
| Congestion.DecreaseFactor | btp/congestioncontrol/elastic.go:115 | the cut leaves seven tenths to the nearest integer |
| Congestion.ReactThreshold | btp/congestioncontrol/elastic.go:109-119 | a cut also sets the threshold to half of what is unacknowledged, or to two if that is more, and keeps the count |
| Congestion.LargestStaysZero | btp/congestioncontrol/elastic.go:98-119 | the current round-trip time is the last sample plus one, and the largest one, which starts at zero, is never recorded |
| Congestion.DecreaseBounds | btp/congestioncontrol/elastic.go:115 | a window of at least one stays at least one, and gets strictly smaller while it is above one |
| Congestion.IteratedBounds | btp/congestioncontrol/elastic.go:115 | any number of losses and duplicates leaves the window between one and where it started, and strictly below if it was above one |
| Congestion.DecreaseToOne | btp/congestioncontrol/elastic.go:109-119 | a window of w is at one for good after w - 1 losses or duplicates |
| ByteStream.PacketizeFlatten | btp/conn.go:183-197 | the payloads that Write queues join to its argument |
| ByteStream.PacketizeSizes | btp/conn.go:183-197 | the loop of Write cuts its argument into len/max + 1 payloads, all of max bytes but the last, which has the remainder and may be empty |
| ByteStream.QueuedSizes | btp/conn.go:177-197 | what Write queues for a non-empty argument has these numbers and sizes: len/max + 1 payloads, all of max bytes but the last, which has the remainder |
| Connection.NextConsumes | btp/conn.go:203-211 | each packet that Next returns was buffered or queued before and is so no more, so that Read comes to an end |
| Connection.FillMinimal | btp/conn.go:203-211 | Read stops at the first packet that makes the bytes enough, and has an error if and only if there are not enough |
| Connection.Conn.constructor | btp/conn.go:239-268 | a new connection has an empty window, a ring of 50 and nothing written, read or queued |
| Connection.Conn.Write | btp/conn.go:172-199 | fails exactly on a connection that is not open; otherwise queues len/max + 1 further payloads, all of the maximal size but the last, which has the remainder, and nothing for an empty argument; the queued payloads still carry exactly the bytes written |
| Connection.Conn.Read | btp/conn.go:203-219 | calls Next exactly until enough bytes are there; returns exactly the bytes asked for, or an error only when all that was queued has been looked at and the next packet is not there; what was read before, the result and the read buffer together are always what the delivered packets carry, so an error discards nothing |
| Connection.Conn.Transmit | btp/conn.go:286-337 | puts the payload on the wire under the next number, watches it, and moves the generator on; when the socket refuses, it watches and counts all the same and keeps the number |
| Sender.FailedWriteForgets | btp/conn.go:310-330 | after a refused write the next packet takes the same number: the first payload is forgotten and the window counts one packet too many |
| Sender.TransmitLaws | btp/conn.go:286-337 | a packet that is sent is watched under the number in use, not yet repeated, takes one place in the window, and the next number follows, zero after 65535 |
| Sender.RetransmitLaws | btp/conn.go:339-357 | a retransmission raises the count of its packet alone, keeps the number of unacknowledged ones, and cuts the window to seven tenths |
| Sender.AckLaws | btp/conn.go:688-711 | an acknowledgement of a watched packet forgets exactly that one, frees one place, and measures the time only of a packet that was sent once; any other one forgets nothing and cuts the window to seven tenths |
| Connection.Conn.Retransmit | btp/conn.go:339-357 | puts the same packet on the wire again, counts it, and cuts the window |
| Connection.Conn.ProcessRetransmission | btp/conn.go:666-686 | retransmits expired packets once each, in some order, all of them unless it gives up, which it does exactly at the first one that exceeds the limit |
| Connection.Conn.ProcessAck | btp/conn.go:688-711 | removes exactly the packet that the number names, or cuts the window when there is none |
| Connection.Conn.OnAck | btp/conn.go:484-506 | on a half-open server connection it is the step of the handshake model, which opens it exactly on the number of its first packet; any other acknowledgement is processed |
| Connection.Conn.OnConnAck | btp/conn.go:508-540 | opens a client connection that is not open with the server's number, port and options, unless they exceed its own; it always counts as an acknowledgement |
| Connection.Conn.CompleteClientHandshake | btp/conn_client.go:31-71 | adopts the response and queues the acknowledgement of the server's first number, exactly when both windows are within the client's own |
| Connection.Conn.OnData | btp/conn.go:545-551 | acknowledges and queues every data packet, in whatever order and however often it arrives, once the connection is open |
| Connection.Conn.SendRound | btp/conn.go:610-652 | sends at most one acknowledgement, and then at most one data packet, which it does exactly when one is queued and fewer are unacknowledged than the window is wide; what the socket refuses is given up |
| Connection.Conn.DoServerHandshake | btp/listener.go:131-193 | the new server connection expects the number after the Conn message's, and the response carries the server's first number and the smaller option of each kind |
| Transport.AckRemovesOnlyItsPacket | btp/conn.go:693-694 | a 16-bit acknowledgement less than 2^16 numbers old makes the sender forget the packet it names and no other |
| Transport.RunKeeps | btp/conn.go:563-664 | every step of a sender, a network that loses, reorders and repeats, and a receiver keeps the joint invariant, over every run |
| TransportSafety.AnyArrivals | btp/conn.go:545-551 | the packets in the network can arrive in any order and each any number of times, and each one that does is acknowledged |
| TransportSafety.AnythingHappens | btp/conn.go:666-711 | an acknowledgement can arrive any number of times, anything in the network can be lost, and a timeout puts its packet into the network again and ends the connection exactly beyond the limit |
| TransportSafety.InOrderExactlyOnce | btp/data_reader.go:30-69 | in every reachable state the packets delivered are the first packets sent, in order and exactly once, over any number of wraps of the 16-bit numbers |
| TransportSafety.BytesArePrefix | btp/conn.go:172-219 | in every reachable state the bytes read, and the read buffer behind them, are a prefix of the bytes written |
| TransportSafety.NothingForgotten | btp/conn.go:310-330 | in every reachable state each packet sent is watched by the sender, delivered, in its ring slot, or queued at the receiver |
| TransportSafety.QuiescentComplete | btp/conn.go:688-711 | when nothing is left to send, to acknowledge or to take, everything written has been read or is in the read buffer |
| TransportSafety.WindowAccounting | btp/congestioncontrol/elastic.go:39-73 | in every reachable state the count of the window is the number of watched packets, it is at most the initial window, and the window is between one and its initial value |
| TransportSafety.SendsExactly | btp/conn.go:639-652 | in every reachable state of a living connection with something queued, a packet can be sent if and only if fewer packets are watched than the window is wide |
| TransportSafety.WindowExactly | btp/congestioncontrol/elastic.go:109-119 | after every run the width of the window is the initial one cut exactly once for each timeout and for each acknowledgement of a packet that is not watched |
| Delivery.WindowCanFill | btp/conn.go:639-652 | from every start and with enough written there is a run that leaves as many packets unacknowledged at once as the window is wide |
| TransportSafety.StopAndWait | btp/conn.go:639-652 | with the default initial window of one a packet is sent only when all before it have arrived |
| TransportSafety.RetransmissionBound | btp/conn.go:681-683 | no packet is put on the wire more than MaxRetransmits + 2 times, and no watched packet of a living connection was retransmitted more than MaxRetransmits times |
| TransportSafety.GivesUpExactly | btp/conn.go:666-686 | in every reachable state the connection has ended if and only if some packet was put on the wire MaxRetransmits + 2 times |
| TransportSafety.TransfersEnd | btp/conn.go:666-711 | a transfer of N packets takes at most N * (MaxRetransmits + 3) transmissions, retransmissions and acknowledgements that remove a packet, whatever the network does |
| Delivery.EverythingCanStillArrive | btp/conn.go:563-711 | from every reachable state, whatever was lost, repeated or reordered before, in which the connection lives and each watched packet is in the network or may be sent again, there is a run after which everything written has been read |
| Delivery.EverythingCanArrive | btp/conn.go:563-664 | in particular from every start of a connection and for any bytes there is a run in which exactly these are written and exactly these are read |
| TransportSafety.StrayHandshakeAck | btp/listener.go:151 | a second copy of the last handshake message makes the sender forget its first data packet although the network lost it |
| TransportOrder.InOrderExactly | btp/data_reader.go:38-67 | when the waiting reader takes whatever is queued, and packets are only known to be less than 2^16 numbers away when they are compared, the packets delivered are the first ones sent if and only if no call finds a packet with another 16-bit number in the slot of the next one; and then the bytes read are a prefix of the bytes written |
| TransportOrder.EveryRunIsLoose | btp/data_reader.go:46-68 | every run of the transport is such a run, without the premise on the packets taken, and comes to the same state |
| Simulation.PassIsRun | btp/conn.go:666-686 | a pass over expired packets is a run of timeouts of the step system, and ends the connection exactly when the last of them exceeds the limit |
| Simulation.HalvesStart | btp/conn.go:239-268 | two connections that have just opened to each other are the two halves of a start of the step system |
| Simulation.CallIsRun | btp/data_reader.go:31-69 | a call of Next is a run of the step system: its start, unless it was waiting, and the packets it takes |
| Simulation.FillIsRun | btp/conn.go:203-211 | so are all the calls that a Read makes |
| Simulation.Write | btp/conn.go:172-199 | Write of a connection object is the Write step of the transport |
| Simulation.SendRound | btp/conn.go:610-652 | a round of the run loop is the sending step when it is enabled, and otherwise no step |
| Simulation.ProcessAck | btp/conn.go:688-711 | an acknowledgement that arrives is the corresponding step |
| Simulation.ProcessRetransmission | btp/conn.go:666-686 | a retransmission pass is a run of timeout steps in the order of the pass |
| Simulation.OnData | btp/conn.go:545-551 | a data packet that arrives is the corresponding step, and its acknowledgement is then in the network |
| Simulation.Read | btp/conn.go:203-219 | Read of a connection object is a run of calls, packets taken and, when it succeeds, the Read step that yields the same bytes |
| Handshake.Agreement | btp/conn.go:535-538 | whenever the client is open, its reader starts at the first number of the server connection it migrated to, that one's reader at the client's first data packet, and its options are the minimum of both sides |
| Handshake.OnlyTheChosenServerOpens | btp/conn.go:486-501 | of all the server connections that repeated Conn messages create, only the one that the client migrated to can open |
| Handshake.ServerOpensExactly | btp/conn.go:486-501 | an acknowledgement opens a half-open server connection if and only if it carries its own first number, and changes nothing else |
| Handshake.AckOpensServer | btp/conn.go:486-501 | in every reachable state each acknowledgement that the client has sent can arrive, and opens the server connection that the client migrated to |
| Handshake.ClientOpensExactly | btp/conn_client.go:31-71 | a client opens if and only if it was open before or neither window in the response is larger than its own, and then takes over number, port and options; otherwise nothing changes |
| Handshake.BothCanOpen | btp/listener.go:131-193 | whatever both sides' options, there is a run after which the client and its server connection are both open, if the client may send at all |
| Handshake.CopiesMultiply | btp/listener.go:131-193 | for any two numbers there is a run in which the Conn message is sent again and server connections are made just so often, while the client is not open |
| Handshake.ResponsesAccepted | btp/conn_client.go:34-40 | no response that a listener sends is refused by the client |
| Handshake.ServerKeepsItsOptions | btp/listener.go:125 | the server connection keeps the listener's options: both sides run with the same ones if and only if the listener's are within the client's |
| Handshake.OpenedSender | btp/conn.go:520-521 | a client that opens has nothing unacknowledged, and its window is the one its congestion object started with, narrowed once for every repetition of the Conn message |
| Handshake.NegotiatedWindow | btp/conn_client.go:44-46 | the window in force at an open client is the negotiated one if and only if it asked for no more than the listener has, when its Conn message was sent once, and if and only if the repetitions have brought it down to exactly what the listener has otherwise; it is within the negotiated one if and only if they have brought it down to no more |
| Opened.OpenedConnectionDelivers | btp/conn.go:508-540 | after every handshake run that opens the client, in both directions and over every run that follows, the bytes read are a prefix of the bytes written; the client sends with the window that the exchange of Conn and ConnAck has left it |
| Codec.FixedBuilder.AddBytes | brft/messages/messages.go:52-62 | appends within the reserved capacity; beyond it the buffer stays and the result becomes an error |
| Codec.NewMessageBuilder | brft/messages/messages.go:58-62 | reserves one byte and the message's base size and extra, and starts with version and type in one byte |
| Codec.EncodeHeaderBytes | brft/messages/optionalheader.go:42-53 | an optional header is written, or fails exactly when its length field leaves too little room |
| Codec.MarshalOptionalHeaders | brft/messages/optionalheader.go:270-291 | the loop writes the count and all headers in order, or fails at the first header that fails |
| Codec.EncodeMetaItem | brft/messages/metaitem.go:36-77 | an item is written with both size and checksum or with neither; each error case |
| Codec.EncodeFileReq | brft/messages/filereq.go:60-109 | the request's bytes, with flags folded into one byte and a missing checksum zeroed; each error case; the reserved capacity always suffices |
| Codec.EncodeFileResp | brft/messages/fileresp.go:56-81 | the response's bytes and its error cases; the reserved capacity always suffices |
| Codec.EncodeMetaResp | brft/messages/metaresp.go:65-92 | a page's bytes and its error cases; the reserved capacity always suffices |
| Codec.EncodeMessage | brft/messages/messages.go:52-62 | every message type's encoder yields exactly the specified bytes or error |
| Decoder.ByteReader.Take | cyberbyte/string.go:51-60 | returns the next n bytes and advances, or fails and keeps them all |
| Decoder.ByteReader.TakeUint | cyberbyte/string.go:139-155 | reads a big-endian number of n bytes |
| Decoder.DecodeHeaders | brft/messages/optionalheader.go:293-351 | the loop reads as many headers as the count says, known ones without looking at their length |
| Decoder.DecodeItem | brft/messages/metaitem.go:83-111 | an item is read with size and checksum exactly when its message is extended |
| Decoder.DecodeFileReq | brft/messages/filereq.go:111-165 | reads a request; an unknown flag bit is an error |
| Decoder.DecodeFileResp | brft/messages/fileresp.go:83-118 | reads a response, field by field |
| Decoder.DecodeData | brft/messages/data.go:34-49 | reads a chunk by its 24-bit length |
| Decoder.DecodeMetaResp | brft/messages/metaresp.go:94-125 | the loop reads as many items as the count says; only the last bit of the flag byte counts |
| Decoder.ReadMsg | brft/conn.go:183-218 | reads one message of any type, consuming exactly its bytes |
| WireFormat.Digits | brft/messages/messages.go:34-40 | byte i of a number of k bytes has the weight 256^(k - 1 - i) |
| WireFormat.CloseLayout | brft/messages/close.go:63-68 | a Close is four bytes: 0x25, the stream in two bytes, the reason |
| WireFormat.DataLayout | brft/messages/data.go:25-32 | a chunk is 0x23, the stream, the length in three bytes, the bytes |
| WireFormat.StartLayout | brft/messages/starttransmission.go:28-35 | a StartTransmission is 0x24, the stream, the checksum, the offset in eight bytes |
| WireFormat.MetaReqLayout | brft/messages/metareq.go:36-53 | a MetaReq is 0x26, the length of the name, the name |
| WireFormat.FileReqLayout | brft/messages/filereq.go:60-109 | where the fields of a FileReq stand, from the front up to the number of headers and from the end back to the name; a missing checksum is 32 zeros |
| WireFormat.FileRespLayout | brft/messages/fileresp.go:56-81 | where the fields of a FileResp stand, from the front up to the number of headers and from the end back to the stream |
| WireFormat.MetaRespLayout | brft/messages/metaresp.go:65-92 | a page is 0x27, the number of items, whether they are extended, the items |
| WireFormat.ItemLayout | brft/messages/metaitem.go:36-77 | an item is the length of the name, the name, and for a file the size in eight bytes and the checksum |
| WireFormat.EncodesExactly | brft/messages/messages.go:52-62 | for each type of message what makes its encoder fail, and with which error |
| WireFormat.HeaderLayout | brft/messages/optionalheader.go:42-53 | the bytes of a header of any kind, and the lengths for which there are none |
| WireFormat.FirstByteDecides | brft/conn.go:183-218 | the version of a message is not looked at; a type that is none of the seven is an error |
| WireFormat.FlagsDecide | brft/messages/filereq.go:111-165 | a request is refused if and only if a flag bit other than the first is set, and asks for a resumption if and only if that one is |
| WireFormat.ExtendedBit | brft/messages/metaresp.go:94-125 | of the byte that says whether items are extended only the last bit counts |
| WireFormat.HeaderKinds | brft/messages/optionalheader.go:293-351 | a header of kind 0 is an error, and one of an unknown kind has as many bytes after its kind as its length says |
| MessageStream.RoundTrip | brft/conn.go:183-218 | a well-formed message followed by any bytes is read back, and exactly these bytes are left |
| MessageStream.RoundTripExactly | brft/messages/optionalheader.go:101-118 | of the messages that encode without an error, exactly the well-formed ones are read back: headers are known and have room, chunks are under 2^24 bytes, checksums are whole, and items match the extended flag |
| MessageStream.MessageExtends | brft/conn.go:183-218 | a message that has been read, or found invalid, is not affected by the bytes that arrive later |
| MessageStream.CutMessageWaits | cyberbyte/string.go:51-60 | a strict prefix of a message is neither a message nor an error: the reader waits |
| MessageStream.StreamRoundTrip | brft/conn.go:160-218 | the concatenated encodings of a list of messages, followed by any bytes, are read back as this list and leave exactly these bytes |
| MessageStream.CutStream | brft/conn.go:160-218 | wherever the stream is cut, repeated reading yields the first messages, complete and unchanged, and waits with the bytes of the next one |
| BrftFiles.PendingRecords | brft/file.go:309-350 | a file that begins with signature and checksum records exactly this checksum, and its content begins after 37 bytes |
| BrftFiles.RecordedIsPending | brft/file.go:309-328 | conversely every file that records a checksum is signature, checksum and content |
| BrftFiles.SignatureExactly | brft/file.go:309-328 | a checksum is recorded if and only if there are 37 bytes that begin with 42, 52, 46, 54, 31, and is the 32 bytes after these |
| BrftFiles.ValidNames | brft/file.go:23 | the names that the server opens are exactly a stem of word characters and dashes, optionally with a dot and word characters; none of them contains a slash |
| BrftFiles.WordCharacters | brft/file.go:23 | the bytes of a word are the digits, the letters of both cases and the underscore |
| BrftFiles.File.NewFile | brft/file.go:41-118 | creates a client file with its header, or reopens an existing one at its end, exactly when it records a checksum; existing files are not changed |
| BrftFiles.File.OpenFile | brft/file.go:121-166 | opens an existing file with an allowed name at its start with the checksum of its content; each error case |
| BrftFiles.File.Read | brft/file.go:185-187 | returns up to n bytes from the cursor, and an error exactly at the end of the file |
| BrftFiles.File.Write | brft/file.go:189-191 | replaces bytes from the cursor on, extends the file, and keeps everything else |
| BrftFiles.File.Size | brft/file.go:197-213 | the length of the content: a client file's header does not count |
| BrftFiles.File.SeekOffset | brft/file.go:217-230 | moves the cursor to the offset unless it exceeds the content; in a client file the header is not skipped |
| BrftFiles.File.CheckChecksum | brft/file.go:242-268 | compares the checksum of the content behind the header with the recorded one and puts the cursor back |
| BrftFiles.File.StripChecksum | brft/file.go:272-307 | replaces a client file by its content |
| BrftFiles.File.WriteChecksum | brft/file.go:330-350 | writes signature and checksum into an empty file, or nothing when the checksum has another length |
| BrftFiles.File.ReadChecksum | brft/file.go:309-328 | reads the recorded checksum, exactly when the file starts with the signature and a whole checksum |
| ChunkLoop.SendChunks | brft/server.go:526-603 | the loop over the open file sends the chunks of the rest of the file and one Close |
| ChunkLoop.ChunkLoopOutcome | brft/server.go:526-603 | the chunks decompress and join to the rest of the file, all but the last are full, the Close comes last, and its reason is TransferComplete if and only if the rest is no multiple of the chunk size |
| ChunkLoop.CutPayload | brft/server.go:526-603 | the first n messages carry a prefix of the rest of the file, all of it when at most the Close is missing |
| ChunkLoop.CutRemainder | brft/server.go:536-545 | a cut leaves nothing, or a rest with the same remainder by the chunk size |
| Transfer.NegotiateHeaders | brft/server.go:365-435 | the loop over the optional headers computes answers, status, compression and chunk size |
| Transfer.NegotiatesExactly | brft/server.go:365-435 | for any headers there is one answer to each compression request, in order: granted exactly for gzip and a size of at least 64 KiB, else unknown algorithm or too small; the server compresses if and only if one is granted, with (m + 1) * 64 KiB of the last granted multiplier m as chunk size and else the default; the status reports an unexpected header before an unknown one |
| Transfer.CompressionAgreed | brft/client.go:456-500 | whatever headers a request carries, the client decompresses exactly when the server compresses, and no answer makes the client close the stream |
| Transfer.HandleFileReq | brft/server.go:319-465 | a request is refused for a name that is not allowed, a missing file, a resumption without a checksum or another checksum, in this order, and otherwise answered with the file's size and checksum |
| Transfer.RepliesExactly | brft/server.go:319-363 | the exact condition of each refusal, by its number, and of an offer, with the checksum, size and stream that the offer names |
| Transfer.HandleStart | brft/server.go:495-515 | a start is refused for another checksum or when nothing is left from its offset on; otherwise the rest of the file is sent |
| Transfer.StartsExactly | brft/server.go:495-515 | refused for another checksum, then for an offset at or beyond the end, and otherwise the file from the offset on |
| Transfer.DownloadFile | brft/client.go:160-229 | resumes with the recorded checksum and the size of the content when the client file exists, refuses any other existing file, and leaves the file alone |
| Transfer.RequestsExactly | brft/client.go:203-230 | without a file the wanted checksum is asked for; with an unfinished download the recorded checksum, from where the file ends, as a resumption; with any other file nothing is sent |
| Transfer.HandleFileResp | brft/client.go:443-529 | a wrong checksum ends the process, other headers end the stream; otherwise creates or reopens the client file, and asks for the content from its end |
| Transfer.ClientRefusesExactly | brft/client.go:456-500 | an answer is accepted if and only if all its headers answer compression requests, compression is on if and only if one of them grants it, and a refusal names the kind of the first other header |
| Transfer.ReactsExactly | brft/client.go:443-529 | when the client's process ends, when it closes the stream, and otherwise its StartTransmission and what its file then is |
| Transfer.ReceiveLoop | brft/client.go:566-676 | the loop appends what it decompresses, checks the checksum on TransferComplete, and strips or removes the file; the counted payload is the size of the content |
| Transfer.ReceivesExactly | brft/client.go:566-676 | after any number of good chunks, how each kind of next message goes on: an appended chunk, a damaged one, another kind, a Close with a reason, and the completed file with a right or a wrong checksum |
| Resumption.AcceptedSession | brft/client.go:401-676 | the exact file and outcome of a session that both sides accept and that is cut after any number of messages |
| Resumption.RefusedSession | brft/server.go:339-363 | a session whose file is missing, changed or not the one wanted leaves the client's file alone |
| Resumption.RefusedReason | brft/server.go:319-363 | and with which reason: name, missing file, no checksum to resume with, or another file |
| Resumption.ForeignFileStays | brft/client.go:203-212 | a file that records no checksum is never touched, and no session is opened for it |
| Resumption.CrashesExactly | brft/client.go:444-448 | a session ends the client's process if and only if it resumes a file that is still the server's while the user wants another one, and the answer arrives |
| Resumption.SessionKeeps | brft/client.go:203-229 | one session keeps the client's file signature, checksum and a prefix of a content offered; TransferComplete never finds a wrong checksum and leaves exactly the content offered in this session |
| Resumption.RunsKeep | brft/client.go:203-229 | so does every run of interrupted and resumed sessions, also when the server's file changes in between |
| Resumption.CompletesExactly | brft/server.go:536-545 | an accepted session completes if and only if all its messages get through, something is left to send, and what is left is no multiple of the chunk size |
| Resumption.NextSessionCompletes | brft/server.go:505-513 | after any interrupted run on one content, the next session that is not cut completes if and only if the size is no multiple of the chunk size and the file lacks more than its Close |
| Resumption.NeverCompletes | brft/server.go:536-545 | a content whose size is a multiple of the chunk size is never completed, however often it is resumed; nor is a file that lacks only its Close |
| SendQueues.Sender.Push | brft/conn.go:152-153 | appends to the chosen queue |
| SendQueues.Sender.Poll | brft/conn.go:92-103 | one non-blocking look at a queue moves its first message to the wire, if there is one |
| SendQueues.Sender.SendMessages | brft/conn.go:90-124 | the loop, with whatever other goroutines push before each of its looks, leaves the queues and the wire as specified look by look |
| SendQueues.Drains | brft/conn.go:90-124 | when nobody pushes, the loop empties both queues, all control messages before any other |
| SendQueues.ControlFirst | brft/conn.go:90-124 | whatever is pushed meanwhile, at most one message of outData leaves before all control messages that wait now, and only when the loop is just looking at outData |
| SendQueues.ControlNext | brft/conn.go:91-105 | while the loop looks at outCtrl, the control messages that wait there leave next |
| SendQueues.LooksTurn | brft/conn.go:90-124 | after a look at outData the loop looks at outCtrl, and goes on to outData only when it finds that empty |
| SendQueues.LooksAreSteps | brft/conn.go:90-124 | the loop, whatever others push before its looks, is a run of pushes and looks of the step system |
| SendQueues.StreamsLeaveInOrder | brft/conn.go:82-125 | for every interleaving of streams, listings and the sending loop, each stream's messages on the wire are the first ones it had to send, in order, and all of them once the queues are empty |
| SendQueues.CloseComesLast | brft/conn.go:148-153 | once a file's Close is on the wire, its FileResp and all its chunks are there before it |
| SendQueues.WireFromPrograms | brft/conn.go:82-125 | every message on the wire is one that its stream had to send |
| SendQueues.FileCanLeave | brft/conn.go:90-124 | there is a run in which a stream's answer and its whole file reach the wire |
| SendQueues.DataMayOvertake | brft/conn.go:91-124 | without waiting for the StartTransmission a chunk could overtake its own FileResp |
| MetaPaging.NewMetaResps | brft/messages/metaresp.go:29-55 | the loop cuts a listing into its pages |
| MetaPaging.PagesSound | brft/messages/metaresp.go:29-55 | the pages join to the listing, there are n/255 + 1 of them, all of 255 items but the last, which has n modulo 255, also for multiples of 255; they are extended exactly for a single item with size and checksum |
| MetaPaging.PagesWellFormed | brft/server.go:716-743 | the pages of a directory, and of a single file, can be encoded and read back |
| MetaPaging.CollectPages | brft/client.go:115-128 | the client's loop takes pages up to the first that is not full |
| MetaPaging.CollectedListing | brft/client.go:122-125 | on any part of a listing that loop ends if and only if the listing is complete, and then it has all of it |
| MetaPaging.SendPages | brft/server.go:717-743 | the loop sends the pages that can be encoded, in order, and skips the others |
| MetaPaging.ListingEnds | brft/server.go:717-722 | the client's listing ends if and only if the last page can be encoded, and is the whole one if and only if all can |
| MetaPaging.LongPathNeverListed | brft/server.go:693-722 | the listing of a single file whose path is longer than 255 bytes never ends |
| Dispatch.Client.Handle | brft/client.go:299-396 | one pass of the loop: the message goes to its open stream or to the oldest listing, a Close answers a FileResp or chunk of an unknown stream, an unexpected message closes the connection, and a page without a listing leaves the lock locked |
| Dispatch.Client.Ask | brft/client.go:94-101 | a new listing waits behind the others, unless the lock was left locked |
| Dispatch.StreamsGetTheirs | brft/client.go:308-350 | over every run each open stream gets exactly its own messages, in order, as long as the loop is not blocked |
| Dispatch.BlockedExactly | brft/client.go:352-368 | the loop is blocked for good if and only if another page arrives after one at whose arrival as many listings had ended as were asked for |
| Dispatch.ListingsGetTheirs | brft/client.go:352-368 | when the server answers in order what was asked, each listing gets exactly its own pages, its loop ends if and only if it has them all, and they join to the items listed |
| Dispatch.PagesConserved | brft/client.go:352-368 | then also no page is lost or repeated: what the listings hold, one after the other, is what arrived |
| Dispatch.UnknownAnswered | brft/client.go:308-350 | over every run the client queues exactly one Close with reason 0 for each FileResp and each chunk of a stream that is not open, in order, and nothing else |
| Dispatch.ClosedExactly | brft/client.go:370-396 | the client closes the connection at the first message that no server sends, and at nothing else |
| Conversation.StreamsWait | brft/server.go:467-493 | in every conversation of a server that waits for StartTransmissions and of a client that starts what was offered, no stream pushes to outData while its FileResp is in the queue, so that the queues behave as SendQueues says |
| Conversation.NeverBlocked | brft/client.go:352-368 | in no such conversation the client's loop blocks or closes the connection |
| Conversation.ListingsAnswered | brft/server.go:246-247 | in every such conversation each listing gets exactly its own pages, in order, and its loop ends if and only if it has them all |
| Conversation.EverythingCanBeSaid | brft/server.go:467-493 | every conversation can be brought to an end from wherever it is: there is a continuation after which all listings were asked for and the client has handled all that every stream and every listing had to send |
| EndToEnd.DecodedPrefix | brft/conn.go:183-218 | whatever the network does, the client decodes a prefix of the messages that the server's queues put on the wire and never meets bytes that are no message |
| EndToEnd.StreamPrefix | brft/client.go:308-350 | whatever the streams have to send and whatever the network does, a stream of the client holds a prefix of what its peer stream had to send |
| EndToEnd.CutCarries | brft/server.go:526-602 | a stream's messages up to any point carry a prefix of the rest of the file, and all of it once the Close is among them |
| EndToEnd.FileArrives | brft/server.go:526-602 | from chunk loop over queues, encoding, transport and decoding to the client's stream: payloads join to a prefix of the rest of the file at every moment and to all of it when the Close is there, which says TransferComplete if and only if the rest is no multiple of the chunk size |
| EndToEnd.FileCanArrive | brft/server.go:526-602 | the premises of FileArrives can be met: for every file whose packed chunks fit a message, and from every start of a connection, there is a run in which the client's stream gets everything up to the Close |
| EndToEnd.DownloadIsSession | brft/client.go:401-676 | for any file of the client and of the server, what the client makes of the messages that reach its stream over the network is the session of the resumption model that is cut after as many messages |
| EndToEnd.CutSession | brft/client.go:414-442 | from any part of what the server's stream has to send, refusals included, the client comes to where the resumption model says |
| EndToEnd.DownloadInConversation | brft/server.go:467-493 | the same for a conversation of both sides, where the order of queues and listings is not assumed |
| Rtt.RTTMeasurement.Update | btp/rtt.go:28-53 | the first sample and later ones change all four values as specified; a sample from the past changes nothing |
| Rtt.RTTMeasurement.RTO | btp/rtt.go:55-69 | one second without a sample, and otherwise the smoothed time plus four variations but at least 400ms |
| Rtt.Smoothing | btp/rtt.go:28-53 | a later sample moves the smoothed time an eighth of the way to it and the variation a quarter of the way to its distance, to the nanosecond; the first one is taken with half of it as variation |
| Rtt.OutlierDamped | btp/rtt.go:42-47 | after any number of equal samples one outlier moves the smoothed time by at most an eighth of its distance and one |
| Rtt.TimeoutCovers | btp/rtt.go:55-69 | the timeout is the least time of at least 400ms that covers every sample within four variations of the smoothed one |
| Rtt.EstimatorBounds | btp/rtt.go:28-69 | for samples between m and M the smoothed time stays between m and M, the variation is at most max(M/2, M - m), the timeout is between 400ms and max(400ms, 5M), and the recorded minimum never leaves zero |
| Rtt.Converges | btp/rtt.go:42-47 | with equal samples R the smoothed time is R, and k samples after the first the variation v satisfies 4^k * 2v <= 3^k * R |
| Rtt.Settles | btp/rtt.go:55-69 | after R/2 further equal samples the variation is zero and the timeout is R, or 400ms if that is more |

## Left out

- Connection.Conn.Write: has no contract for a packet size of zero when an open connection has something to write, because the source's loop then never ends; it returns the size of the last payload only, as the source's count does not cover the others either.
- Connection.Conn.Read: a call that would wait returns an error in the model, and the caller may repeat it; the source blocks.
- Decoder.ReadMsg: bytes that have not arrived are an error in the model, where the source blocks until its timeout.
- SendQueues.Sender.SendMessages: the endless loop is modelled for any finite number of its looks, and failed writes of the connection are left out.
- Congestion.ElasticTcpAlgorithm.HandleEvent: the product with 0.7 is rounded exactly, as (7 * cwnd + 5) / 10, not in float64.
- Rtt.RTTMeasurement.Update: exact arithmetic with truncation instead of float32.
- Transport.RunKeeps: refused local writes, `close` and `teardown` are not steps of a run; the source promises no delivery after `close`.
- Goroutine races and locks: transmission, retransmission, message handling and a call of Next are atomic steps, except for the lock that the client's dispatch leaves locked.
- The bytes of BTP datagrams and the receive buffer's size: packets and acknowledgements are values.
- Clocks, deadlines and idle timeouts: which packets have expired is a parameter, and a timeout may happen at any time.
- gzip and SHA-256: arbitrary functions with the premises above.
- `CongAvoid`: no connection calls it.
- Directories: one directory entry for one name.
- I/O errors of files, and chunks that the server fails to compress.
- `newStreamID`, `isDuplicateStreamID`, a StartTransmission for a stream that does not exist, and both sides' `Close` of a connection.
- The capacity of channels: pushing blocks when one is full, which removes runs but adds none.
- Progress reports beyond the count of payload bytes, logging and the command line.
- Simulation.Read: the order in which packets that arrived become ready for the reader is that of the channel here, and any order in the step system.
- Conversation.StreamsWait: the messages of both directions arrive as prefixes of what was sent, which the transport guarantees each way; which FileReq and StartTransmission a program answers is fixed beforehand.
- A message that a client stream does not expect: the model ends the session there, the source closes the stream and goes on waiting on a closed channel.
