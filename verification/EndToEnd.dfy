/** From the server's file to the client's stream: the chunk loop, the two queues, the encoded
    messages, the transport, the decoder and the client's dispatch, one after another. */
module EndToEnd {
  import opened Prelude
  import opened Messages
  import opened MessageStream
  import opened ChunkLoop
  import opened SendQueues
  import BrftFiles
  import Conversation
  import Delivery
  import Dispatch
  import Resumption
  import Transfer
  import Transport
  import TransportSafety

  type Program = map<Key, seq<Item>>

  /** Everything the server's streams have to send can be encoded. */
  ghost predicate Sendable(programs: Program)
  {
    && Programs(programs)
    && forall key, i | key in programs && 0 <= i < |programs[key]| ::
         WellFormed(programs[key][i].msg) && Dispatch.FromServer(programs[key][i].msg)
  }

  lemma WireSendable(programs: Program, pushes: seq<Action>)
    requires Sendable(programs) && Run(Start(programs), pushes, true)
    ensures var wire := Exec(Start(programs), pushes, true).q.wire;
            AllWellFormed(wire) && forall i | 0 <= i < |wire| :: Dispatch.FromServer(wire[i])
  {
    var wire := Exec(Start(programs), pushes, true).q.wire;
    hide Exec, Run, WellFormed, Dispatch.FromServer;
    forall i | 0 <= i < |wire| ensures WellFormed(wire[i]) && Dispatch.FromServer(wire[i]) {
      WireFromPrograms(programs, pushes, wire[i]);
    }
  }

  lemma ReceivedUnchanged(ms: seq<Message>)
    requires forall i | 0 <= i < |ms| :: Dispatch.FromServer(ms[i])
    ensures ReceivedAll(ms) == ms
  {
  }

  /** Whatever the network does, the client decodes a prefix of the messages that the server put on
      the wire, complete and unchanged, and never meets bytes that are no message. */
  lemma DecodedPrefix(programs: Program, pushes: seq<Action>, c: Transport.Config, s0: Transport.State,
                      acts: seq<Transport.Action>)
    requires Sendable(programs) && Run(Start(programs), pushes, true)
    requires Transport.Init(c, s0) && Transport.Run(c, s0, acts)
    requires Transport.Exec(c, s0, acts).written <= EncodeAll(Exec(Start(programs), pushes, true).q.wire)
    ensures var (wire, got) := (Exec(Start(programs), pushes, true).q.wire, Transport.Exec(c, s0, acts).got);
            && ReadAll(got).0 <= wire
            && !ReadMessage(ReadAll(got).1).Invalid?
            && (got == EncodeAll(wire) ==> ReadAll(got).0 == wire)
  {
    var s, wire := Transport.Exec(c, s0, acts), Exec(Start(programs), pushes, true).q.wire;
    hide Exec, Run, Transport.Exec, Transport.Run, Sendable, ReadAll, ReadMessage, EncodeAll, AllWellFormed;
    TransportSafety.BytesArePrefix(c, s0, acts);
    WireSendable(programs, pushes);
    PrefixTransitive(s.got, s.written, EncodeAll(wire));
    var n := CutStream(wire, s.got);
    ReceivedUnchanged(wire[..n]);
    assert wire[..|wire|] == wire;
  }

  /** What a cut stream carries. */
  lemma CutCarries(inbox: seq<Message>, resp: Message, id: StreamID, left: bytes, chunk: nat, pack: Packing,
                   unpack: Unpacking)
    requires chunk > 0 && Inverse(pack, unpack) && resp.FileResp?
    requires inbox <= [resp] + FileMessages(id, left, chunk, pack)
    ensures Payload(inbox, id, unpack).Some? && Payload(inbox, id, unpack).value <= left
    ensures forall reason :: Close(id, reason) in inbox ==>
              && Payload(inbox, id, unpack).value == left
              && (reason == CLOSE_TRANSFER_COMPLETE <==> |left| % chunk != 0)
  {
    var ms := FileMessages(id, left, chunk, pack);
    if inbox != [] {
      var n := |inbox| - 1;
      assert inbox[1..] == ([resp] + ms)[..|inbox|][1..] == ms[..n] && inbox[0] == resp;
      ChunkLoopOutcome(id, left, chunk, pack, unpack);
      CutPayload(id, left, chunk, pack, unpack, n);
      assert Payload(inbox, id, unpack) == Payload(ms[..n], id, unpack);
      hide FileMessages, Payload;
      forall reason | Close(id, reason) in inbox
        ensures n == |ms| && reason == ms[|ms| - 1].reason
      {
        var i :| 0 <= i < |inbox| && inbox[i] == Close(id, reason);
        assert i > 0 && ms[i - 1] == inbox[i];
        assert i - 1 == |ms| - 1;
      }
      assert left[..|left|] == left;
    }
  }

  /** Whatever the streams have to send and whatever the network does, a stream of the client holds a
      prefix of what its peer stream had to send. */
  lemma StreamPrefix(programs: Program, pushes: seq<Action>, c: Transport.Config, s0: Transport.State,
                     acts: seq<Transport.Action>, client: Dispatch.State, es: seq<Dispatch.Event>, id: StreamID)
    requires Sendable(programs) && Run(Start(programs), pushes, true) && Some(id) in programs
    requires Transport.Init(c, s0) && Transport.Run(c, s0, acts)
    requires Transport.Exec(c, s0, acts).written <= EncodeAll(Exec(Start(programs), pushes, true).q.wire)
    requires Dispatch.Wire(es) == ReadAll(Transport.Exec(c, s0, acts).got).0
    requires id in client.streams && client.streams[id] == [] && !client.blocked && !client.closed
    requires !Dispatch.Run(client, es).blocked
    ensures id in Dispatch.Run(client, es).streams
    ensures Dispatch.Run(client, es).streams[id] <= Content(programs[Some(id)])
  {
    var wire, read := Exec(Start(programs), pushes, true).q.wire, Dispatch.Wire(es);
    hide Exec, Run, Transport.Exec, Transport.Run, ReadAll, ReadMessage, EncodeAll, Of, Content;
    DecodedPrefix(programs, pushes, c, s0, acts);
    StreamsLeaveInOrder(programs, pushes, Some(id));
    OfPrefix(read, wire, Some(id));
    PrefixTransitive(Of(read, Some(id)), Of(wire, Some(id)), Content(programs[Some(id)]));
    WireSendable(programs, pushes);
    Dispatch.EventsOfWire(es, wire);
    Dispatch.StreamsGetTheirs(client, es, id);
    assert Dispatch.Run(client, es).streams[id] == Of(read, Some(id));
  }

  /** End to end. A server that has a file to send to stream `id`, among any other streams and
      listings, writes its messages over the transport; the client reads what arrives, decodes it and
      hands it to its streams. At every moment the stream holds a prefix of its FileResp and its file
      messages, their payloads join to a prefix of the rest of the file, and when the Close is there
      the whole rest is, with TransferComplete exactly when the rest is no multiple of the chunk size. */
  lemma FileArrives(programs: Program, pushes: seq<Action>, c: Transport.Config, s0: Transport.State,
                    acts: seq<Transport.Action>, client: Dispatch.State, es: seq<Dispatch.Event>,
                    id: StreamID, resp: Message, left: bytes, chunk: nat, pack: Packing, unpack: Unpacking)
    requires Sendable(programs) && Run(Start(programs), pushes, true) && Some(id) in programs
    requires chunk > 0 && Inverse(pack, unpack) && resp.FileResp?
    requires programs[Some(id)] == FileProgram(resp, FileMessages(id, left, chunk, pack))
    requires Transport.Init(c, s0) && Transport.Run(c, s0, acts)
    requires Transport.Exec(c, s0, acts).written <= EncodeAll(Exec(Start(programs), pushes, true).q.wire)
    requires Dispatch.Wire(es) == ReadAll(Transport.Exec(c, s0, acts).got).0
    requires id in client.streams && client.streams[id] == [] && !client.blocked && !client.closed
    requires !Dispatch.Run(client, es).blocked
    ensures id in Dispatch.Run(client, es).streams
    ensures var inbox := Dispatch.Run(client, es).streams[id];
            && inbox <= [resp] + FileMessages(id, left, chunk, pack)
            && Payload(inbox, id, unpack).Some? && Payload(inbox, id, unpack).value <= left
            && forall reason :: Close(id, reason) in inbox ==>
                 && Payload(inbox, id, unpack).value == left
                 && (reason == CLOSE_TRANSFER_COMPLETE <==> |left| % chunk != 0)
  {
    var ms := FileMessages(id, left, chunk, pack);
    hide Exec, Run, Transport.Exec, Transport.Run, ReadAll, EncodeAll, FileMessages, Payload, Content;
    StreamPrefix(programs, pushes, c, s0, acts, client, es, id);
    ProgramContent(resp, ms);
    CutCarries(Dispatch.Run(client, es).streams[id], resp, id, left, chunk, pack, unpack);
  }

  lemma ProgramContent(resp: Message, ms: seq<Message>)
    ensures Content(FileProgram(resp, ms)) == [resp] + ms
  {
  }

  /** What a stream of the server has to send in a session: its refusal, or its answer and then, if the
      client starts, what the StartTransmission leads to. */
  function ServerProgram(s: Resumption.Setup, file: Option<bytes>, i: Resumption.Session): seq<Item>
    requires s.defaultChunk > 0
  {
    match Transfer.RequestFor(file, s.id, s.name, i.wanted, s.headers)
    case Err(_) => []
    case Ok(r) =>
      match Transfer.ReplyTo(r.req, i.content, s.hash, s.defaultChunk)
      case Refuse(reason) => [Item(Bulk, Close(s.id, reason))]
      case Offer(resp, _, _) =>
        match Transfer.StartAfter(file, i.wanted, r, resp).1
        case Start(start, _) => FileProgram(resp, Answer(s, start, i.content.value))
        case _ => [Item(Ctrl, resp)]
  }

  function Answer(s: Resumption.Setup, start: Message, content: bytes): seq<Message>
    requires s.defaultChunk > 0 && start.StartTransmission?
  {
    Transfer.AfterStart(start, content, s.hash, Resumption.ChunkOf(s, content),
                        Resumption.Packer(s, Resumption.Compressed(s, content)))
  }

  /** What the client makes of its file and of the messages that reach its stream. */
  function ClientSession(s: Resumption.Setup, file: Option<bytes>, wanted: bytes, inbox: seq<Message>)
    : (Option<bytes>, Transfer.Outcome)
  {
    match Transfer.RequestFor(file, s.id, s.name, wanted, s.headers)
    case Err(_) => (file, Transfer.Failed)
    case Ok(r) =>
      if inbox == [] then (file, Transfer.Interrupted)
      else if inbox[0].Close? then (file, Transfer.Closed(inbox[0].reason))
      else if !inbox[0].FileResp? then (file, Transfer.Failed)
      else
        match Transfer.StartAfter(file, wanted, r, inbox[0])
        case (file', Panic) => (file', Transfer.Crashed)
        case (file', GiveUp) => (file', Transfer.Failed)
        case (file', Start(_, decompress)) => Collect(s, file', inbox[1..], decompress)
  }

  function Collect(s: Resumption.Setup, file: Option<bytes>, ms: seq<Message>, decompress: bool)
    : (Option<bytes>, Transfer.Outcome)
  {
    if file.None? || BrftFiles.RecordedChecksum(file.value).None? then (file, Transfer.Failed)
    else Transfer.Receive(file.value, BrftFiles.RecordedChecksum(file.value).value, ms,
                          Resumption.Unpacker(s, decompress), s.hash)
  }

  /** A client that has received any part of what the server has to send is where the resumption model
      says, after a session that is cut after as many messages. */
  lemma CutSession(s: Resumption.Setup, file: Option<bytes>, i: Resumption.Session, inbox: seq<Message>)
    requires s.defaultChunk > 0 && inbox <= Content(ServerProgram(s, file, i))
    ensures ClientSession(s, file, i.wanted, inbox) == Resumption.RunSession(s, file, i.(cut := |inbox|))
  {
    hide Transfer.RequestFor, Transfer.StartAfter, Transfer.AfterStart, Transfer.Receive, FileMessages, FileProgram,
         Resumption.ChunkOf, Resumption.Compressed, Resumption.Packer, Resumption.Unpacker, BrftFiles.RecordedChecksum;
    var program := ServerProgram(s, file, i);
    var sought := Transfer.RequestFor(file, s.id, s.name, i.wanted, s.headers);
    if sought.Ok? && inbox != [] {
      RequestIsFileReq(s, file, i.wanted);
      var reply := Transfer.ReplyTo(sought.value.req, i.content, s.hash, s.defaultChunk);
      assert inbox[0] == program[0].msg;
      if reply.Offer? {
        var reaction := Transfer.StartAfter(file, i.wanted, sought.value, reply.response).1;
        if reaction.Start? {
          var ms := Answer(s, reaction.msg, i.content.value);
          ProgramContent(reply.response, ms);
          assert inbox[1..] == ([reply.response] + ms)[..|inbox|][1..] == ms[..|inbox| - 1];
          assert ms[..|ms|] == ms;
        }
      }
    }
  }

  lemma RequestIsFileReq(s: Resumption.Setup, file: Option<bytes>, wanted: bytes)
    requires Transfer.RequestFor(file, s.id, s.name, wanted, s.headers).Ok?
    ensures Transfer.RequestFor(file, s.id, s.name, wanted, s.headers).value.req.FileReq?
  {
  }

  /** A whole session over the network, for any file of the client and any file of the server: what the
      client makes of the messages that reach its stream is the session of the resumption model that is
      cut after as many messages. */
  lemma DownloadIsSession(programs: Program, pushes: seq<Action>, c: Transport.Config, s0: Transport.State,
                          acts: seq<Transport.Action>, client: Dispatch.State, es: seq<Dispatch.Event>,
                          s: Resumption.Setup, file: Option<bytes>, i: Resumption.Session)
    requires s.defaultChunk > 0
    requires Sendable(programs) && Run(Start(programs), pushes, true) && Some(s.id) in programs
    requires programs[Some(s.id)] == ServerProgram(s, file, i)
    requires Transport.Init(c, s0) && Transport.Run(c, s0, acts)
    requires Transport.Exec(c, s0, acts).written <= EncodeAll(Exec(Start(programs), pushes, true).q.wire)
    requires Dispatch.Wire(es) == ReadAll(Transport.Exec(c, s0, acts).got).0
    requires s.id in client.streams && client.streams[s.id] == [] && !client.blocked && !client.closed
    requires !Dispatch.Run(client, es).blocked
    ensures s.id in Dispatch.Run(client, es).streams
    ensures var inbox := Dispatch.Run(client, es).streams[s.id];
            ClientSession(s, file, i.wanted, inbox) == Resumption.RunSession(s, file, i.(cut := |inbox|))
  {
    hide Exec, Run, Transport.Exec, Transport.Run, ReadAll, EncodeAll, Content, ServerProgram, ClientSession,
         Resumption.RunSession, Dispatch.Run, Sendable;
    StreamPrefix(programs, pushes, c, s0, acts, client, es, s.id);
    CutSession(s, file, i, Dispatch.Run(client, es).streams[s.id]);
  }

  /** The same for a conversation of both sides, in which the order of the queues and of the listings is
      not assumed but follows from what the two sides wait for. */
  lemma DownloadInConversation(programs: Program, lists: seq<seq<MetaItem>>, moves: seq<Conversation.Move>,
                               c: Transport.Config, s0: Transport.State, acts: seq<Transport.Action>,
                               streams: map<StreamID, seq<Message>>, s: Resumption.Setup, file: Option<bytes>,
                               i: Resumption.Session)
    requires s.defaultChunk > 0 && Sendable(programs) && Conversation.Served(programs, lists)
    requires Conversation.Talking(programs, lists, Conversation.Opening(programs), moves)
    requires Some(s.id) in programs && programs[Some(s.id)] == ServerProgram(s, file, i)
    requires s.id in streams && streams[s.id] == []
    requires Transport.Init(c, s0) && Transport.Run(c, s0, acts)
    requires var t := Conversation.Talked(programs, lists, Conversation.Opening(programs), moves);
             && Transport.Exec(c, s0, acts).written <= EncodeAll(t.server.q.wire)
             && Dispatch.Wire(t.events) == ReadAll(Transport.Exec(c, s0, acts).got).0
    ensures var t := Conversation.Talked(programs, lists, Conversation.Opening(programs), moves);
            var client := Dispatch.Run(Dispatch.Fresh(streams), t.events);
            && s.id in client.streams
            && ClientSession(s, file, i.wanted, client.streams[s.id])
               == Resumption.RunSession(s, file, i.(cut := |client.streams[s.id]|))
  {
    hide Exec, Run, Transport.Exec, Transport.Run, ReadAll, EncodeAll, Content, ServerProgram, ClientSession,
         Resumption.RunSession, Dispatch.Run, Sendable, Conversation.Served, Conversation.Talking, Conversation.Talked;
    Conversation.StreamsWait(programs, lists, moves);
    Conversation.NeverBlocked(programs, lists, moves, streams);
    var t := Conversation.Talked(programs, lists, Conversation.Opening(programs), moves);
    DownloadIsSession(programs, Conversation.Pushes(moves), c, s0, acts, Dispatch.Fresh(streams), t.events, s, file, i);
  }

  // ------------------------------------------------- downloads can succeed

  /** The arrivals of a list of messages. */
  function Arrivals(ms: seq<Message>): (es: seq<Dispatch.Event>)
    ensures |es| == |ms|
  {
    seq(|ms|, i requires 0 <= i < |ms| => Dispatch.Arrive(ms[i]))
  }

  lemma {:induction false} ArrivalsWire(ms: seq<Message>)
    ensures Dispatch.Wire(Arrivals(ms)) == ms
    decreases |ms|
  {
    if ms == [] {
    } else {
      var before := ms[..|ms| - 1];
      ArrivalsWire(before);
      assert Arrivals(ms)[..|ms| - 1] == Arrivals(before);
      assert ms == before + [ms[|ms| - 1]];
    }
  }

  lemma {:induction false} NoListingNoBlock(client: Dispatch.State, es: seq<Dispatch.Event>)
    requires !client.blocked && forall i | 0 <= i < |es| :: es[i].Arrive? && !es[i].m.MetaResp?
    ensures !Dispatch.Run(client, es).blocked
    decreases |es|
  {
    if es == [] {
    } else {
      NoListingNoBlock(client, es[..|es| - 1]);
    }
  }

  /** A message that a file's stream sends. */
  ghost predicate Own(id: StreamID, m: Message)
  {
    StreamOf(m) == Some(id) && WellFormed(m) && Dispatch.FromServer(m) && !m.MetaResp?
  }

  lemma {:induction false} OwnMessages(id: StreamID, left: bytes, chunk: nat, pack: Packing)
    requires chunk > 0 && forall x: bytes | |x| <= chunk :: |pack(x)| < 0x100_0000
    ensures forall m | m in FileMessages(id, left, chunk, pack) :: Own(id, m)
    decreases |left|
  {
    if |left| < chunk {
      assert Own(id, Data(id, pack(left)));
    } else {
      assert Own(id, Data(id, pack(left[..chunk])));
      OwnMessages(id, left[chunk..], chunk, pack);
    }
  }

  lemma {:induction false} OfOwn(ms: seq<Message>, key: Key)
    requires forall i | 0 <= i < |ms| :: StreamOf(ms[i]) == key
    ensures Of(ms, key) == ms
  {
    if ms == [] {
    } else {
      OfOwn(ms[1..], key);
    }
  }

  /** The premises of FileArrives can be met, and then the whole file can arrive: for every file whose
      packed chunks fit a message there is a run, over any connection, in which the client's stream
      gets everything up to the Close. */
  lemma FileCanArrive(c: Transport.Config, s0: Transport.State, id: StreamID, resp: Message, left: bytes, chunk: nat,
                      pack: Packing)
    returns (pushes: seq<Action>, acts: seq<Transport.Action>, es: seq<Dispatch.Event>)
    requires Transport.Init(c, s0) && resp.FileResp? && resp.respId == id && WellFormed(resp)
    requires chunk > 0 && forall x: bytes | |x| <= chunk :: |pack(x)| < 0x100_0000
    ensures var programs: Program := map[Some(id) := FileProgram(resp, FileMessages(id, left, chunk, pack))];
            var client := Dispatch.Fresh(map[id := []]);
            && Sendable(programs) && Run(Start(programs), pushes, true)
            && Transport.Run(c, s0, acts)
            && Transport.Exec(c, s0, acts).written <= EncodeAll(Exec(Start(programs), pushes, true).q.wire)
            && Dispatch.Wire(es) == ReadAll(Transport.Exec(c, s0, acts).got).0
            && !Dispatch.Run(client, es).blocked
            && id in Dispatch.Run(client, es).streams
            && Dispatch.Run(client, es).streams[id] == [resp] + FileMessages(id, left, chunk, pack)
  {
    hide Exec, Run, Transport.Exec, Transport.Run, Transport.Init, ReadAll, ReadMessage, EncodeAll, FileMessages,
         WellFormed, Sendable, FileProgram, Of;
    var ms := FileMessages(id, left, chunk, pack);
    var programs: Program := map[Some(id) := FileProgram(resp, ms)];
    var all := [resp] + ms;
    OwnMessages(id, left, chunk, pack);
    FileSendable(id, resp, ms);
    pushes := FileCanLeave(id, resp, ms);
    acts := Delivery.EverythingCanArrive(c, s0, EncodeAll(all));
    DecodedPrefix(programs, pushes, c, s0, acts);
    es := Arrivals(all);
    ArrivalsWire(all);
    var client := Dispatch.Fresh(map[id := []]);
    forall i | 0 <= i < |es| ensures es[i].Arrive? && !es[i].m.MetaResp? {
      assert i > 0 ==> Own(id, ms[i - 1]);
    }
    NoListingNoBlock(client, es);
    forall i | 0 <= i < |all| ensures StreamOf(all[i]) == Some(id) && Dispatch.FromServer(all[i]) {
      assert i > 0 ==> Own(id, ms[i - 1]);
    }
    Dispatch.StreamsGetTheirs(client, es, id);
    OfOwn(all, Some(id));
    assert [] + all == all;
  }

  lemma FileSendable(id: StreamID, resp: Message, ms: seq<Message>)
    requires resp.FileResp? && resp.respId == id && WellFormed(resp)
    requires forall m | m in ms :: Own(id, m)
    ensures Sendable(map[Some(id) := FileProgram(resp, ms)])
  {
    hide WellFormed;
    forall i | 0 <= i < |ms| ensures Own(id, ms[i]) {
    }
  }
}
