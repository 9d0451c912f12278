/** Opening a connection: one dialling client, a listener that opens a new server connection for
    every Conn it receives, and a network that loses and repeats their messages
    (btp/listener.go, btp/conn_client.go, btp/conn.go). */
module Handshake {
  import opened Prelude
  import opened PacketNumbers
  import Congestion
  import Sender

  datatype Options = Options(initCwndSize: nat, maxCwndSize: nat, maxPacketSize: nat)

  datatype ConnMsg = ConnMsg(seqNr: PacketNumber, options: Options)

  /** `port` names the server connection that answers. */
  datatype ConnAck = ConnAck(seqNr: PacketNumber, serverSeqNr: PacketNumber, port: nat, actual: Options)

  /** The last message of the handshake, addressed to a server connection. */
  datatype HandshakeAck = HandshakeAck(port: nat, seqNr: PacketNumber)

  /** `gen` is the number of the next packet, `next` the number that the reader expects. */
  datatype Client = Client(gen: PacketNumber, next: PacketNumber, options: Options, isOpen: bool, port: nat)

  datatype Server = Server(gen: PacketNumber, next: PacketNumber, options: Options, isOpen: bool)

  /** The response offers the request's options, cut down to the server's. */
  function Merge(req: Options, own: Options): (r: Options)
    ensures r.initCwndSize <= req.initCwndSize && r.initCwndSize <= own.initCwndSize
    ensures r.maxCwndSize <= req.maxCwndSize && r.maxCwndSize <= own.maxCwndSize
    ensures r.maxPacketSize <= req.maxPacketSize && r.maxPacketSize <= own.maxPacketSize
    ensures r.initCwndSize in {req.initCwndSize, own.initCwndSize}
    ensures r.maxCwndSize in {req.maxCwndSize, own.maxCwndSize}
    ensures r.maxPacketSize in {req.maxPacketSize, own.maxPacketSize}
  {
    Options(if req.initCwndSize > own.initCwndSize then own.initCwndSize else req.initCwndSize,
            if req.maxCwndSize > own.maxCwndSize then own.maxCwndSize else req.maxCwndSize,
            if req.maxPacketSize > own.maxPacketSize then own.maxPacketSize else req.maxPacketSize)
  }

  function NewServer(seed: PacketNumber, req: ConnMsg, own: Options): Server
  {
    Server(seed, Succ(req.seqNr), own, false)
  }

  function Respond(seed: PacketNumber, req: ConnMsg, port: nat, own: Options): ConnAck
  {
    ConnAck(req.seqNr, seed, port, Merge(req.options, own))
  }

  /** The client refuses windows larger than its own; the packet size is taken unchecked. */
  predicate Acceptable(c: Client, a: ConnAck)
  {
    a.actual.initCwndSize <= c.options.initCwndSize && a.actual.maxCwndSize <= c.options.maxCwndSize
  }

  function OnConnAck(c: Client, a: ConnAck): Client
  {
    if c.isOpen || !Acceptable(c, a) then c
    else c.(options := a.actual, port := a.port, next := a.serverSeqNr, isOpen := true)
  }

  function OnHandshakeAck(s: Server, seqNr: PacketNumber): Server
  {
    if !s.isOpen && seqNr == s.gen then s.(isOpen := true) else s
  }

  // ------------------------------------------------------------ the system

  /** `snd` is the sending half of the client, which the Conn message already uses, and `resent` counts
      how often that message was sent again. */
  datatype State = State(dialled: bool, client: Client, snd: Sender.State, resent: nat, servers: seq<Server>,
                         conns: set<ConnMsg>, connAcks: set<ConnAck>, acks: set<HandshakeAck>)

  /** The client's first number, both sides' options, and the window that the caller made the client's
      congestion object with. */
  datatype Config = Config(seed: PacketNumber, dialOptions: Options, dialCwnd: nat, listenOptions: Options)

  datatype Action =
    | Dial
    | Retransmit(seqNr: PacketNumber)
    | Accept(msg: ConnMsg, serverSeed: PacketNumber)
    | ReceiveConnAck(a: ConnAck, srtt: int)
    | ReceiveAck(h: HandshakeAck)
    | Lose(conns: set<ConnMsg>, connAcks: set<ConnAck>, acks: set<HandshakeAck>)

  ghost predicate Init(c: Config, s: State)
  {
    && !s.dialled && s.client.gen == c.seed && s.client.options == c.dialOptions && !s.client.isOpen
    && s.snd == Sender.State(c.seed, map[], Congestion.NewWindow(c.dialCwnd, c.dialOptions.maxCwndSize))
    && s.resent == 0
    && s.servers == [] && s.conns == {} && s.connAcks == {} && s.acks == {}
  }

  predicate Enabled(s: State, a: Action)
  {
    match a
    case Dial => !s.dialled && Congestion.FreeSend(s.snd.window) > 0
    case Retransmit(seqNr) => seqNr in s.snd.inflight
    case Accept(m, _) => m in s.conns
    case ReceiveConnAck(a, _) => a in s.connAcks
    case ReceiveAck(h) => h in s.acks && h.port < |s.servers|
    case Lose(_, _, _) => true
  }

  function Step(c: Config, s: State, a: Action): State
    requires Enabled(s, a)
  {
    match a
    case Dial =>
      s.(dialled := true, client := s.client.(gen := Succ(s.client.gen)), snd := Sender.Transmit(s.snd, c.seed, []),
         conns := s.conns + {ConnMsg(s.client.gen, c.dialOptions)})
    case Retransmit(k) =>
      s.(snd := Sender.Retransmit(s.snd, k), resent := s.resent + 1, conns := s.conns + {ConnMsg(k, c.dialOptions)})
    case Accept(m, seed) =>
      s.(servers := s.servers + [NewServer(seed, m, c.listenOptions)],
         connAcks := s.connAcks + {Respond(seed, m, |s.servers|, c.listenOptions)})
    case ReceiveConnAck(a, srtt) =>
      var client := OnConnAck(s.client, a);
      s.(client := client, snd := if s.client.isOpen then s.snd else Sender.ProcessAck(s.snd, a.seqNr, srtt),
         acks := if client.isOpen && !s.client.isOpen then s.acks + {HandshakeAck(a.port, a.serverSeqNr)} else s.acks)
    case ReceiveAck(h) =>
      s.(servers := s.servers[h.port := OnHandshakeAck(s.servers[h.port], h.seqNr)])
    case Lose(x, y, z) => s.(conns := s.conns - x, connAcks := s.connAcks - y, acks := s.acks - z)
  }

  predicate Run(c: Config, s: State, acts: seq<Action>)
    decreases |acts|
  {
    acts == [] || (Enabled(s, acts[0]) && Run(c, Step(c, s, acts[0]), acts[1..]))
  }

  function Exec(c: Config, s: State, acts: seq<Action>): State
    requires Run(c, s, acts)
    decreases |acts|
  {
    if acts == [] then s else Exec(c, Step(c, s, acts[0]), acts[1..])
  }

  // -------------------------------------------------------------- invariant

  ghost predicate MessagesOk(c: Config, s: State)
  {
    && (forall m | m in s.conns :: m == ConnMsg(c.seed, c.dialOptions) && s.dialled)
    && (forall a | a in s.connAcks ::
          && a.seqNr == c.seed && a.port < |s.servers| && a.serverSeqNr == s.servers[a.port].gen
          && a.actual == Merge(c.dialOptions, c.listenOptions))
    && (forall h | h in s.acks :: s.client.isOpen && h == HandshakeAck(s.client.port, s.client.next))
  }

  ghost predicate ClientOk(c: Config, dialled: bool, client: Client, servers: seq<Server>)
  {
    && client.gen == (if dialled then Succ(c.seed) else c.seed)
    && (!client.isOpen ==> client.options == c.dialOptions)
    && (client.isOpen ==>
          && client.port < |servers|
          && client.next == servers[client.port].gen
          && client.options == Merge(c.dialOptions, c.listenOptions))
  }

  ghost predicate ServerOk(c: Config, dialled: bool, client: Client, i: nat, server: Server)
  {
    && dialled
    && server.next == Succ(c.seed)
    && server.options == c.listenOptions
    && (server.isOpen ==> client.isOpen && client.port == i)
  }

  ghost predicate ServersOk(c: Config, dialled: bool, client: Client, servers: seq<Server>)
  {
    forall i | 0 <= i < |servers| :: ServerOk(c, dialled, client, i, servers[i])
  }

  /** Before the Conn message nothing is watched, then it alone, and nothing once the client is open. */
  ghost predicate SenderOk(c: Config, dialled: bool, isOpen: bool, snd: Sender.State, resent: nat)
  {
    && (isOpen ==> dialled)
    && snd.gen == (if dialled then Succ(c.seed) else c.seed)
    && snd.inflight.Keys == (if dialled && !isOpen then {c.seed} else {})
    && snd.window.pipe == |snd.inflight|
    && snd.window.cwnd == Congestion.Iterated(c.dialCwnd, resent)
    && (dialled ==> c.dialCwnd >= 1) && (!dialled ==> resent == 0)
  }

  ghost predicate Inv(c: Config, s: State)
  {
    && MessagesOk(c, s)
    && SenderOk(c, s.dialled, s.client.isOpen, s.snd, s.resent)
    && ClientOk(c, s.dialled, s.client, s.servers)
    && ServersOk(c, s.dialled, s.client, s.servers)
  }

  lemma StepKeeps(c: Config, s: State, a: Action)
    requires Inv(c, s) && Enabled(s, a)
    ensures Inv(c, Step(c, s, a))
  {
    match a {
      case Accept(m, seed) => AcceptKeeps(c, s, m, seed);
      case ReceiveAck(h) => AckKeeps(c, s, h);
      case _ => OtherKeeps(c, s, a);
    }
  }

  lemma SenderKeeps(c: Config, s: State, a: Action)
    requires Inv(c, s) && Enabled(s, a) && (a.Dial? || a.Retransmit? || a.ReceiveConnAck?)
    ensures var t := Step(c, s, a); SenderOk(c, t.dialled, t.client.isOpen, t.snd, t.resent)
  {
    hide Congestion.Iterated, Merge;
    var t := Step(c, s, a);
    match a {
      case Dial =>
        assert s.snd.inflight == map[];
        assert t.snd.inflight.Keys == {c.seed};
        assert |t.snd.inflight| == 1;
        FirstWindow(c.dialCwnd);
      case Retransmit(k) =>
        assert t.snd.inflight.Keys == s.snd.inflight.Keys;
        assert |t.snd.inflight| == |t.snd.inflight.Keys|;
        Congestion.IteratedNext(c.dialCwnd, s.resent);
      case ReceiveConnAck(ack, srtt) =>
        if !s.client.isOpen {
          assert ServerOk(c, s.dialled, s.client, ack.port, s.servers[ack.port]);
          assert t.client.isOpen;
          assert t.snd.inflight == map[];
          assert |s.snd.inflight.Keys| == 1;
        }
    }
  }

  lemma FirstWindow(cwnd: nat)
    ensures Congestion.Iterated(cwnd, 0) == cwnd
  {
  }

  lemma OtherKeeps(c: Config, s: State, a: Action)
    requires Inv(c, s) && Enabled(s, a) && !a.Accept? && !a.ReceiveAck?
    ensures Inv(c, Step(c, s, a))
  {
    if !a.Lose? {
      SenderKeeps(c, s, a);
    }
    hide SenderOk;
    var s' := Step(c, s, a);
    assert s'.servers == s.servers;
    forall i | 0 <= i < |s.servers| ensures ServerOk(c, s'.dialled, s'.client, i, s'.servers[i]) {
      assert ServerOk(c, s.dialled, s.client, i, s.servers[i]);
    }
  }

  lemma AcceptKeeps(c: Config, s: State, m: ConnMsg, seed: PacketNumber)
    requires Inv(c, s) && m in s.conns
    ensures Inv(c, Step(c, s, Accept(m, seed)))
  {
    var s' := Step(c, s, Accept(m, seed));
    forall i | 0 <= i < |s'.servers| ensures ServerOk(c, s'.dialled, s'.client, i, s'.servers[i]) {
      if i < |s.servers| {
        assert ServerOk(c, s.dialled, s.client, i, s.servers[i]);
      }
    }
  }

  lemma AckKeeps(c: Config, s: State, h: HandshakeAck)
    requires Inv(c, s) && h in s.acks && h.port < |s.servers|
    ensures Inv(c, Step(c, s, ReceiveAck(h)))
  {
    var s' := Step(c, s, ReceiveAck(h));
    forall i | 0 <= i < |s.servers| ensures ServerOk(c, s'.dialled, s'.client, i, s'.servers[i]) {
      assert ServerOk(c, s.dialled, s.client, i, s.servers[i]);
    }
  }

  lemma {:induction false} RunKeeps(c: Config, s: State, acts: seq<Action>)
    requires Inv(c, s) && Run(c, s, acts)
    ensures Inv(c, Exec(c, s, acts))
    decreases |acts|
  {
    if acts == [] {
    } else {
      StepKeeps(c, s, acts[0]);
      RunKeeps(c, Step(c, s, acts[0]), acts[1..]);
    }
  }

  // ------------------------------------------------------------------ results

  lemma Reachable(c: Config, s0: State, acts: seq<Action>)
    requires Init(c, s0) && Run(c, s0, acts)
    ensures Inv(c, Exec(c, s0, acts))
  {
    FirstWindow(c.dialCwnd);
    RunKeeps(c, s0, acts);
  }

  /** A client and the server connection it migrated to agree: each reader starts at the number of
      the peer's first data packet, and the client's options are the minimum of both sides. */
  lemma Agreement(c: Config, s0: State, acts: seq<Action>)
    requires Init(c, s0) && Run(c, s0, acts)
    ensures var s := Exec(c, s0, acts);
            s.client.isOpen ==>
              && s.client.port < |s.servers|
              && s.client.next == s.servers[s.client.port].gen
              && s.servers[s.client.port].next == s.client.gen
              && s.client.options == Merge(c.dialOptions, c.listenOptions)
  {
    Reachable(c, s0, acts);
  }

  /** However many server connections a repeated Conn creates, only the client's own one opens. */
  lemma OnlyTheChosenServerOpens(c: Config, s0: State, acts: seq<Action>, i: nat)
    requires Init(c, s0) && Run(c, s0, acts)
    requires i < |Exec(c, s0, acts).servers| && Exec(c, s0, acts).servers[i].isOpen
    ensures var s := Exec(c, s0, acts); s.client.isOpen && s.client.port == i
  {
    Reachable(c, s0, acts);
  }

  lemma ServerOptions(c: Config, s0: State, acts: seq<Action>, i: nat)
    requires Init(c, s0) && Run(c, s0, acts) && i < |Exec(c, s0, acts).servers|
    ensures Exec(c, s0, acts).servers[i].options == c.listenOptions
  {
    Reachable(c, s0, acts);
  }

  /** What a response does: a client that is not open takes over the server's number, port and options,
      and opens, exactly when neither window is larger than its own; otherwise nothing changes. */
  lemma ClientOpensExactly(c: Client, a: ConnAck)
    ensures var t := OnConnAck(c, a);
            && t.gen == c.gen
            && (c.isOpen ==> t == c)
            && (!c.isOpen ==>
                  (t.isOpen <==> a.actual.initCwndSize <= c.options.initCwndSize
                                 && a.actual.maxCwndSize <= c.options.maxCwndSize))
            && (!c.isOpen && !t.isOpen ==> t == c)
            && (!c.isOpen && t.isOpen ==> t.next == a.serverSeqNr && t.port == a.port && t.options == a.actual)
  {
  }

  /** The acknowledgement that the client sends opens the server connection it is for, whenever it
      arrives; and a half-open server connection opens at nothing else. */
  lemma AckOpensServer(c: Config, s0: State, acts: seq<Action>, h: HandshakeAck)
    requires Init(c, s0) && Run(c, s0, acts)
    requires h in Exec(c, s0, acts).acks && h.port < |Exec(c, s0, acts).servers|
    ensures var s := Exec(c, s0, acts);
            && Enabled(s, ReceiveAck(h)) && Step(c, s, ReceiveAck(h)).servers[h.port].isOpen
            && h.port == s.client.port
  {
    Reachable(c, s0, acts);
  }

  /** A half-open server connection opens exactly at its own first number. */
  lemma ServerOpensExactly(s: Server, seqNr: PacketNumber)
    ensures OnHandshakeAck(s, seqNr).isOpen <==> s.isOpen || seqNr == s.gen
    ensures var t := OnHandshakeAck(s, seqNr); t.gen == s.gen && t.next == s.next && t.options == s.options
  {
  }

  lemma One(c: Config, s: State, a: Action, more: seq<Action>)
    requires Enabled(s, a) && Run(c, Step(c, s, a), more)
    ensures Run(c, s, [a] + more) && Exec(c, s, [a] + more) == Exec(c, Step(c, s, a), more)
  {
    assert ([a] + more)[1..] == more;
  }

  /** Whatever the options of both sides, if the client's congestion object has any window there is a run
      after which the client and the server connection it migrated to are both open. */
  lemma BothCanOpen(c: Config, s0: State, serverSeed: PacketNumber) returns (acts: seq<Action>)
    requires Init(c, s0) && c.dialCwnd >= 1
    ensures Run(c, s0, acts)
    ensures var s := Exec(c, s0, acts);
            s.client.isOpen && s.client.port < |s.servers| && s.servers[s.client.port].isOpen
  {
    var m := ConnMsg(c.seed, c.dialOptions);
    var a := Respond(serverSeed, m, 0, c.listenOptions);
    var s1 := Step(c, s0, Dial);
    var s2 := Step(c, s1, Accept(m, serverSeed));
    assert s2.servers == [NewServer(serverSeed, m, c.listenOptions)] && a in s2.connAcks;
    var s3 := Step(c, s2, ReceiveConnAck(a, 0));
    var h := HandshakeAck(0, serverSeed);
    assert s3.client.isOpen && h in s3.acks;
    var s4 := Step(c, s3, ReceiveAck(h));
    assert s4.servers[0].isOpen;
    hide Enabled, Step, OnConnAck, OnHandshakeAck;
    assert Run(c, s4, []) && Exec(c, s4, []) == s4;
    One(c, s3, ReceiveAck(h), []);
    acts := [ReceiveAck(h)] + [];
    One(c, s2, ReceiveConnAck(a, 0), acts);
    acts := [ReceiveConnAck(a, 0)] + acts;
    One(c, s1, Accept(m, serverSeed), acts);
    acts := [Accept(m, serverSeed)] + acts;
    One(c, s0, Dial, acts);
    acts := [Dial] + acts;
  }

  /** The Conn message may be sent again any number of times, and each copy that arrives makes a server
      connection of its own: for any two numbers there is a run with so many of both. */
  lemma CopiesMultiply(c: Config, s0: State, resent: nat, servers: nat) returns (acts: seq<Action>)
    requires Init(c, s0) && c.dialCwnd >= 1
    ensures Run(c, s0, acts)
    ensures var s := Exec(c, s0, acts);
            s.resent == resent && |s.servers| == servers && !s.client.isOpen
            && s.snd.window.cwnd == Congestion.Iterated(c.dialCwnd, resent)
  {
    var s1 := Step(c, s0, Dial);
    acts := Copies(c, s1, resent, servers);
    One(c, s0, Dial, acts);
    acts := [Dial] + acts;
    Reachable(c, s0, acts);
  }

  lemma {:induction false} Copies(c: Config, s: State, resent: nat, servers: nat) returns (acts: seq<Action>)
    requires !s.client.isOpen && c.seed in s.snd.inflight && ConnMsg(c.seed, c.dialOptions) in s.conns
    ensures Run(c, s, acts)
    ensures var t := Exec(c, s, acts);
            t.resent == s.resent + resent && |t.servers| == |s.servers| + servers && !t.client.isOpen
    decreases resent + servers
  {
    if resent > 0 {
      acts := Copies(c, Step(c, s, Retransmit(c.seed)), resent - 1, servers);
      One(c, s, Retransmit(c.seed), acts);
      acts := [Retransmit(c.seed)] + acts;
    } else if servers > 0 {
      var a := Accept(ConnMsg(c.seed, c.dialOptions), 0);
      acts := Copies(c, Step(c, s, a), resent, servers - 1);
      One(c, s, a, acts);
      acts := [a] + acts;
    } else {
      acts := [];
    }
  }

  /** No response of the listener is refused by the client. */
  lemma ResponsesAccepted(c: Config, s0: State, acts: seq<Action>, a: ConnAck)
    requires Init(c, s0) && Run(c, s0, acts)
    requires a in Exec(c, s0, acts).connAcks && !Exec(c, s0, acts).client.isOpen
    ensures OnConnAck(Exec(c, s0, acts).client, a).isOpen
  {
    Reachable(c, s0, acts);
  }

  /** The server connection keeps the listener's options, so both sides run with the same ones
      exactly when the listener's options are within the client's. */
  lemma ServerKeepsItsOptions(c: Config, s0: State, acts: seq<Action>)
    requires Init(c, s0) && Run(c, s0, acts) && Exec(c, s0, acts).client.isOpen
    ensures var s := Exec(c, s0, acts);
            var own := c.listenOptions;
            && s.client.port < |s.servers|
            && (s.client.options == s.servers[s.client.port].options <==>
                && own.initCwndSize <= c.dialOptions.initCwndSize
                && own.maxCwndSize <= c.dialOptions.maxCwndSize
                && own.maxPacketSize <= c.dialOptions.maxPacketSize)
  {
    Reachable(c, s0, acts);
  }

  /** A client that opens has nothing unacknowledged, and its window is what the caller's congestion
      object started with, narrowed once for every time the Conn message was sent again. */
  lemma OpenedSender(c: Config, s0: State, acts: seq<Action>)
    requires Init(c, s0) && Run(c, s0, acts) && Exec(c, s0, acts).client.isOpen
    ensures var s := Exec(c, s0, acts);
            && s.snd.gen == s.client.gen && s.snd.inflight == map[] && s.snd.window.pipe == 0
            && s.snd.window.cwnd == Congestion.Iterated(c.dialCwnd, s.resent)
            && 1 <= s.snd.window.cwnd <= c.dialCwnd
  {
    Reachable(c, s0, acts);
    Congestion.IteratedBounds(c.dialCwnd, Exec(c, s0, acts).resent);
  }

  /** The client adopts the smaller initial window as an option, but its congestion object was made
      before. With an object made for its own option, and a Conn message that was sent once, the window
      in force is the negotiated one if and only if the client asked for no more than the listener
      has; otherwise, if and only if the repetitions of the Conn message have brought it down to exactly
      what the listener has. It is within the negotiated one if and only if they have brought it down to
      no more than that. */
  lemma NegotiatedWindow(c: Config, s0: State, acts: seq<Action>)
    requires Init(c, s0) && Run(c, s0, acts) && Exec(c, s0, acts).client.isOpen
    requires c.dialCwnd == c.dialOptions.initCwndSize
    ensures var s := Exec(c, s0, acts);
            var (agreed, own) := (s.client.options.initCwndSize, c.listenOptions.initCwndSize);
            && (s.snd.window.cwnd == agreed <==>
                  if s.resent == 0 || c.dialCwnd == 1 then c.dialCwnd <= own
                  else Congestion.Iterated(c.dialCwnd, s.resent) == own)
            && (s.snd.window.cwnd <= agreed <==> Congestion.Iterated(c.dialCwnd, s.resent) <= own)
  {
    Reachable(c, s0, acts);
    OpenedSender(c, s0, acts);
    FirstWindow(c.dialCwnd);
    Congestion.IteratedBounds(c.dialCwnd, Exec(c, s0, acts).resent);
  }
}
