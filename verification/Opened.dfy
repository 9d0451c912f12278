/** What the handshake leaves is where the transport starts, in both directions. */
module Opened {
  import opened Prelude
  import opened PacketNumbers
  import opened DataReader
  import Congestion
  import Handshake
  import Sender
  import Transport
  import TransportSafety

  /** One direction of a new connection: the sending half of one side, and a reader of the other side
      that expects `next`. */
  function Direction(snd: Sender.State, next: PacketNumber): Transport.State
  {
    Transport.State([], [], [], snd, true, [], {}, {}, {}, multiset{}, FreshReader(50, next),
                    Ideal(map[], snd.gen, false), [], [], [])
  }

  /** A server connection has sent nothing before it opens; its congestion object is new. */
  function ServerSender(s: Handshake.Server): Sender.State
  {
    Sender.State(s.gen, map[], Congestion.NewWindow(s.options.initCwndSize, s.options.maxCwndSize))
  }

  /** The direction that a side with these options sends in, when its congestion object started with
      the window `initCwnd`. */
  function ConfigOf(gen: PacketNumber, maxPacketSize: nat, initCwnd: nat, maxRetransmits: nat): Transport.Config
  {
    Transport.Config(gen, 50, maxPacketSize, maxRetransmits, initCwnd)
  }

  /** The direction starts where the transport starts, and every run of it delivers a prefix of what is
      written. */
  ghost predicate Delivers(c: Transport.Config, s0: Transport.State, acts: seq<Transport.Action>)
  {
    && Transport.Init(c, s0)
    && (Transport.Run(c, s0, acts) ==> Transport.Exec(c, s0, acts).got <= Transport.Exec(c, s0, acts).written)
  }

  lemma DirectionDelivers(c: Transport.Config, snd: Sender.State, next: PacketNumber, acts: seq<Transport.Action>)
    requires c.maxPacketSize > 0 && c.capacity == 50 && c.first == snd.gen == next
    requires snd.inflight == map[] && snd.window.pipe == 0 && 1 <= snd.window.cwnd <= c.initCwnd
    ensures Delivers(c, Direction(snd, next), acts)
  {
    var s0 := Direction(snd, next);
    assert Wire(next) == next;
    assert Transport.Init(c, s0);
    hide Transport.Run, Transport.Exec, Direction, Transport.Init;
    if Transport.Run(c, s0, acts) {
      TransportSafety.BytesArePrefix(c, s0, acts);
    }
  }

  /** After any handshake run in which the client opened, whatever the network then does, each side
      reads a prefix of the bytes that the other side writes. The client sends with the window that the
      handshake has left it. A listener without any window sends nothing. */
  lemma OpenedConnectionDelivers(h: Handshake.Config, h0: Handshake.State, opening: seq<Handshake.Action>,
                                 maxRetransmits: nat, toClient: seq<Transport.Action>, toServer: seq<Transport.Action>)
    requires Handshake.Init(h, h0) && Handshake.Run(h, h0, opening)
    requires h.dialOptions.maxPacketSize > 0 && h.listenOptions.maxPacketSize > 0
    ensures var s := Handshake.Exec(h, h0, opening);
            s.client.isOpen ==>
              && s.client.port < |s.servers|
              && var peer := s.servers[s.client.port];
              && Delivers(ConfigOf(s.client.gen, s.client.options.maxPacketSize, h.dialCwnd, maxRetransmits),
                          Direction(s.snd, peer.next), toServer)
              && (peer.options.initCwndSize > 0 ==>
                    Delivers(ConfigOf(peer.gen, peer.options.maxPacketSize, peer.options.initCwndSize, maxRetransmits),
                             Direction(ServerSender(peer), s.client.next), toClient))
  {
    hide Handshake.Run, Handshake.Exec, Delivers;
    Handshake.Agreement(h, h0, opening);
    var s := Handshake.Exec(h, h0, opening);
    if s.client.isOpen {
      var peer := s.servers[s.client.port];
      Handshake.ServerOptions(h, h0, opening, s.client.port);
      Handshake.OpenedSender(h, h0, opening);
      DirectionDelivers(ConfigOf(s.client.gen, s.client.options.maxPacketSize, h.dialCwnd, maxRetransmits),
                        s.snd, peer.next, toServer);
      if peer.options.initCwndSize > 0 {
        DirectionDelivers(ConfigOf(peer.gen, peer.options.maxPacketSize, peer.options.initCwndSize, maxRetransmits),
                          ServerSender(peer), s.client.next, toClient);
      }
    }
  }
}
