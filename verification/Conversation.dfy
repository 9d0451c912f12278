/** Both directions of a connection at once. The server's streams wait for a StartTransmission and its
    listings for a request; the client starts a stream when its FileResp has come. From this follow the
    order of the two queues and the order of the listings. */
module Conversation {
  import opened Prelude
  import opened Messages
  import opened SendQueues
  import Dispatch
  import MetaPaging

  type Program = map<Key, seq<Item>>

  /** The server's streams and queues, the client's messages and those that the server has read, those
      of the wire that the client has handled, and what happened at the client. */
  datatype Talk = Talk(server: SendQueues.State, up: seq<Message>, heard: seq<Message>, handled: seq<Message>,
                       events: seq<Dispatch.Event>)

  datatype Move =
    | ServerPush(key: Key)
    | ServerLook
    | ServerRead
    | ClientArrive
    | ClientStart(id: StreamID, sum: bytes, offset: uint64)
    | ClientAsk(name: bytes)
    | ClientOther(m: Message)

  /** A StartTransmission for the stream is among the messages. */
  ghost predicate Started(ms: seq<Message>, id: StreamID)
  {
    exists m :: m in ms && m.StartTransmission? && m.startId == id
  }

  /** A FileResp for the stream is among the messages. */
  ghost predicate Offered(ms: seq<Message>, id: StreamID)
  {
    exists m :: m in ms && m.FileResp? && m.respId == id
  }

  /** How many listings the messages ask for. */
  function Requests(ms: seq<Message>): nat
  {
    if ms == [] then 0 else Requests(ms[..|ms| - 1]) + if ms[|ms| - 1].MetaReq? then 1 else 0
  }

  function AllCtrl(ms: seq<Message>): (r: seq<Item>)
    ensures |r| == |ms|
  {
    seq(|ms|, i requires 0 <= i < |ms| => Item(Ctrl, ms[i]))
  }

  /** A stream has at most one control message, its FileResp, and that comes first; the connection itself
      has the pages of the listings. */
  ghost predicate Served(programs: Program, lists: seq<seq<MetaItem>>)
  {
    && Programs(programs)
    && None in programs && programs[None] == AllCtrl(Dispatch.PagesOf(lists, |lists|))
    && (forall key, i | key in programs && 0 <= i < |programs[key]| :: Dispatch.FromServer(programs[key][i].msg))
    && (forall key | key in programs && key.Some? :: OneAnswer(programs[key]))
  }

  ghost predicate OneAnswer(program: seq<Item>)
  {
    forall i | 0 <= i < |program| && program[i].lane.Ctrl? :: i == 0 && program[0].msg.FileResp?
  }

  /** The server pushes pages only of listings that were asked for, and sends a file only when the client
      has asked it to start. */
  ghost predicate ServerMay(program: seq<Item>, lists: seq<seq<MetaItem>>, todo: seq<Item>,
                            heard: seq<Message>, key: Key)
  {
    match key
    case None =>
      Requests(heard) <= |lists| && |program| - |todo| < |Dispatch.PagesOf(lists, Requests(heard))|
    case Some(id) =>
      program != [] && program[0].lane.Ctrl? && todo != [] && todo[0].lane.Bulk? ==> Started(heard, id)
  }

  ghost predicate Allowed(programs: Program, lists: seq<seq<MetaItem>>, t: Talk, m: Move)
  {
    match m
    case ServerPush(key) =>
      && key in programs && key in t.server.todo && t.server.todo[key] != []
      && ServerMay(programs[key], lists, t.server.todo[key], t.heard, key)
    case ServerLook => true
    case ServerRead => |t.heard| < |t.up|
    case ClientArrive => |t.handled| < |t.server.q.wire|
    case ClientStart(id, _, _) => Offered(t.handled, id)
    case ClientAsk(_) => Requests(t.up) < |lists|
    case ClientOther(x) => !x.StartTransmission? && !x.MetaReq?
  }

  ghost function After(programs: Program, lists: seq<seq<MetaItem>>, t: Talk, m: Move): Talk
    requires Allowed(programs, lists, t, m)
  {
    match m
    case ServerPush(key) => t.(server := Step(t.server, Push(key)))
    case ServerLook => t.(server := Step(t.server, Look))
    case ServerRead => t.(heard := t.heard + [t.up[|t.heard|]])
    case ClientArrive =>
      var x := t.server.q.wire[|t.handled|];
      t.(handled := t.handled + [x], events := t.events + [Dispatch.Arrive(x)])
    case ClientStart(id, sum, offset) => t.(up := t.up + [StartTransmission(id, sum, offset)])
    case ClientAsk(name) => t.(up := t.up + [MetaReq(name)], events := t.events + [Dispatch.Ask])
    case ClientOther(x) => t.(up := t.up + [x])
  }

  ghost predicate Talking(programs: Program, lists: seq<seq<MetaItem>>, t: Talk, moves: seq<Move>)
    decreases |moves|
  {
    moves == []
    || (Allowed(programs, lists, t, moves[0]) && Talking(programs, lists, After(programs, lists, t, moves[0]), moves[1..]))
  }

  ghost function Talked(programs: Program, lists: seq<seq<MetaItem>>, t: Talk, moves: seq<Move>): Talk
    requires Talking(programs, lists, t, moves)
    decreases |moves|
  {
    if moves == [] then t else Talked(programs, lists, After(programs, lists, t, moves[0]), moves[1..])
  }

  function Opening(programs: Program): Talk
  {
    Talk(Start(programs), [], [], [], [])
  }

  // ------------------------------------------------------------- invariant

  /** What is left to push is the rest of the program, and the one control message of a stream is not
      pushed, or alone in its queue, or has left. */
  ghost predicate OneCtrl(key: Key, program: seq<Item>, todo: seq<Item>, q: Queues)
  {
    && |todo| <= |program| && todo == program[|program| - |todo|..]
    && (key.Some? && Of(q.ctrl, key) != [] ==>
          Of(q.wire, key) == [] && |Of(q.ctrl, key)| == 1 && program != [] && program[0].lane.Ctrl?)
  }

  ghost predicate StreamsOk(programs: Program, server: SendQueues.State)
  {
    && Inv(programs, server)
    && forall key | key in programs :: OneCtrl(key, programs[key], server.todo[key], server.q)
  }

  /** Whoever was asked to start had made its offer. */
  ghost predicate StartsOk(up: seq<Message>, wire: seq<Message>)
  {
    forall id | Started(up, id) :: Offered(wire, id)
  }

  ghost predicate PagesOk(lists: seq<seq<MetaItem>>, program: seq<Item>, todo: seq<Item>, heard: seq<Message>)
  {
    Requests(heard) <= |lists| && |program| - |todo| <= |Dispatch.PagesOf(lists, Requests(heard))|
  }

  ghost predicate TalkOk(programs: Program, lists: seq<seq<MetaItem>>, t: Talk)
  {
    && StreamsOk(programs, t.server) && None in programs && None in t.server.todo
    && t.heard <= t.up && t.handled <= t.server.q.wire
    && StartsOk(t.up, t.server.q.wire)
    && Dispatch.Wire(t.events) == t.handled && Dispatch.Asks(t.events) == Requests(t.up) <= |lists|
    && PagesOk(lists, programs[None], t.server.todo[None], t.heard)
    && Dispatch.Answers(lists, t.events)
  }

  lemma {:induction false} RequestsGrow(a: seq<Message>, b: seq<Message>)
    requires a <= b
    ensures Requests(a) <= Requests(b)
    decreases |b|
  {
    if |a| < |b| {
      assert a <= b[..|b| - 1];
      RequestsGrow(a, b[..|b| - 1]);
    } else {
      assert a == b;
    }
  }

  lemma RequestsNext(ms: seq<Message>, m: Message)
    ensures Requests(ms + [m]) == Requests(ms) + if m.MetaReq? then 1 else 0
  {
    assert (ms + [m])[..|ms|] == ms;
  }

  lemma EventsNext(es: seq<Dispatch.Event>, e: Dispatch.Event)
    ensures Dispatch.Wire(es + [e]) == Dispatch.Wire(es) + (if e.Arrive? then [e.m] else [])
    ensures Dispatch.Asks(es + [e]) == Dispatch.Asks(es) + if e.Ask? then 1 else 0
  {
    assert (es + [e])[..|es|] == es;
  }

  lemma AnswersNext(lists: seq<seq<MetaItem>>, es: seq<Dispatch.Event>, e: Dispatch.Event)
    requires Dispatch.Answers(lists, es) && Dispatch.AnswersNow(lists, es + [e])
    ensures Dispatch.Answers(lists, es + [e])
  {
    hide Dispatch.AnswersNow;
    assert (es + [e])[..|es|] == es;
  }

  // ------------------------------------------------------ the server's steps

  /** A stream that may send its file has no control message left in the queue. */
  lemma MayMeansAnswered(lists: seq<seq<MetaItem>>, key: Key, program: seq<Item>, todo: seq<Item>, q: Queues,
                         up: seq<Message>, heard: seq<Message>)
    requires OneCtrl(key, program, todo, q) && todo != [] && todo[0].lane.Bulk?
    requires ServerMay(program, lists, todo, heard, key) && heard <= up && StartsOk(up, q.wire)
    requires key.None? ==> forall i | 0 <= i < |program| :: program[i].lane.Ctrl?
    ensures Of(q.ctrl, key) == []
  {
    assert todo[0] == program[|program| - |todo|];
    if key.Some? && program[0].lane.Ctrl? {
      assert Started(up, key.value);
      var m :| m in q.wire && m.FileResp? && m.respId == key.value;
      OfHas(q.wire, m, key);
    }
  }

  lemma OwnPushOneCtrl(key: Key, program: seq<Item>, todo: seq<Item>, q: Queues)
    requires OneCtrl(key, program, todo, q) && todo != [] && InOrder(key, program, todo, q)
    requires key.Some? ==> OneAnswer(program)
    ensures OneCtrl(key, program, todo[1..], Pushed(q, todo[0]))
  {
    OrderlyRest(todo, key);
    PushedOf(q, todo[0], key);
    if key.Some? && todo[0].lane.Ctrl? {
      var i := |program| - |todo|;
      assert program[i] == todo[0];
      assert i == 0 && todo == program;
      var w, c, d := Of(q.wire, key), Of(q.ctrl, key), Of(q.data, key);
      assert |w + c + d + Content(todo)| == |Content(program)|;
    }
  }

  lemma OtherPushOneCtrl(key: Key, program: seq<Item>, todo: seq<Item>, q: Queues, i: Item)
    requires OneCtrl(key, program, todo, q) && StreamOf(i.msg) != key
    ensures OneCtrl(key, program, todo, Pushed(q, i))
  {
    OfConcat(q.ctrl, [i.msg], key);
    OfOne(i.msg, key);
  }

  lemma PollOneCtrl(key: Key, program: seq<Item>, todo: seq<Item>, q: Queues, lane: Lane)
    requires OneCtrl(key, program, todo, q) && InOrder(key, program, todo, q)
    ensures OneCtrl(key, program, todo, Polled(q, lane))
  {
    PolledOf(q, lane, key);
  }

  lemma PushKeepsStreams(programs: Program, lists: seq<seq<MetaItem>>, server: SendQueues.State, key: Key,
                         up: seq<Message>, heard: seq<Message>)
    requires Served(programs, lists) && StreamsOk(programs, server)
    requires key in programs && server.todo[key] != []
    requires ServerMay(programs[key], lists, server.todo[key], heard, key) && heard <= up && StartsOk(up, server.q.wire)
    ensures Enabled(server, Push(key), true) && StreamsOk(programs, Step(server, Push(key)))
  {
    hide Of, Pushed, ServerMay, StartsOk, Known;
    OrderOf(programs, server, key);
    if server.todo[key][0].lane.Bulk? {
      MayMeansAnswered(lists, key, programs[key], server.todo[key], server.q, up, heard);
    }
    StepKeeps(programs, server, Push(key));
    PushKeepsOneCtrl(programs, lists, server, key);
  }

  lemma PushKeepsOneCtrl(programs: Program, lists: seq<seq<MetaItem>>, server: SendQueues.State, key: Key)
    requires Served(programs, lists) && StreamsOk(programs, server) && key in programs && server.todo[key] != []
    ensures Enabled(server, Push(key), false)
    ensures forall k | k in programs ::
              k in Step(server, Push(key)).todo
              && OneCtrl(k, programs[k], Step(server, Push(key)).todo[k], Step(server, Push(key)).q)
  {
    hide Of, Pushed, Known, InOrder, OneAnswer, OneCtrl, Programs;
    var server' := Step(server, Push(key));
    forall k | k in programs ensures OneCtrl(k, programs[k], server'.todo[k], server'.q) {
      OrderOf(programs, server, k);
      if k == key {
        OwnPushOneCtrl(key, programs[key], server.todo[key], server.q);
      } else {
        OrderOf(programs, server, key);
        InOrderOwn(key, programs[key], server.todo[key], server.q);
        OtherPushOneCtrl(k, programs[k], server.todo[k], server.q, server.todo[key][0]);
      }
    }
  }

  lemma LookKeepsStreams(programs: Program, server: SendQueues.State)
    requires StreamsOk(programs, server)
    ensures StreamsOk(programs, Step(server, Look)) && server.q.wire <= Step(server, Look).q.wire
  {
    StepKeeps(programs, server, Look);
    hide Inv, InOrder, Of;
    forall k | k in programs
      ensures OneCtrl(k, programs[k], Step(server, Look).todo[k], Step(server, Look).q)
    {
      OrderOf(programs, server, k);
      PollOneCtrl(k, programs[k], server.todo[k], server.q, if server.atData then Bulk else Ctrl);
    }
  }

  // ------------------------------------------------------------- all steps

  lemma OpeningOk(programs: Program, lists: seq<seq<MetaItem>>)
    requires Served(programs, lists)
    ensures TalkOk(programs, lists, Opening(programs))
  {
    StartOrdered(programs);
    forall key | key in programs ensures Of([], key) == [] {
    }
    assert Dispatch.AnswersNow(lists, []);
  }

  lemma ServerKeeps(programs: Program, lists: seq<seq<MetaItem>>, t: Talk, m: Move)
    requires Served(programs, lists) && TalkOk(programs, lists, t) && Allowed(programs, lists, t, m)
    requires m.ServerPush? || m.ServerLook? || m.ServerRead?
    ensures TalkOk(programs, lists, After(programs, lists, t, m))
  {
    hide StreamsOk, Served, Dispatch.Answers, Dispatch.PagesOf;
    var t' := After(programs, lists, t, m);
    match m {
      case ServerPush(key) =>
        PushKeepsStreams(programs, lists, t.server, key, t.up, t.heard);
        hide StartsOk;
        NonePushed(programs, lists);
        assert t'.server.q.wire == t.server.q.wire;
      case ServerLook =>
        LookKeepsStreams(programs, t.server);
        OfferedGrows(t.up, t.server.q.wire, t'.server.q.wire);
      case ServerRead =>
        hide StartsOk;
        RequestsGrow(t.heard, t'.heard);
        RequestsGrow(t'.heard, t.up);
        Dispatch.PagesOfGrow(lists, Requests(t.heard), Requests(t'.heard));
    }
  }

  lemma NonePushed(programs: Program, lists: seq<seq<MetaItem>>)
    requires Served(programs, lists)
    ensures None in programs
  {
  }

  lemma OfferedGrows(up: seq<Message>, wire: seq<Message>, more: seq<Message>)
    requires StartsOk(up, wire) && wire <= more
    ensures StartsOk(up, more)
  {
    forall id | Started(up, id) ensures Offered(more, id) {
      var m :| m in wire && m.FileResp? && m.respId == id;
      assert m in more;
    }
  }

  /** What is on the wire of the listings are pages that were asked for. */
  lemma WirePages(programs: Program, lists: seq<seq<MetaItem>>, t: Talk, part: seq<Message>)
    requires Served(programs, lists) && TalkOk(programs, lists, t) && part <= t.server.q.wire
    ensures Of(part, None) <= Dispatch.PagesOf(lists, Requests(t.up))
  {
    var program, todo, q, all := programs[None], t.server.todo[None], t.server.q, Dispatch.PagesOf(lists, |lists|);
    OrderOf(programs, t.server, None);
    hide StreamsOk, Served, Dispatch.PagesOf, Dispatch.Answers, StartsOk;
    InOrderMeans(None, program, todo, q);
    assert Content(program) == all;
    assert |Of(q.wire, None) + Of(q.ctrl, None) + Of(q.data, None) + Content(todo)| == |Content(program)|;
    OfPrefix(part, q.wire, None);
    RequestsGrow(t.heard, t.up);
    Dispatch.PagesOfGrow(lists, Requests(t.heard), Requests(t.up));
    Dispatch.PagesOfGrow(lists, Requests(t.up), |lists|);
    BothPrefixes(Of(part, None), Of(q.wire, None), all, Dispatch.PagesOf(lists, Requests(t.up)));
  }

  lemma BothPrefixes<T>(a: seq<T>, b: seq<T>, all: seq<T>, c: seq<T>)
    requires a <= b && b <= all && c <= all && |b| <= |c|
    ensures a <= c
  {
    assert a == b[..|a|] == all[..|a|] == c[..|a|];
  }

  lemma ArriveKeeps(programs: Program, lists: seq<seq<MetaItem>>, t: Talk)
    requires Served(programs, lists) && TalkOk(programs, lists, t) && Allowed(programs, lists, t, ClientArrive)
    ensures TalkOk(programs, lists, After(programs, lists, t, ClientArrive))
  {
    hide StreamsOk, Served, Dispatch.PagesOf, Dispatch.Answers, StartsOk, PagesOk, Requests, Of, Dispatch.Wire,
         Dispatch.Asks;
    var t' := After(programs, lists, t, ClientArrive);
    var e := Dispatch.Arrive(t.server.q.wire[|t.handled|]);
    EventsNext(t.events, e);
    WirePages(programs, lists, t, t'.handled);
    AnswersNext(lists, t.events, e);
  }

  lemma AskKeeps(programs: Program, lists: seq<seq<MetaItem>>, t: Talk, name: bytes)
    requires Served(programs, lists) && TalkOk(programs, lists, t) && Allowed(programs, lists, t, ClientAsk(name))
    ensures TalkOk(programs, lists, After(programs, lists, t, ClientAsk(name)))
  {
    hide StreamsOk, Served, Dispatch.PagesOf, Dispatch.Answers, StartsOk, PagesOk, Requests, Of, Dispatch.Wire,
         Dispatch.Asks;
    var t' := After(programs, lists, t, ClientAsk(name));
    EventsNext(t.events, Dispatch.Ask);
    RequestsNext(t.up, MetaReq(name));
    WirePages(programs, lists, t, t.handled);
    Dispatch.PagesOfGrow(lists, Requests(t.up), Requests(t'.up));
    NothingStarts(t.up, MetaReq(name), t.server.q.wire);
    PrefixTransitive(Of(t.handled, None), Dispatch.PagesOf(lists, Requests(t.up)), Dispatch.PagesOf(lists, Requests(t'.up)));
    assert t.handled + [] == t.handled;
    AnswersNext(lists, t.events, Dispatch.Ask);
  }

  lemma NothingStarts(up: seq<Message>, m: Message, wire: seq<Message>)
    requires StartsOk(up, wire) && (m.StartTransmission? ==> Offered(wire, m.startId))
    ensures StartsOk(up + [m], wire)
  {
    forall id | Started(up + [m], id) ensures Offered(wire, id) {
      var x :| x in up + [m] && x.StartTransmission? && x.startId == id;
      assert x in up ==> Started(up, id);
    }
  }

  lemma ClientSendKeeps(programs: Program, lists: seq<seq<MetaItem>>, t: Talk, m: Move)
    requires Served(programs, lists) && TalkOk(programs, lists, t) && Allowed(programs, lists, t, m)
    requires m.ClientStart? || m.ClientOther?
    ensures TalkOk(programs, lists, After(programs, lists, t, m))
  {
    hide StreamsOk, Served, Dispatch.PagesOf, Dispatch.Answers;
    var x := if m.ClientStart? then StartTransmission(m.id, m.sum, m.offset) else m.m;
    RequestsNext(t.up, x);
    if m.ClientStart? {
      var r :| r in t.handled && r.FileResp? && r.respId == m.id;
      assert r in t.server.q.wire;
    }
    NothingStarts(t.up, x, t.server.q.wire);
    hide StartsOk;
  }

  lemma MoveKeeps(programs: Program, lists: seq<seq<MetaItem>>, t: Talk, m: Move)
    requires Served(programs, lists) && TalkOk(programs, lists, t) && Allowed(programs, lists, t, m)
    ensures TalkOk(programs, lists, After(programs, lists, t, m))
  {
    hide TalkOk, Served, Allowed;
    match m
    case ServerPush(_) => ServerKeeps(programs, lists, t, m);
    case ServerLook => ServerKeeps(programs, lists, t, m);
    case ServerRead => ServerKeeps(programs, lists, t, m);
    case ClientArrive => ArriveKeeps(programs, lists, t);
    case ClientAsk(name) => AskKeeps(programs, lists, t, name);
    case _ => ClientSendKeeps(programs, lists, t, m);
  }

  // --------------------------------------------------------------- results

  /** The steps of the server's queues in a conversation. */
  function Pushes(moves: seq<Move>): seq<SendQueues.Action>
  {
    if moves == [] then []
    else
      (match moves[0]
       case ServerPush(key) => [Push(key)]
       case ServerLook => [Look]
       case _ => [])
      + Pushes(moves[1..])
  }

  lemma {:induction false} QueueRun(programs: Program, lists: seq<seq<MetaItem>>, t: Talk, moves: seq<Move>)
    requires Served(programs, lists) && TalkOk(programs, lists, t) && Talking(programs, lists, t, moves)
    ensures TalkOk(programs, lists, Talked(programs, lists, t, moves))
    ensures Run(t.server, Pushes(moves), true)
    ensures Exec(t.server, Pushes(moves), true) == Talked(programs, lists, t, moves).server
    decreases |moves|
  {
    hide TalkOk, Served, Allowed, Enabled, Step, After, Run, Exec;
    if moves == [] {
      NoSteps(t.server);
    } else {
      var m, rest := moves[0], Pushes(moves[1..]);
      MoveKeeps(programs, lists, t, m);
      MayPush(programs, lists, t, m);
      QueueRun(programs, lists, After(programs, lists, t, m), moves[1..]);
      match m {
        case ServerPush(key) => Cons(t.server, Push(key), rest, true);
        case ServerLook => Cons(t.server, Look, rest, true);
        case _ => assert [] + rest == rest;
      }
    }
  }

  lemma NoSteps(s: SendQueues.State)
    ensures Run(s, [], true) && Exec(s, [], true) == s
  {
  }

  lemma MayPush(programs: Program, lists: seq<seq<MetaItem>>, t: Talk, m: Move)
    requires Served(programs, lists) && TalkOk(programs, lists, t) && Allowed(programs, lists, t, m)
    ensures match m
            case ServerPush(key) =>
              Enabled(t.server, Push(key), true) && After(programs, lists, t, m).server == Step(t.server, Push(key))
            case ServerLook =>
              Enabled(t.server, Look, true) && After(programs, lists, t, m).server == Step(t.server, Look)
            case _ => After(programs, lists, t, m).server == t.server
  {
    hide StreamsOk, Served, StartsOk;
    if m.ServerPush? {
      PushKeepsStreams(programs, lists, t.server, m.key, t.up, t.heard);
    }
  }

  /** In every conversation the streams push to outData only when their FileResp has left: its queues do
      what SendQueues says. */
  lemma StreamsWait(programs: Program, lists: seq<seq<MetaItem>>, moves: seq<Move>)
    requires Served(programs, lists) && Talking(programs, lists, Opening(programs), moves)
    ensures Run(Start(programs), Pushes(moves), true)
    ensures Exec(Start(programs), Pushes(moves), true) == Talked(programs, lists, Opening(programs), moves).server
    ensures var t := Talked(programs, lists, Opening(programs), moves); Dispatch.Wire(t.events) <= t.server.q.wire
  {
    OpeningOk(programs, lists);
    QueueRun(programs, lists, Opening(programs), moves);
    hide StreamsOk, StartsOk;
  }

  lemma TalkAnswers(programs: Program, lists: seq<seq<MetaItem>>, moves: seq<Move>)
    requires Served(programs, lists) && Talking(programs, lists, Opening(programs), moves)
    ensures var es := Talked(programs, lists, Opening(programs), moves).events;
            Dispatch.Answers(lists, es) && Dispatch.AllFromServer(es)
  {
    OpeningOk(programs, lists);
    QueueRun(programs, lists, Opening(programs), moves);
    StreamsWait(programs, lists, moves);
    var t := Talked(programs, lists, Opening(programs), moves);
    assert Dispatch.Answers(lists, t.events);
    hide Talking, Talked, TalkOk, Run, Exec, Dispatch.Answers;
    FromServerEvents(programs, lists, moves, t.server.q.wire);
    Dispatch.EventsOfWire(t.events, t.server.q.wire);
  }

  /** In no conversation the client's loop blocks or closes the connection. */
  lemma NeverBlocked(programs: Program, lists: seq<seq<MetaItem>>, moves: seq<Move>, streams: map<StreamID, seq<Message>>)
    requires Served(programs, lists) && Talking(programs, lists, Opening(programs), moves)
    ensures var s := Dispatch.Run(Dispatch.Fresh(streams), Talked(programs, lists, Opening(programs), moves).events);
            !s.blocked && !s.locked && !s.closed
  {
    TalkAnswers(programs, lists, moves);
    var es := Talked(programs, lists, Opening(programs), moves).events;
    hide Talking, Talked, Dispatch.Answers, Dispatch.AllFromServer, Dispatch.Run;
    var head := Dispatch.ListingsRun(lists, streams, es);
  }

  /** In every conversation the server answers listings in the order in which they were asked for: each
      gets exactly its own pages, its loop ends if and only if it has them all, and they join to the
      items that the server listed. */
  lemma ListingsAnswered(programs: Program, lists: seq<seq<MetaItem>>, moves: seq<Move>,
                         streams: map<StreamID, seq<Message>>, i: nat)
    requires Served(programs, lists) && Talking(programs, lists, Opening(programs), moves)
    requires i < Dispatch.Asks(Talked(programs, lists, Opening(programs), moves).events)
    ensures var es := Talked(programs, lists, Opening(programs), moves).events;
            var s := Dispatch.Run(Dispatch.Fresh(streams), es);
            && !s.blocked && !s.closed && |s.channels| == Dispatch.Asks(es) <= |lists|
            && s.channels[i] <= MetaPaging.Pages(lists[i])
            && (MetaPaging.Collected(s.channels[i]).Some? <==> s.channels[i] == MetaPaging.Pages(lists[i]))
            && (MetaPaging.Collected(s.channels[i]).Some? ==>
                  MetaPaging.Joined(MetaPaging.Collected(s.channels[i]).value) == lists[i])
  {
    TalkAnswers(programs, lists, moves);
    var es := Talked(programs, lists, Opening(programs), moves).events;
    hide Talking, Talked, Dispatch.Answers, Dispatch.AllFromServer;
    Dispatch.ListingsGetTheirs(lists, streams, es, i);
  }

  lemma FromServerEvents(programs: Program, lists: seq<seq<MetaItem>>, moves: seq<Move>, wire: seq<Message>)
    requires Served(programs, lists) && Run(Start(programs), Pushes(moves), true)
    requires wire == Exec(Start(programs), Pushes(moves), true).q.wire
    ensures forall i | 0 <= i < |wire| :: Dispatch.FromServer(wire[i])
  {
    hide Run, Exec, Dispatch.FromServer;
    forall i | 0 <= i < |wire| ensures Dispatch.FromServer(wire[i]) {
      WireFromPrograms(programs, Pushes(moves), wire[i]);
    }
  }

  // ------------------------------------------------- nothing has to be left out

  lemma {:induction false} Join(programs: Program, lists: seq<seq<MetaItem>>, t: Talk, a: seq<Move>, b: seq<Move>)
    requires Talking(programs, lists, t, a) && Talking(programs, lists, Talked(programs, lists, t, a), b)
    ensures Talking(programs, lists, t, a + b)
    ensures Talked(programs, lists, t, a + b) == Talked(programs, lists, Talked(programs, lists, t, a), b)
    decreases |a|
  {
    hide Allowed, After;
    if a == [] {
      assert a + b == b;
    } else {
      Join(programs, lists, After(programs, lists, t, a[0]), a[1..], b);
      assert (a + b)[1..] == a[1..] + b && (a + b)[0] == a[0];
    }
  }

  lemma OneMove(programs: Program, lists: seq<seq<MetaItem>>, t: Talk, m: Move, more: seq<Move>)
    requires Allowed(programs, lists, t, m) && Talking(programs, lists, After(programs, lists, t, m), more)
    ensures Talking(programs, lists, t, [m] + more)
    ensures Talked(programs, lists, t, [m] + more) == Talked(programs, lists, After(programs, lists, t, m), more)
  {
    hide Allowed, After;
    assert ([m] + more)[1..] == more;
  }

  lemma NoMove(programs: Program, lists: seq<seq<MetaItem>>, t: Talk)
    ensures Talking(programs, lists, t, []) && Talked(programs, lists, t, []) == t
  {
  }

  lemma TalkedKeeps(programs: Program, lists: seq<seq<MetaItem>>, t: Talk, moves: seq<Move>)
    requires Served(programs, lists) && TalkOk(programs, lists, t) && Talking(programs, lists, t, moves)
    ensures TalkOk(programs, lists, Talked(programs, lists, t, moves))
  {
    hide Served, TalkOk, Talking, Talked, Run, Exec;
    QueueRun(programs, lists, t, moves);
  }

  predicate Useless(s: SendQueues.State)
  {
    if s.atData then s.q.data == [] else s.q.ctrl == []
  }

  /** The sending loop empties both queues. */
  lemma {:induction false} SayAll(programs: Program, lists: seq<seq<MetaItem>>, t: Talk) returns (moves: seq<Move>)
    ensures Talking(programs, lists, t, moves)
    ensures var u := Talked(programs, lists, t, moves);
            && u == t.(server := u.server) && u.server.todo == t.server.todo
            && u.server.q.ctrl == [] && u.server.q.data == []
    decreases |t.server.q.ctrl| + |t.server.q.data|, Useless(t.server)
  {
    if t.server.q.ctrl == [] && t.server.q.data == [] {
      moves := [];
    } else {
      var more := SayAll(programs, lists, After(programs, lists, t, ServerLook));
      OneMove(programs, lists, t, ServerLook, more);
      moves := [ServerLook] + more;
    }
  }

  lemma {:induction false} HandleAll(programs: Program, lists: seq<seq<MetaItem>>, t: Talk) returns (moves: seq<Move>)
    requires t.handled <= t.server.q.wire
    ensures Talking(programs, lists, t, moves)
    ensures var u := Talked(programs, lists, t, moves);
            u == t.(handled := t.server.q.wire, events := u.events)
    decreases |t.server.q.wire| - |t.handled|
  {
    if t.handled == t.server.q.wire {
      moves := [];
    } else {
      var more := HandleAll(programs, lists, After(programs, lists, t, ClientArrive));
      OneMove(programs, lists, t, ClientArrive, more);
      moves := [ClientArrive] + more;
    }
  }

  lemma {:induction false} AskAll(programs: Program, lists: seq<seq<MetaItem>>, t: Talk) returns (moves: seq<Move>)
    requires Requests(t.up) <= |lists|
    ensures Talking(programs, lists, t, moves)
    ensures var u := Talked(programs, lists, t, moves);
            u == t.(up := u.up, events := u.events) && t.up <= u.up && Requests(u.up) == |lists|
    decreases |lists| - Requests(t.up)
  {
    if Requests(t.up) == |lists| {
      moves := [];
    } else {
      RequestsNext(t.up, MetaReq([]));
      var u := After(programs, lists, t, ClientAsk([]));
      hide Requests;
      assert t.up <= u.up;
      var more := AskAll(programs, lists, u);
      OneMove(programs, lists, t, ClientAsk([]), more);
      moves := [ClientAsk([])] + more;
    }
  }

  lemma {:induction false} HearAll(programs: Program, lists: seq<seq<MetaItem>>, t: Talk) returns (moves: seq<Move>)
    requires t.heard <= t.up
    ensures Talking(programs, lists, t, moves)
    ensures Talked(programs, lists, t, moves) == t.(heard := t.up)
    decreases |t.up| - |t.heard|
  {
    if t.heard == t.up {
      moves := [];
    } else {
      var more := HearAll(programs, lists, After(programs, lists, t, ServerRead));
      OneMove(programs, lists, t, ServerRead, more);
      moves := [ServerRead] + more;
    }
  }

  /** Nothing is under way in either direction, and all listings were asked for. */
  ghost predicate Quiet(lists: seq<seq<MetaItem>>, t: Talk)
  {
    && t.server.q.ctrl == [] && t.server.q.data == [] && t.handled == t.server.q.wire
    && t.heard == t.up && Requests(t.up) == |lists|
  }

  lemma Settle(programs: Program, lists: seq<seq<MetaItem>>, t: Talk) returns (moves: seq<Move>)
    requires Served(programs, lists) && TalkOk(programs, lists, t)
    ensures Talking(programs, lists, t, moves)
    ensures var u := Talked(programs, lists, t, moves);
            TalkOk(programs, lists, u) && Quiet(lists, u) && u.server.todo == t.server.todo
  {
    UpToNow(programs, lists, t);
    hide Served, Allowed, After, Talking, Talked, TalkOk, Requests;
    var say := SayAll(programs, lists, t);
    var t1 := Talked(programs, lists, t, say);
    TalkedKeeps(programs, lists, t, say);
    UpToNow(programs, lists, t1);
    var handle := HandleAll(programs, lists, t1);
    var t2 := Talked(programs, lists, t1, handle);
    var ask := AskAll(programs, lists, t2);
    var t3 := Talked(programs, lists, t2, ask);
    PrefixTransitive(t2.heard, t2.up, t3.up);
    var hear := HearAll(programs, lists, t3);
    Join(programs, lists, t, say, handle);
    Join(programs, lists, t, say + handle, ask);
    Join(programs, lists, t, say + handle + ask, hear);
    moves := say + handle + ask + hear;
    TalkedKeeps(programs, lists, t, moves);
  }

  lemma UpToNow(programs: Program, lists: seq<seq<MetaItem>>, t: Talk)
    requires TalkOk(programs, lists, t)
    ensures t.heard <= t.up && t.handled <= t.server.q.wire && Requests(t.up) <= |lists|
    ensures t.server.todo.Keys == programs.Keys
  {
  }

  /** A stream that has its file still to send has made its offer. */
  lemma OfferMade(programs: Program, lists: seq<seq<MetaItem>>, t: Talk, id: StreamID)
    requires Served(programs, lists) && TalkOk(programs, lists, t) && Quiet(lists, t)
    requires Some(id) in programs && Some(id) in t.server.todo
    requires var (program, todo) := (programs[Some(id)], t.server.todo[Some(id)]);
             program != [] && program[0].lane.Ctrl? && todo != [] && todo[0].lane.Bulk?
    ensures Offered(t.handled, id)
  {
    var key: Key, q := Some(id), t.server.q;
    var program, todo := programs[key], t.server.todo[key];
    assert InOrder(key, program, todo, q) && OneCtrl(key, program, todo, q) && OneAnswer(program);
    OfNone(key);
    assert |todo| < |program|;
    var mine := Of(q.wire, key);
    hide Of;
    assert mine + Content(todo) == Content(program);
    assert |mine| > 0 && mine[0] == Content(program)[0] == program[0].msg;
    OfIn(q.wire, mine[0], key);
  }

  lemma {:induction false} OfIn(ms: seq<Message>, m: Message, key: Key)
    requires m in Of(ms, key)
    ensures m in ms && StreamOf(m) == key
  {
    if StreamOf(ms[0]) != key || m != ms[0] {
      OfIn(ms[1..], m, key);
    }
  }

  /** Whatever a program has to push next, the other side can make that possible. */
  lemma PushNext(programs: Program, lists: seq<seq<MetaItem>>, t: Talk, key: Key) returns (moves: seq<Move>)
    requires Served(programs, lists) && TalkOk(programs, lists, t)
    requires key in programs && key in t.server.todo && t.server.todo[key] != []
    ensures Talking(programs, lists, t, moves)
    ensures var u := Talked(programs, lists, t, moves);
            TalkOk(programs, lists, u) && u.server.todo == t.server.todo[key := t.server.todo[key][1..]]
  {
    var settle := Settle(programs, lists, t);
    var t1 := Talked(programs, lists, t, settle);
    var todo := t1.server.todo[key];
    hide Served, Talking, Talked, TalkOk, Requests, Quiet;
    if ServerMay(programs[key], lists, todo, t1.heard, key) {
      var push := PushNow(programs, lists, t1, key);
      Join(programs, lists, t, settle, push);
      moves := settle + push;
    } else {
      MustBeStarted(programs, lists, t1, key);
      OfferMade(programs, lists, t1, key.value);
      var start := StartIt(programs, lists, t1, key.value);
      var t2 := Talked(programs, lists, t1, start);
      var push := PushNow(programs, lists, t2, key);
      Join(programs, lists, t, settle, start);
      Join(programs, lists, t, settle + start, push);
      moves := settle + start + push;
    }
    TalkedKeeps(programs, lists, t, moves);
  }

  lemma MustBeStarted(programs: Program, lists: seq<seq<MetaItem>>, t: Talk, key: Key)
    requires Served(programs, lists) && TalkOk(programs, lists, t) && Quiet(lists, t)
    requires key in programs && key in t.server.todo && t.server.todo[key] != []
    requires !ServerMay(programs[key], lists, t.server.todo[key], t.heard, key)
    ensures key.Some?
    ensures var (program, todo) := (programs[key], t.server.todo[key]);
            program != [] && program[0].lane.Ctrl? && todo != [] && todo[0].lane.Bulk?
  {
  }

  lemma PushNow(programs: Program, lists: seq<seq<MetaItem>>, t: Talk, key: Key) returns (moves: seq<Move>)
    requires key in programs && key in t.server.todo && t.server.todo[key] != []
    requires ServerMay(programs[key], lists, t.server.todo[key], t.heard, key)
    ensures Talking(programs, lists, t, moves)
    ensures Talked(programs, lists, t, moves).server.todo == t.server.todo[key := t.server.todo[key][1..]]
  {
    var u := After(programs, lists, t, ServerPush(key));
    NoMove(programs, lists, u);
    OneMove(programs, lists, t, ServerPush(key), []);
    moves := [ServerPush(key)] + [];
  }

  lemma StartIt(programs: Program, lists: seq<seq<MetaItem>>, t: Talk, id: StreamID) returns (moves: seq<Move>)
    requires Offered(t.handled, id) && t.heard <= t.up
    ensures Talking(programs, lists, t, moves)
    ensures var u := Talked(programs, lists, t, moves); u.server == t.server && Started(u.heard, id)
  {
    var m := StartTransmission(id, [], 0);
    var t1 := After(programs, lists, t, ClientStart(id, [], 0));
    assert t1.up == t.up + [m] && m in t1.up;
    PrefixTransitive(t1.heard, t.up, t1.up);
    var hear := HearAll(programs, lists, t1);
    OneMove(programs, lists, t, ClientStart(id, [], 0), hear);
    moves := [ClientStart(id, [], 0)] + hear;
  }

  lemma {:induction false} FinishOne(programs: Program, lists: seq<seq<MetaItem>>, t: Talk, key: Key)
    returns (moves: seq<Move>)
    requires Served(programs, lists) && TalkOk(programs, lists, t)
    requires key in programs && key in t.server.todo
    ensures Talking(programs, lists, t, moves)
    ensures var u := Talked(programs, lists, t, moves);
            TalkOk(programs, lists, u) && u.server.todo == t.server.todo[key := []]
    decreases |t.server.todo[key]|
  {
    hide Served, Talking, Talked, TalkOk;
    if t.server.todo[key] == [] {
      moves := [];
      NoMove(programs, lists, t);
      assert t.server.todo[key := []] == t.server.todo;
    } else {
      var first := PushNext(programs, lists, t, key);
      var more := FinishOne(programs, lists, Talked(programs, lists, t, first), key);
      Join(programs, lists, t, first, more);
      moves := first + more;
    }
  }

  lemma {:induction false} FinishAll(programs: Program, lists: seq<seq<MetaItem>>, t: Talk, keys: set<Key>)
    returns (moves: seq<Move>)
    requires Served(programs, lists) && TalkOk(programs, lists, t)
    requires keys <= programs.Keys && forall key | key in t.server.todo && key !in keys :: t.server.todo[key] == []
    ensures Talking(programs, lists, t, moves)
    ensures var u := Talked(programs, lists, t, moves);
            TalkOk(programs, lists, u) && forall key | key in u.server.todo :: u.server.todo[key] == []
    decreases |keys|
  {
    hide Served, Talking, Talked, TalkOk;
    UpToNow(programs, lists, t);
    if keys == {} {
      moves := [];
      NoMove(programs, lists, t);
    } else {
      var key :| key in keys;
      var first := FinishOne(programs, lists, t, key);
      var more := FinishAll(programs, lists, Talked(programs, lists, t, first), keys - {key});
      Join(programs, lists, t, first, more);
      moves := first + more;
    }
  }

  /** Every conversation can be brought to an end: whatever has been said so far, there is a continuation
      after which all listings were asked for, and the client has handled all that every stream and every
      listing had to send. */
  lemma EverythingCanBeSaid(programs: Program, lists: seq<seq<MetaItem>>, moves: seq<Move>) returns (more: seq<Move>)
    requires Served(programs, lists) && Talking(programs, lists, Opening(programs), moves)
    ensures var t := Talked(programs, lists, Opening(programs), moves);
            && Talking(programs, lists, t, more)
            && var u := Talked(programs, lists, t, more);
               && Requests(u.heard) == |lists|
               && forall key | key in programs :: Of(u.handled, key) == Content(programs[key])
  {
    OpeningOk(programs, lists);
    TalkedKeeps(programs, lists, Opening(programs), moves);
    var t := Talked(programs, lists, Opening(programs), moves);
    UpToNow(programs, lists, t);
    hide Served, Talking, Talked, TalkOk, Of, Content, Requests;
    var finish := FinishAll(programs, lists, t, programs.Keys);
    var t1 := Talked(programs, lists, t, finish);
    UpToNow(programs, lists, t1);
    var settle := Settle(programs, lists, t1);
    Join(programs, lists, t, finish, settle);
    more := finish + settle;
    var u := Talked(programs, lists, t, more);
    forall key | key in programs ensures Of(u.handled, key) == Content(programs[key]) {
      AllSaid(programs, lists, u, key);
    }
  }

  lemma AllSaid(programs: Program, lists: seq<seq<MetaItem>>, t: Talk, key: Key)
    requires TalkOk(programs, lists, t) && Quiet(lists, t)
    requires key in programs && key in t.server.todo && t.server.todo[key] == []
    ensures Of(t.handled, key) == Content(programs[key])
  {
    OrderOf(programs, t.server, key);
    InOrderMeans(key, programs[key], t.server.todo[key], t.server.q);
  }
}
