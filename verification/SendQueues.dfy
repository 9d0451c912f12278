/** The two queues of a connection (brft/conn.go): every stream pushes its messages, and one loop
    writes them to the wire, the control queue first. */
module SendQueues {
  import opened Prelude
  import opened Messages
  import opened ChunkLoop

  /** The queue outCtrl or the queue outData. */
  datatype Lane = Ctrl | Bulk

  datatype Item = Item(lane: Lane, msg: Message)

  datatype Queues = Queues(ctrl: seq<Message>, data: seq<Message>, wire: seq<Message>)

  function Pushed(q: Queues, i: Item): Queues
  {
    if i.lane.Ctrl? then q.(ctrl := q.ctrl + [i.msg]) else q.(data := q.data + [i.msg])
  }

  /** One non-blocking look at a queue: its first message goes to the wire. */
  function Polled(q: Queues, lane: Lane): Queues
  {
    if lane.Ctrl? then
      if q.ctrl == [] then q else q.(ctrl := q.ctrl[1..], wire := q.wire + [q.ctrl[0]])
    else
      if q.data == [] then q else q.(data := q.data[1..], wire := q.wire + [q.data[0]])
  }

  class Sender {
    var outCtrl: seq<Message>
    var outData: seq<Message>
    var wire: seq<Message>

    ghost function State(): Queues
      reads this
    {
      Queues(outCtrl, outData, wire)
    }

    method Push(i: Item)
      modifies this
      ensures State() == Pushed(old(State()), i)
      ensures outCtrl == old(outCtrl) + (if i.lane.Ctrl? then [i.msg] else [])
      ensures outData == old(outData) + (if i.lane.Bulk? then [i.msg] else []) && wire == old(wire)
    {
      if i.lane.Ctrl? {
        outCtrl := outCtrl + [i.msg];
      } else {
        outData := outData + [i.msg];
      }
    }

    method Poll(lane: Lane) returns (sent: bool)
      modifies this
      ensures State() == Polled(old(State()), lane)
      ensures sent == (if lane.Ctrl? then old(outCtrl) != [] else old(outData) != [])
    {
      sent := false;
      if lane.Ctrl? && outCtrl != [] {
        wire, outCtrl, sent := wire + [outCtrl[0]], outCtrl[1..], true;
      } else if lane.Bulk? && outData != [] {
        wire, outData, sent := wire + [outData[0]], outData[1..], true;
      }
    }

    /** The sending loop until it is told to stop: before its i-th look at a queue, other goroutines have
        pushed `others[i]`. A control message sends it back to the control queue. */
    method SendMessages(others: seq<seq<Item>>) returns (atData: bool)
      modifies this
      ensures (State(), atData) == Looks(old(State()), false, others)
    {
      atData := false;
      var i := 0;
      assert others[0..] == others;
      while i < |others|
        invariant 0 <= i <= |others|
        invariant Looks(State(), atData, others[i..]) == Looks(old(State()), false, others)
      {
        assert others[i..][0] == others[i] && others[i..][1..] == others[i + 1..];
        PushAll(others[i]);
        if atData {
          var sent := Poll(Bulk);
          atData := false;
        } else {
          var sent := Poll(Ctrl);
          atData := !sent;
        }
        i := i + 1;
      }
    }

    method PushAll(items: seq<Item>)
      modifies this
      ensures State() == PushedAll(old(State()), items)
    {
      var i := 0;
      assert items[0..] == items;
      while i < |items|
        invariant 0 <= i <= |items|
        invariant PushedAll(State(), items[i..]) == PushedAll(old(State()), items)
      {
        assert items[i..][0] == items[i] && items[i..][1..] == items[i + 1..];
        Push(items[i]);
        i := i + 1;
      }
    }
  }

  function PushedAll(q: Queues, items: seq<Item>): Queues
    decreases |items|
  {
    if items == [] then q else PushedAll(Pushed(q, items[0]), items[1..])
  }

  /** The queues, and which of them the loop looks at next, after a look for each element. */
  function Looks(q: Queues, atData: bool, others: seq<seq<Item>>): (Queues, bool)
    decreases |others|
  {
    if others == [] then (q, atData)
    else
      var q1 := PushedAll(q, others[0]);
      if atData then Looks(Polled(q1, Bulk), false, others[1..])
      else Looks(Polled(q1, Ctrl), q1.ctrl == [], others[1..])
  }

  /** When nobody pushes, the loop empties both queues, all control messages before any other. */
  lemma {:induction false} Drains(q: Queues, atData: bool, others: seq<seq<Item>>)
    requires forall i | 0 <= i < |others| :: others[i] == []
    requires atData ==> q.ctrl == []
    requires |others| >= |q.ctrl| + 2 * |q.data| - if atData && q.data != [] then 1 else 0
    ensures Looks(q, atData, others).0 == Queues([], [], q.wire + q.ctrl + q.data)
    decreases |others|
  {
    if others == [] {
      assert q.wire + [] + [] == q.wire;
    } else {
      assert PushedAll(q, others[0]) == q;
      var q1 := Polled(q, if atData then Bulk else Ctrl);
      Drains(q1, !atData && q.ctrl == [], others[1..]);
      assert q1.wire + q1.ctrl + q1.data == q.wire + q.ctrl + q.data;
    }
  }

  lemma {:induction false} PushedAllGrows(q: Queues, items: seq<Item>)
    ensures var t := PushedAll(q, items);
            t.wire == q.wire && q.ctrl <= t.ctrl && q.data <= t.data
    decreases |items|
  {
    if items == [] {
    } else {
      PushedAllGrows(Pushed(q, items[0]), items[1..]);
      assert q.ctrl <= Pushed(q, items[0]).ctrl && q.data <= Pushed(q, items[0]).data;
    }
  }

  lemma {:induction false} LooksGrow(q: Queues, atData: bool, others: seq<seq<Item>>)
    ensures q.wire <= Looks(q, atData, others).0.wire
    decreases |others|
  {
    if others == [] {
    } else {
      var q1 := PushedAll(q, others[0]);
      PushedAllGrows(q, others[0]);
      var q2 := Polled(q1, if atData then Bulk else Ctrl);
      assert q1.wire <= q2.wire;
      LooksGrow(q2, !atData && q1.ctrl == [], others[1..]);
      PrefixTransitive(q.wire, q2.wire, Looks(q, atData, others).0.wire);
    }
  }

  lemma {:induction false} LooksJoin(q: Queues, atData: bool, a: seq<seq<Item>>, b: seq<seq<Item>>)
    ensures var (q1, turn) := Looks(q, atData, a);
            Looks(q, atData, a + b) == Looks(q1, turn, b)
    decreases |a|
  {
    if a == [] {
      assert a + b == b;
    } else {
      var q1 := PushedAll(q, a[0]);
      assert (a + b)[0] == a[0] && (a + b)[1..] == a[1..] + b;
      LooksJoin(Polled(q1, if atData then Bulk else Ctrl), !atData && q1.ctrl == [], a[1..], b);
    }
  }

  /** After a look at outData the loop looks at outCtrl, and it goes on with outData only after it found
      outCtrl empty. */
  lemma LooksTurn(q: Queues, atData: bool, others: seq<seq<Item>>, pushed: seq<Item>)
    ensures var (q1, turn) := Looks(q, atData, others);
            Looks(q, atData, others + [pushed]).1 <==> !turn && PushedAll(q1, pushed).ctrl == []
  {
    LooksJoin(q, atData, others, [pushed]);
    assert [pushed][1..] == [];
  }

  /** While the loop looks at outCtrl, the control messages that wait there leave next, whatever is
      pushed meanwhile. */
  lemma {:induction false} ControlNext(q: Queues, waiting: seq<Message>, others: seq<seq<Item>>)
    requires waiting <= q.ctrl && |others| >= |waiting|
    ensures q.wire + waiting <= Looks(q, false, others).0.wire
    decreases |others|
  {
    if waiting == [] {
      assert q.wire + [] == q.wire;
      LooksGrow(q, false, others);
    } else {
      var q1 := PushedAll(q, others[0]);
      PushedAllGrows(q, others[0]);
      var q2 := Polled(q1, Ctrl);
      assert q1.ctrl[0] == waiting[0] && q2.wire == q.wire + [waiting[0]];
      assert waiting[1..] <= q2.ctrl;
      ControlNext(q2, waiting[1..], others[1..]);
      assert (q.wire + [waiting[0]]) + waiting[1..] == q.wire + waiting;
    }
  }

  /** Of the messages on outData at most one leaves before all control messages that wait now, whatever is
      pushed meanwhile: the one that the loop is looking at. */
  lemma ControlFirst(q: Queues, atData: bool, others: seq<seq<Item>>) returns (before: seq<Message>)
    requires |others| > |q.ctrl|
    ensures |before| <= 1 && (before != [] ==> atData)
    ensures q.wire + before + q.ctrl <= Looks(q, atData, others).0.wire
  {
    before := [];
    assert q.wire + [] == q.wire;
    if atData {
      var q1 := PushedAll(q, others[0]);
      PushedAllGrows(q, others[0]);
      before := if q1.data == [] then [] else [q1.data[0]];
      var q2 := Polled(q1, Bulk);
      assert q2.wire == q.wire + before && q2.ctrl == q1.ctrl;
      ControlNext(q2, q.ctrl, others[1..]);
    } else {
      ControlNext(q, q.ctrl, others);
    }
  }

  // ------------------------------------- all streams and the loop at once

  /** The stream a message belongs to; None for the answers of the connection itself. */
  function StreamOf(m: Message): Option<StreamID>
  {
    match m
    case FileReq(id, _, _, _, _) => Some(id)
    case FileResp(_, _, id, _, _) => Some(id)
    case Data(id, _) => Some(id)
    case StartTransmission(id, _, _) => Some(id)
    case Close(id, _) => Some(id)
    case MetaReq(_) => None
    case MetaResp(_, _) => None
  }

  type Key = Option<StreamID>

  /** The messages of one stream. */
  function Of(ms: seq<Message>, key: Key): seq<Message>
  {
    if ms == [] then []
    else if StreamOf(ms[0]) == key then [ms[0]] + Of(ms[1..], key)
    else Of(ms[1..], key)
  }

  lemma {:induction false} OfConcat(a: seq<Message>, b: seq<Message>, key: Key)
    ensures Of(a + b, key) == Of(a, key) + Of(b, key)
  {
    if a == [] {
      assert a + b == b;
    } else {
      OfConcat(a[1..], b, key);
      assert (a + b)[1..] == a[1..] + b;
    }
  }

  lemma OfPrefix(a: seq<Message>, b: seq<Message>, key: Key)
    requires a <= b
    ensures Of(a, key) <= Of(b, key)
  {
    assert b == a + b[|a|..];
    OfConcat(a, b[|a|..], key);
  }

  lemma OfOne(m: Message, key: Key)
    ensures Of([m], key) == if StreamOf(m) == key then [m] else []
  {
    assert [m][1..] == [];
  }

  lemma OfSplit(ms: seq<Message>, key: Key)
    requires ms != []
    ensures Of(ms, key) == Of([ms[0]], key) + Of(ms[1..], key)
  {
    assert ms == [ms[0]] + ms[1..];
    OfConcat([ms[0]], ms[1..], key);
  }

  function Content(items: seq<Item>): (r: seq<Message>)
    ensures |r| == |items|
  {
    seq(|items|, i requires 0 <= i < |items| => items[i].msg)
  }

  /** What each stream still has to push, the queues, and whether the loop looks at outData next. */
  datatype State = State(todo: map<Key, seq<Item>>, q: Queues, atData: bool)

  /** A stream pushes its next message, or the loop looks at the queue whose turn it is. */
  datatype Action = Push(key: Key) | Look

  /** A stream starts on outData only when its control messages are on the wire: the server sends no
      data before it was asked to with a StartTransmission, and this answers the FileResp. */
  ghost predicate Answered(s: State, key: Key)
  {
    Of(s.q.ctrl, key) == []
  }

  ghost predicate Enabled(s: State, a: Action, waits: bool)
  {
    match a
    case Push(key) =>
      && key in s.todo && s.todo[key] != []
      && (waits && s.todo[key][0].lane.Bulk? ==> Answered(s, key))
    case Look => true
  }

  ghost function Step(s: State, a: Action): State
    requires Enabled(s, a, false)
  {
    match a
    case Push(key) =>
      s.(q := Pushed(s.q, s.todo[key][0]), todo := s.todo[key := s.todo[key][1..]])
    case Look =>
      if s.atData then s.(q := Polled(s.q, Bulk), atData := false)
      else s.(q := Polled(s.q, Ctrl), atData := s.q.ctrl == [])
  }

  ghost predicate Run(s: State, acts: seq<Action>, waits: bool)
    decreases |acts|
  {
    acts == [] || (Enabled(s, acts[0], waits) && Run(Step(s, acts[0]), acts[1..], waits))
  }

  ghost function Exec(s: State, acts: seq<Action>, waits: bool): State
    requires Run(s, acts, waits)
    decreases |acts|
  {
    if acts == [] then s else Exec(Step(s, acts[0]), acts[1..], waits)
  }

  /** Every message belongs to its stream, and control messages come first. */
  ghost predicate Orderly(items: seq<Item>, key: Key)
  {
    && (forall i | 0 <= i < |items| :: StreamOf(items[i].msg) == key)
    && (forall i, j | 0 <= i <= j < |items| && items[i].lane.Bulk? :: items[j].lane.Bulk?)
  }

  ghost predicate Programs(programs: map<Key, seq<Item>>)
  {
    forall key | key in programs :: Orderly(programs[key], key)
  }

  function Start(programs: map<Key, seq<Item>>): State
  {
    State(programs, Queues([], [], []), false)
  }

  /** A stream's messages are on the wire, in a queue or still to be pushed, in this order. */
  ghost predicate InOrder(key: Key, program: seq<Item>, todo: seq<Item>, q: Queues)
  {
    && Of(q.wire, key) + Of(q.ctrl, key) + Of(q.data, key) + Content(todo) == Content(program)
    && Orderly(todo, key)
    && (Of(q.data, key) != [] ==> Of(q.ctrl, key) == [] && forall i | 0 <= i < |todo| :: todo[i].lane.Bulk?)
  }

  /** Nobody but the streams pushes. */
  ghost predicate Known(keys: set<Key>, q: Queues)
  {
    forall m | m in q.wire || m in q.ctrl || m in q.data :: StreamOf(m) in keys
  }

  ghost predicate Inv(programs: map<Key, seq<Item>>, s: State)
  {
    && s.todo.Keys == programs.Keys && Known(programs.Keys, s.q)
    && forall key | key in programs :: InOrder(key, programs[key], s.todo[key], s.q)
  }

  lemma PushKeeps(key: Key, program: seq<Item>, todo: seq<Item>, q: Queues)
    requires InOrder(key, program, todo, q) && todo != []
    requires todo[0].lane.Bulk? ==> Of(q.ctrl, key) == []
    ensures InOrder(key, program, todo[1..], Pushed(q, todo[0]))
  {
    var i, rest := todo[0], todo[1..];
    OrderlyRest(todo, key);
    PushedOf(q, i, key);
    assert Content(todo) == [i.msg] + Content(rest);
    assert i.lane.Bulk? ==> forall j | 0 <= j < |rest| :: rest[j].lane.Bulk?;
    assert Of(q.data, key) != [] ==> i.lane.Bulk? && forall j | 0 <= j < |rest| :: rest[j].lane.Bulk?;
    hide Of, Content, Orderly, Pushed;
    Shift(Of(q.wire, key), Of(q.ctrl, key), Of(q.data, key), i.msg, Content(rest));
  }

  lemma OrderlyRest(todo: seq<Item>, key: Key)
    requires Orderly(todo, key) && todo != []
    ensures Orderly(todo[1..], key) && StreamOf(todo[0].msg) == key
    ensures todo[0].lane.Bulk? ==> forall j | 0 <= j < |todo[1..]| :: todo[1..][j].lane.Bulk?
  {
  }

  /** What a push of one's own message does to one's messages in the queues. */
  lemma PushedOf(q: Queues, i: Item, key: Key)
    requires StreamOf(i.msg) == key
    ensures var q' := Pushed(q, i);
            && Of(q'.wire, key) == Of(q.wire, key)
            && Of(q'.ctrl, key) == Of(q.ctrl, key) + (if i.lane.Ctrl? then [i.msg] else [])
            && Of(q'.data, key) == Of(q.data, key) + (if i.lane.Ctrl? then [] else [i.msg])
  {
    OfConcat(q.ctrl, [i.msg], key);
    OfConcat(q.data, [i.msg], key);
    OfOne(i.msg, key);
  }

  lemma Shift(w: seq<Message>, c: seq<Message>, d: seq<Message>, m: Message, rest: seq<Message>)
    ensures w + c + d + ([m] + rest) == w + c + (d + [m]) + rest
    ensures d == [] ==> w + c + d + ([m] + rest) == w + (c + [m]) + d + rest
  {
  }

  lemma OtherPushKeeps(key: Key, program: seq<Item>, todo: seq<Item>, q: Queues, i: Item)
    requires InOrder(key, program, todo, q) && StreamOf(i.msg) != key
    ensures InOrder(key, program, todo, Pushed(q, i))
  {
    OfConcat(q.ctrl, [i.msg], key);
    OfConcat(q.data, [i.msg], key);
    OfOne(i.msg, key);
  }

  lemma PollKeeps(key: Key, program: seq<Item>, todo: seq<Item>, q: Queues, lane: Lane)
    requires InOrder(key, program, todo, q)
    ensures InOrder(key, program, todo, Polled(q, lane))
  {
    PolledOf(q, lane, key);
    var w, c, d := Of(q.wire, key), Of(q.ctrl, key), Of(q.data, key);
    var q' := Polled(q, lane);
    hide Of, Content, Polled, Orderly;
    var e :| Of(q'.wire, key) == w + e && (if lane.Ctrl? then c == e + Of(q'.ctrl, key) else d == e + Of(q'.data, key));
    if lane.Ctrl? {
      assert w + (e + Of(q'.ctrl, key)) + d == (w + e) + Of(q'.ctrl, key) + d;
    } else {
      assert e != [] ==> c == [];
      assert w + c + (e + Of(q'.data, key)) == (w + e) + c + Of(q'.data, key);
    }
  }

  /** What a look does to the messages of one stream: the first of them may move to the wire. */
  lemma PolledOf(q: Queues, lane: Lane, key: Key)
    ensures var q' := Polled(q, lane);
            exists e: seq<Message> ::
              && Of(q'.wire, key) == Of(q.wire, key) + e
              && (if lane.Ctrl? then Of(q.ctrl, key) == e + Of(q'.ctrl, key) && q'.data == q.data
                  else Of(q.data, key) == e + Of(q'.data, key) && q'.ctrl == q.ctrl)
  {
    var queue := if lane.Ctrl? then q.ctrl else q.data;
    if queue == [] {
      assert Of(q.wire, key) == Of(q.wire, key) + [];
      assert Of(queue, key) == [] + Of(queue, key);
    } else {
      OfSplit(queue, key);
      OfConcat(q.wire, [queue[0]], key);
    }
  }

  lemma PushKnown(keys: set<Key>, q: Queues, i: Item)
    requires Known(keys, q) && StreamOf(i.msg) in keys
    ensures Known(keys, Pushed(q, i))
  {
  }

  lemma PollKnown(keys: set<Key>, q: Queues, lane: Lane)
    requires Known(keys, q)
    ensures Known(keys, Polled(q, lane))
  {
    assert lane.Ctrl? && q.ctrl != [] ==> q.ctrl[0] in q.ctrl;
    assert lane.Bulk? && q.data != [] ==> q.data[0] in q.data;
  }

  lemma StepKeeps(programs: map<Key, seq<Item>>, s: State, a: Action)
    requires Inv(programs, s) && Enabled(s, a, true)
    ensures Inv(programs, Step(s, a))
  {
    hide InOrder, Of, Pushed, Polled, Known;
    var s' := Step(s, a);
    match a {
      case Push(pushing) =>
        InOrderOwn(pushing, programs[pushing], s.todo[pushing], s.q);
        PushKnown(programs.Keys, s.q, s.todo[pushing][0]);
        forall key | key in programs ensures InOrder(key, programs[key], s'.todo[key], s'.q) {
          if key == pushing {
            PushKeeps(key, programs[key], s.todo[key], s.q);
          } else {
            OtherPushKeeps(key, programs[key], s.todo[key], s.q, s.todo[pushing][0]);
          }
        }
      case Look =>
        PollKnown(programs.Keys, s.q, if s.atData then Bulk else Ctrl);
        forall key | key in programs ensures InOrder(key, programs[key], s'.todo[key], s'.q) {
          PollKeeps(key, programs[key], s.todo[key], s.q, if s.atData then Bulk else Ctrl);
        }
    }
  }

  lemma InOrderOwn(key: Key, program: seq<Item>, todo: seq<Item>, q: Queues)
    requires InOrder(key, program, todo, q) && todo != []
    ensures StreamOf(todo[0].msg) == key
  {
  }

  lemma {:induction false} RunKeeps(programs: map<Key, seq<Item>>, s: State, acts: seq<Action>)
    requires Inv(programs, s) && Run(s, acts, true)
    ensures Inv(programs, Exec(s, acts, true))
    decreases |acts|
  {
    hide Inv, Step, Pushed, Polled, Answered;
    if acts == [] {
    } else {
      StepKeeps(programs, s, acts[0]);
      RunKeeps(programs, Step(s, acts[0]), acts[1..]);
    }
  }

  /** Whatever the interleaving of streams and control messages, the messages of each stream leave in
      the order in which it pushed them, and all of them have left when the queues are empty. */
  lemma StreamsLeaveInOrder(programs: map<Key, seq<Item>>, acts: seq<Action>, key: Key)
    requires Programs(programs) && Run(Start(programs), acts, true) && key in programs
    ensures var s := Exec(Start(programs), acts, true);
            && Of(s.q.wire, key) <= Content(programs[key])
            && (key in s.todo && s.todo[key] == [] && s.q.ctrl == [] && s.q.data == [] ==>
                  Of(s.q.wire, key) == Content(programs[key]))
  {
    hide Inv, Exec, InOrder;
    StartOrdered(programs);
    RunKeeps(programs, Start(programs), acts);
    var s := Exec(Start(programs), acts, true);
    OrderOf(programs, s, key);
    InOrderMeans(key, programs[key], s.todo[key], s.q);
  }

  lemma StartOrdered(programs: map<Key, seq<Item>>)
    requires Programs(programs)
    ensures Inv(programs, Start(programs))
  {
    forall key | key in programs ensures Of([], key) == [] {
    }
  }

  lemma OrderOf(programs: map<Key, seq<Item>>, s: State, key: Key)
    requires Inv(programs, s) && key in programs
    ensures key in s.todo && InOrder(key, programs[key], s.todo[key], s.q)
  {
  }

  lemma InOrderMeans(key: Key, program: seq<Item>, todo: seq<Item>, q: Queues)
    requires InOrder(key, program, todo, q)
    ensures Of(q.wire, key) <= Content(program)
    ensures todo == [] && q.ctrl == [] && q.data == [] ==> Of(q.wire, key) == Content(program)
  {
    OfNone(key);
    var w, c, d, t := Of(q.wire, key), Of(q.ctrl, key), Of(q.data, key), Content(todo);
    hide Of, Content;
    assert w + c + d + t == w + (c + d + t);
  }

  /** Every message on the wire is one that its stream had to send. */
  lemma WireFromPrograms(programs: map<Key, seq<Item>>, acts: seq<Action>, m: Message)
    requires Programs(programs) && Run(Start(programs), acts, true)
    requires m in Exec(Start(programs), acts, true).q.wire
    ensures StreamOf(m) in programs
    ensures exists i :: 0 <= i < |programs[StreamOf(m)]| && programs[StreamOf(m)][i].msg == m
  {
    hide Inv, Exec, InOrder, Of;
    var s, key := Exec(Start(programs), acts, true), StreamOf(m);
    StartOrdered(programs);
    RunKeeps(programs, Start(programs), acts);
    AllKnown(programs, s, m);
    StreamsLeaveInOrder(programs, acts, key);
    OfHas(s.q.wire, m, key);
    var i :| 0 <= i < |Of(s.q.wire, key)| && Of(s.q.wire, key)[i] == m;
    assert Content(programs[key])[i] == m;
  }

  lemma AllKnown(programs: map<Key, seq<Item>>, s: State, m: Message)
    requires Inv(programs, s) && m in s.q.wire
    ensures StreamOf(m) in programs
  {
  }

  lemma OfNone(key: Key)
    ensures Of([], key) == [] && Content([]) == []
  {
  }

  function AllBulk(ms: seq<Message>): (r: seq<Item>)
    ensures |r| == |ms|
  {
    seq(|ms|, i requires 0 <= i < |ms| => Item(Bulk, ms[i]))
  }

  /** What the stream of a server pushes: its answer as a control message, then the file. */
  function FileProgram(resp: Message, ms: seq<Message>): (r: seq<Item>)
    ensures |r| == 1 + |ms|
  {
    [Item(Ctrl, resp)] + AllBulk(ms)
  }

  /** For a file that is being sent: once its Close is on the wire, so is everything before it. */
  lemma CloseComesLast(programs: map<Key, seq<Item>>, acts: seq<Action>, id: StreamID, resp: Message, left: bytes,
                       chunk: nat, pack: Packing, unpack: Unpacking, reason: byte)
    requires Programs(programs) && Run(Start(programs), acts, true) && Some(id) in programs
    requires chunk > 0 && Inverse(pack, unpack) && resp.FileResp? && resp.respId == id
    requires programs[Some(id)] == FileProgram(resp, FileMessages(id, left, chunk, pack))
    requires Close(id, reason) in Exec(Start(programs), acts, true).q.wire
    ensures Of(Exec(Start(programs), acts, true).q.wire, Some(id)) == [resp] + FileMessages(id, left, chunk, pack)
  {
    var wire, ms := Exec(Start(programs), acts, true).q.wire, FileMessages(id, left, chunk, pack);
    hide FileMessages, Run, Exec, Of;
    StreamsLeaveInOrder(programs, acts, Some(id));
    assert Content(FileProgram(resp, ms)) == [resp] + ms;
    OfHas(wire, Close(id, reason), Some(id));
    ChunkLoopOutcome(id, left, chunk, pack, unpack);
    var mine, all := Of(wire, Some(id)), [resp] + ms;
    var i :| 0 <= i < |mine| && mine[i] == Close(id, reason);
    assert all[i] == mine[i];
    if i != |all| - 1 {
      assert i > 0 && all[i] == ms[i - 1];
    }
  }

  lemma {:induction false} OfHas(ms: seq<Message>, m: Message, key: Key)
    requires m in ms && StreamOf(m) == key
    ensures m in Of(ms, key)
  {
    if m != ms[0] {
      OfHas(ms[1..], m, key);
    }
  }

  /** Without waiting for the StartTransmission data may overtake its FileResp: the loop may look at
      the empty control queue just before both are pushed. */
  lemma DataMayOvertake(id: StreamID, resp: Message, d: Message)
    requires resp.FileResp? && resp.respId == id && d.Data? && d.dataId == id
    ensures exists programs: map<Key, seq<Item>>, acts ::
              && Programs(programs) && Run(Start(programs), acts, false)
              && Some(id) in programs && Content(programs[Some(id)]) == [resp, d]
              && Of(Exec(Start(programs), acts, false).q.wire, Some(id)) == [d]
  {
    var key: Key := Some(id);
    var program := [Item(Ctrl, resp), Item(Bulk, d)];
    var programs: map<Key, seq<Item>> := map[key := program];
    var s0 := Start(programs);
    var s1 := State(programs, Queues([], [], []), true);
    var s2 := State(map[key := [Item(Bulk, d)]], Queues([resp], [], []), true);
    var s3 := State(map[key := []], Queues([resp], [d], []), true);
    var s4 := State(map[key := []], Queues([resp], [], [d]), false);
    assert Step(s0, Look) == s1;
    assert program[1..] == [Item(Bulk, d)] && [Item(Bulk, d)][1..] == [];
    assert Step(s1, Push(key)) == s2 && Step(s2, Push(key)) == s3 && Step(s3, Look) == s4;
    One(s3, Look, false);
    Cons(s2, Push(key), [Look], false);
    Cons(s1, Push(key), [Push(key), Look], false);
    Cons(s0, Look, [Push(key), Push(key), Look], false);
    var acts := [Look] + ([Push(key)] + ([Push(key)] + [Look]));
    OfOne(d, key);
    assert Content(program) == [resp, d];
    assert Run(Start(programs), acts, false);
  }

  lemma One(s: State, a: Action, waits: bool)
    requires Enabled(s, a, waits)
    ensures Run(s, [a], waits) && Exec(s, [a], waits) == Step(s, a)
  {
    assert [a][1..] == [];
  }

  lemma Cons(s: State, a: Action, acts: seq<Action>, waits: bool)
    requires Enabled(s, a, waits) && Run(Step(s, a), acts, waits)
    ensures Run(s, [a] + acts, waits) && Exec(s, [a] + acts, waits) == Exec(Step(s, a), acts, waits)
  {
    assert ([a] + acts)[1..] == acts;
  }

  // ----------------------------------------- the loop is a run of the steps

  /** What others push, one item after another, and then a look, for each element. */
  function Schedule(key: Key, others: seq<seq<Item>>): seq<Action>
  {
    if others == [] then [] else PushesThenLook(key, |others[0]|) + Schedule(key, others[1..])
  }

  function PushesThenLook(key: Key, n: nat): seq<Action>
  {
    if n == 0 then [Look] else [Push(key)] + PushesThenLook(key, n - 1)
  }

  lemma {:induction false} RunJoin(s: State, a: seq<Action>, b: seq<Action>, waits: bool)
    requires Run(s, a, waits) && Run(Exec(s, a, waits), b, waits)
    ensures Run(s, a + b, waits) && Exec(s, a + b, waits) == Exec(Exec(s, a, waits), b, waits)
    decreases |a|
  {
    hide Step, Answered;
    if a == [] {
      assert a + b == b;
    } else {
      RunJoin(Step(s, a[0]), a[1..], b, waits);
      assert (a + b)[1..] == a[1..] + b && (a + b)[0] == a[0];
    }
  }

  /** The state in which a single source still has `items` to push. */
  function Source(key: Key, items: seq<Item>, q: Queues, atData: bool): State
  {
    State(map[key := items], q, atData)
  }

  lemma {:induction false} PushesRun(key: Key, items: seq<Item>, rest: seq<Item>, q: Queues, atData: bool)
    ensures var s := Source(key, items + rest, q, atData);
            && Run(s, PushesThenLook(key, |items|), false)
            && var q1 := PushedAll(q, items);
               Exec(s, PushesThenLook(key, |items|), false)
               == (if atData then Source(key, rest, Polled(q1, Bulk), false)
                   else Source(key, rest, Polled(q1, Ctrl), q1.ctrl == []))
    decreases |items|
  {
    var s := Source(key, items + rest, q, atData);
    if items == [] {
      assert items + rest == rest;
      One(s, Look, false);
    } else {
      assert (items + rest)[0] == items[0] && (items + rest)[1..] == items[1..] + rest;
      var t := Source(key, items[1..] + rest, Pushed(q, items[0]), atData);
      assert s.todo[key := items[1..] + rest] == t.todo;
      assert Enabled(s, Push(key), false) && Step(s, Push(key)) == t;
      PushesRun(key, items[1..], rest, Pushed(q, items[0]), atData);
      hide Enabled, Step, Run, Exec;
      Cons(s, Push(key), PushesThenLook(key, |items| - 1), false);
    }
  }

  /** Whatever others push meanwhile, the sending loop is a run of pushes and looks of the step system. */
  lemma {:induction false} LooksAreSteps(key: Key, others: seq<seq<Item>>, q: Queues, atData: bool)
    ensures var s := Source(key, Flatten(others), q, atData);
            && Run(s, Schedule(key, others), false)
            && Exec(s, Schedule(key, others), false)
               == Source(key, [], Looks(q, atData, others).0, Looks(q, atData, others).1)
    decreases |others|
  {
    var s := Source(key, Flatten(others), q, atData);
    if others == [] {
    } else {
      var q1 := PushedAll(q, others[0]);
      var first := PushesThenLook(key, |others[0]|);
      PushesRun(key, others[0], Flatten(others[1..]), q, atData);
      var (q2, turn) := if atData then (Polled(q1, Bulk), false) else (Polled(q1, Ctrl), q1.ctrl == []);
      LooksAreSteps(key, others[1..], q2, turn);
      hide Run, Exec, Enabled, Step;
      RunJoin(s, first, Schedule(key, others[1..]), false);
    }
  }

  // --------------------------------------------------- everything can leave

  /** The messages of one stream on outData leave one after another. */
  lemma {:induction false} BulkLeaves(key: Key, ms: seq<Message>, wire: seq<Message>) returns (acts: seq<Action>)
    ensures var s := State(map[key := AllBulk(ms)], Queues([], [], wire), true);
            Run(s, acts, true)
            && Exec(s, acts, true) == State(map[key := []], Queues([], [], wire + ms), true)
    decreases |ms|
  {
    var s := State(map[key := AllBulk(ms)], Queues([], [], wire), true);
    if ms == [] {
      acts := [];
      assert wire + [] == wire && AllBulk(ms) == [];
    } else {
      var m, rest := ms[0], AllBulk(ms[1..]);
      assert AllBulk(ms)[1..] == rest && AllBulk(ms)[0] == Item(Bulk, m);
      var s1 := State(map[key := rest], Queues([], [m], wire), true);
      var s2 := State(map[key := rest], Queues([], [], wire + [m]), false);
      var s3 := State(map[key := rest], Queues([], [], wire + [m]), true);
      assert s.todo[key := rest] == s1.todo;
      assert Enabled(s, Push(key), true) && Step(s, Push(key)) == s1;
      assert Step(s1, Look) == s2 && Step(s2, Look) == s3;
      var more := BulkLeaves(key, ms[1..], wire + [m]);
      hide Run, Exec, Enabled, Step;
      Cons(s2, Look, more, true);
      Cons(s1, Look, [Look] + more, true);
      Cons(s, Push(key), [Look] + ([Look] + more), true);
      acts := [Push(key)] + ([Look] + ([Look] + more));
      assert (wire + [m]) + ms[1..] == wire + ms;
    }
  }

  /** There is a run in which a stream's answer and its whole file leave. */
  lemma FileCanLeave(id: StreamID, resp: Message, ms: seq<Message>) returns (acts: seq<Action>)
    ensures var programs: map<Key, seq<Item>> := map[Some(id) := FileProgram(resp, ms)];
            Run(Start(programs), acts, true) && Exec(Start(programs), acts, true).q.wire == [resp] + ms
  {
    var key: Key, rest := Some(id), AllBulk(ms);
    var programs: map<Key, seq<Item>> := map[key := FileProgram(resp, ms)];
    var s0 := Start(programs);
    var s1 := State(map[key := rest], Queues([resp], [], []), false);
    var s2 := State(map[key := rest], Queues([], [], [resp]), false);
    var s3 := State(map[key := rest], Queues([], [], [resp]), true);
    assert FileProgram(resp, ms)[1..] == rest;
    assert s0.todo[key := rest] == s1.todo;
    assert Enabled(s0, Push(key), true) && Step(s0, Push(key)) == s1;
    assert Step(s1, Look) == s2 && Step(s2, Look) == s3;
    var more := BulkLeaves(key, ms, [resp]);
    hide Run, Exec, Enabled, Step;
    Cons(s2, Look, more, true);
    Cons(s1, Look, [Look] + more, true);
    Cons(s0, Push(key), [Look] + ([Look] + more), true);
    acts := [Push(key)] + ([Look] + ([Look] + more));
  }
}
