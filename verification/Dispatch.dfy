/** How a client hands incoming messages to its streams and to the listings it waits for
    (brft/client.go, handleClientConnection and ListFileMetaData). */
module Dispatch {
  import opened Prelude
  import opened Messages
  import opened MetaPaging
  import SendQueues

  /** The messages handed to each open stream, the pages handed to each listing ever asked for, the
      listings still waited for, the messages queued for the server, whether the lock of the listings
      was left locked, whether the loop waits for it, and whether the connection was closed. */
  datatype State = State(streams: map<StreamID, seq<Message>>, channels: seq<seq<Message>>, waiting: seq<nat>,
                         outData: seq<Message>, locked: bool, blocked: bool, closed: bool)

  ghost predicate Valid(s: State)
  {
    forall i | 0 <= i < |s.waiting| :: s.waiting[i] < |s.channels|
  }

  function ToStream(s: State, id: StreamID, m: Message, answer: seq<Message>): State
  {
    if id in s.streams then s.(streams := s.streams[id := s.streams[id] + [m]])
    else s.(outData := s.outData + answer)
  }

  /** A page goes to the oldest listing; without one the lock stays locked. */
  function ToListing(s: State, page: Message): State
    requires page.MetaResp?
  {
    if s.locked then s.(blocked := true)
    else if s.waiting == [] then s.(locked := true)
    else
      var i := s.waiting[0];
      s.(channels := if i < |s.channels| then s.channels[i := s.channels[i] + [page]] else s.channels,
         waiting := if |page.items| < MAX_META_ITEMS then s.waiting[1..] else s.waiting)
  }

  /** One pass of the loop. */
  function Handled(s: State, m: Message): State
  {
    if s.blocked || s.closed then s
    else
      match m
      case FileResp(_, _, id, _, _) => ToStream(s, id, m, [Close(id, CLOSE_UNDEFINED)])
      case Data(id, _) => ToStream(s, id, m, [Close(id, CLOSE_UNDEFINED)])
      case Close(id, _) => ToStream(s, id, m, [])
      case MetaResp(_, _) => ToListing(s, m)
      case _ => s.(closed := true)
  }

  /** A new listing is asked for, unless the lock cannot be had. */
  function Asked(s: State): State
  {
    if s.locked then s else s.(channels := s.channels + [[]], waiting := s.waiting + [|s.channels|])
  }

  class Client {
    var streams: map<StreamID, seq<Message>>
    var channels: seq<seq<Message>>
    var metaDataRequests: seq<nat>
    var outData: seq<Message>
    var locked: bool
    var blocked: bool
    var closed: bool

    ghost function Abstract(): State
      reads this
    {
      State(streams, channels, metaDataRequests, outData, locked, blocked, closed)
    }

    method Handle(m: Message)
      requires Valid(Abstract())
      modifies this
      ensures Valid(Abstract()) && Abstract() == Handled(old(Abstract()), m)
    {
      if blocked || closed {
        return;
      }
      match m {
        case FileResp(_, _, id, _, _) =>
          if id in streams {
            streams := streams[id := streams[id] + [m]];
          } else {
            outData := outData + [Close(id, CLOSE_UNDEFINED)];
          }
        case Data(id, _) =>
          if id in streams {
            streams := streams[id := streams[id] + [m]];
          } else {
            outData := outData + [Close(id, CLOSE_UNDEFINED)];
          }
        case Close(id, _) =>
          if id in streams {
            streams := streams[id := streams[id] + [m]];
          }
        case MetaResp(items, _) =>
          if locked {
            blocked := true;
            return;
          }
          locked := true;
          if |metaDataRequests| == 0 {
            return;
          }
          var i := metaDataRequests[0];
          channels := channels[i := channels[i] + [m]];
          if |items| < MAX_META_ITEMS {
            metaDataRequests := metaDataRequests[1..];
          }
          locked := false;
        case _ =>
          closed := true;
      }
    }

    method Ask() returns (asked: bool)
      requires Valid(Abstract())
      modifies this
      ensures Valid(Abstract()) && Abstract() == Asked(old(Abstract())) && asked == !old(locked)
    {
      asked := !locked;
      if asked {
        metaDataRequests := metaDataRequests + [|channels|];
        channels := channels + [[]];
      }
    }
  }

  // ------------------------------------------------------------------- runs

  /** The messages a server sends. */
  predicate FromServer(m: Message)
  {
    m.FileResp? || m.Data? || m.Close? || m.MetaResp?
  }

  datatype Event = Ask | Arrive(m: Message)

  function After(s: State, e: Event): State
  {
    if e.Ask? then Asked(s) else Handled(s, e.m)
  }

  function Run(s: State, es: seq<Event>): State
    decreases |es|
  {
    if es == [] then s else After(Run(s, es[..|es| - 1]), es[|es| - 1])
  }

  /** The messages that arrive. */
  function Wire(es: seq<Event>): seq<Message>
    decreases |es|
  {
    if es == [] then []
    else Wire(es[..|es| - 1]) + (if es[|es| - 1].Arrive? then [es[|es| - 1].m] else [])
  }

  /** How many listings are asked for. */
  function Asks(es: seq<Event>): nat
    decreases |es|
  {
    if es == [] then 0 else Asks(es[..|es| - 1]) + if es[|es| - 1].Ask? then 1 else 0
  }

  ghost predicate AllFromServer(es: seq<Event>)
  {
    forall i | 0 <= i < |es| && es[i].Arrive? :: FromServer(es[i].m)
  }

  lemma {:induction false} EventsOfWire(es: seq<Event>, wire: seq<Message>)
    requires Wire(es) <= wire && forall i | 0 <= i < |wire| :: FromServer(wire[i])
    ensures AllFromServer(es)
    decreases |es|
  {
    if es == [] {
    } else {
      var before, e := es[..|es| - 1], es[|es| - 1];
      assert Wire(before) <= Wire(es);
      EventsOfWire(before, wire);
      if e.Arrive? {
        assert wire[|Wire(before)|] == e.m;
      }
    }
  }

  /** Each open stream gets exactly its own messages, in order, as long as the loop is not blocked. */
  lemma {:induction false} StreamsGetTheirs(s: State, es: seq<Event>, id: StreamID)
    requires AllFromServer(es) && id in s.streams && !s.blocked && !s.closed
    requires !Run(s, es).blocked
    ensures !Run(s, es).closed && id in Run(s, es).streams
    ensures Run(s, es).streams[id] == s.streams[id] + SendQueues.Of(Wire(es), Some(id))
    decreases |es|
  {
    if es == [] {
      assert s.streams[id] + [] == s.streams[id];
    } else {
      hide SendQueues.Of, Handled, ToListing, Asked;
      var before, e := es[..|es| - 1], es[|es| - 1];
      if Run(s, before).blocked {
        BlockedStays(Run(s, before), e);
      }
      StreamsGetTheirs(s, before, id);
      assert e.Arrive? ==> FromServer(e.m);
      WireOf(es, Some(id));
      EventToStream(Run(s, before), e, id);
      assert s.streams[id] + (SendQueues.Of(Wire(before), Some(id)) + OfEvent(e, Some(id)))
          == (s.streams[id] + SendQueues.Of(Wire(before), Some(id))) + OfEvent(e, Some(id));
    }
  }

  /** The answers to messages of streams that are not open: a Close with reason 0 for each FileResp and each
      chunk, and nothing for a Close. */
  function Closings(ms: seq<Message>, open: set<StreamID>): seq<Message>
    decreases |ms|
  {
    if ms == [] then []
    else
      var m := ms[|ms| - 1];
      Closings(ms[..|ms| - 1], open)
      + (if m.FileResp? && m.respId !in open then [Close(m.respId, 0)]
         else if m.Data? && m.dataId !in open then [Close(m.dataId, 0)]
         else [])
  }

  /** Exactly these answers are queued for the server, in order, as long as the loop is not blocked. */
  lemma {:induction false} UnknownAnswered(s: State, es: seq<Event>)
    requires AllFromServer(es) && !s.blocked && !s.closed && !Run(s, es).blocked
    ensures !Run(s, es).closed && Run(s, es).streams.Keys == s.streams.Keys
    ensures Run(s, es).outData == s.outData + Closings(Wire(es), s.streams.Keys)
    decreases |es|
  {
    hide After, Run, AllFromServer, FromServer, Closings, Wire, Asks;
    var open := s.streams.Keys;
    if es == [] {
      NoEvents(s, open);
    } else {
      var before, e := es[..|es| - 1], es[|es| - 1];
      RunBefore(s, es);
      assert !Run(s, before).blocked by {
        if Run(s, before).blocked {
          BlockedStays(Run(s, before), e);
        }
      }
      UnknownAnswered(s, before);
      EventAnswered(Run(s, before), e);
      ClosingsNext(es, open);
      Joined3(s.outData, Closings(Wire(before), open), if e.Arrive? then Closings([e.m], open) else []);
    }
  }

  lemma NoEvents(s: State, open: set<StreamID>)
    ensures Run(s, []) == s && s.outData == s.outData + Closings(Wire([]), open)
  {
  }

  lemma Joined3<T>(a: seq<T>, b: seq<T>, c: seq<T>)
    ensures a + (b + c) == (a + b) + c
  {
  }

  lemma ClosingsNext(es: seq<Event>, open: set<StreamID>)
    requires es != []
    ensures var (before, e) := (es[..|es| - 1], es[|es| - 1]);
            Closings(Wire(es), open) == Closings(Wire(before), open) + if e.Arrive? then Closings([e.m], open) else []
  {
    var before, e := es[..|es| - 1], es[|es| - 1];
    if e.Arrive? {
      assert Wire(es) == Wire(before) + [e.m];
      assert Wire(es)[..|Wire(before)|] == Wire(before) && [e.m][..0] == [];
    } else {
      assert Wire(es) == Wire(before) + [] == Wire(before);
    }
  }

  lemma EventAnswered(s: State, e: Event)
    requires !s.blocked && !s.closed && (e.Arrive? ==> FromServer(e.m))
    ensures !After(s, e).closed && After(s, e).streams.Keys == s.streams.Keys
    ensures After(s, e).outData == s.outData + if e.Arrive? then Closings([e.m], s.streams.Keys) else []
  {
    if e.Arrive? {
      assert [e.m][..0] == [];
    }
    assert s.outData + [] == s.outData;
  }

  /** The client closes the connection at the first message that no server sends, and at nothing else. */
  lemma {:induction false} ClosedExactly(s: State, es: seq<Event>)
    requires !s.blocked && !s.closed && !Run(s, es).blocked
    ensures Run(s, es).closed <==> !AllFromServer(es)
    decreases |es|
  {
    if es == [] {
    } else {
      var before, e := es[..|es| - 1], es[|es| - 1];
      if Run(s, before).blocked {
        BlockedStays(Run(s, before), e);
      }
      ClosedExactly(s, before);
      AllLast(es);
      hide AllFromServer;
    }
  }

  lemma AllLast(es: seq<Event>)
    requires es != []
    ensures AllFromServer(es) <==> AllFromServer(es[..|es| - 1]) && (es[|es| - 1].Arrive? ==> FromServer(es[|es| - 1].m))
  {
    hide FromServer;
    assert forall i | 0 <= i < |es| - 1 :: es[..|es| - 1][i] == es[i];
  }

  lemma EventToStream(s: State, e: Event, id: StreamID)
    requires !s.blocked && !s.closed && id in s.streams && (e.Arrive? ==> FromServer(e.m))
    ensures !After(s, e).closed && id in After(s, e).streams
    ensures After(s, e).streams[id] == s.streams[id] + OfEvent(e, Some(id))
  {
  }

  lemma BlockedStays(s: State, e: Event)
    requires s.blocked
    ensures After(s, e).blocked
  {
  }

  // ------------------------------------------------------ the lock of the listings

  /** How many listings end with the pages that arrive. */
  function Lasts(es: seq<Event>): nat
    decreases |es|
  {
    if es == [] then 0 else Lasts(es[..|es| - 1]) + if es[|es| - 1].Arrive? && Last(es[|es| - 1].m) then 1 else 0
  }

  predicate IsPage(e: Event)
  {
    e.Arrive? && e.m.MetaResp?
  }

  /** The page at `i` arrives when as many listings have ended as were asked for, beyond `k` that waited
      at the start. */
  predicate Unasked(es: seq<Event>, k: nat, i: nat)
  {
    i < |es| && IsPage(es[i]) && Lasts(es[..i]) >= k + Asks(es[..i])
  }

  ghost predicate SomeUnasked(es: seq<Event>, k: nat)
  {
    exists i :: Unasked(es, k, i)
  }

  /** A page arrives after one that was not asked for. */
  ghost predicate PageAfterUnasked(es: seq<Event>, k: nat)
  {
    exists i: nat, j: nat :: Unasked(es, k, i) && i < j < |es| && IsPage(es[j])
  }

  lemma UnaskedSnoc(es: seq<Event>, k: nat)
    requires es != []
    ensures var (before, last) := (es[..|es| - 1], |es| - 1);
            && (SomeUnasked(es, k) <==> SomeUnasked(before, k) || Unasked(es, k, last))
            && (PageAfterUnasked(es, k) <==> PageAfterUnasked(before, k) || (SomeUnasked(before, k) && IsPage(es[last])))
  {
    hide Lasts, Asks, IsPage;
    var before, last := es[..|es| - 1], |es| - 1;
    forall i: nat | i < last ensures Unasked(es, k, i) <==> Unasked(before, k, i) {
      assert es[..i] == before[..i] && es[i] == before[i];
    }
    assert forall i: nat | i < last :: es[i] == before[i];
    assert forall i: nat :: Unasked(before, k, i) ==> i < last;
  }

  /** The loop is blocked for good if and only if another page arrives after one that was not asked
      for, when as many listings had ended as were asked for: the first leaves the lock locked, the
      second waits for it. */
  lemma {:induction false} BlockedExactly(s: State, es: seq<Event>)
    requires AllFromServer(es) && !s.blocked && !s.locked && !s.closed
    ensures Run(s, es).blocked <==> PageAfterUnasked(es, |s.waiting|)
    ensures Run(s, es).locked <==> SomeUnasked(es, |s.waiting|)
    ensures !Run(s, es).closed
    ensures !Run(s, es).locked ==> |Run(s, es).waiting| == |s.waiting| + Asks(es) - Lasts(es)
    decreases |es|
  {
    if es == [] {
      assert forall i: nat :: !Unasked(es, |s.waiting|, i);
    } else {
      var before, e, k := es[..|es| - 1], es[|es| - 1], |s.waiting|;
      AllLast(es);
      UnaskedSnoc(es, k);
      assert Unasked(es, k, |es| - 1) <==> IsPage(e) && Lasts(before) >= k + Asks(before);
      assert Unasked(before, k, 0) ==> SomeUnasked(before, k);
      assert PageAfterUnasked(before, k) ==> SomeUnasked(before, k);
      hide SomeUnasked, PageAfterUnasked, AllFromServer, FromServer, Unasked, IsPage, After;
      BlockedExactly(s, before);
      EventLocks(Run(s, before), e);
    }
  }

  /** What an event does to the lock, and to the listings that wait. */
  lemma EventLocks(s: State, e: Event)
    requires !s.closed && (s.blocked ==> s.locked) && (e.Arrive? ==> FromServer(e.m))
    ensures var t := After(s, e);
            && !t.closed
            && (t.blocked <==> s.blocked || (s.locked && IsPage(e)))
            && (t.locked <==> s.locked || (IsPage(e) && s.waiting == []))
            && (!t.locked ==>
                  |t.waiting| == |s.waiting| + (if e.Ask? then 1 else 0) - if e.Arrive? && Last(e.m) then 1 else 0)
  {
  }

  // ----------------------------------------------------------------- listings

  /** The pages of the first `n` listings. */
  function PagesOf(lists: seq<seq<MetaItem>>, n: nat): seq<Message>
    requires n <= |lists|
    decreases n
  {
    if n == 0 then [] else PagesOf(lists, n - 1) + Pages(lists[n - 1])
  }

  /** The server answers in order, and only what it was asked: at every moment the pages that have
      arrived are a prefix of the pages of the listings asked for so far. */
  ghost predicate Answers(lists: seq<seq<MetaItem>>, es: seq<Event>)
    decreases |es|
  {
    AnswersNow(lists, es) && (es == [] || Answers(lists, es[..|es| - 1]))
  }

  ghost predicate AnswersNow(lists: seq<seq<MetaItem>>, es: seq<Event>)
  {
    Asks(es) <= |lists| && SendQueues.Of(Wire(es), None) <= PagesOf(lists, Asks(es))
  }

  function Fresh(streams: map<StreamID, seq<Message>>): State
  {
    State(streams, [], [], [], false, false, false)
  }

  /** `head` listings are complete, the next one has a proper part of its pages, later ones none. */
  ghost predicate ListingsOk(lists: seq<seq<MetaItem>>, pages: seq<Message>, s: State, head: nat)
  {
    && !s.locked && !s.blocked && !s.closed
    && head <= |s.channels| <= |lists|
    && |s.waiting| == |s.channels| - head && (forall i | 0 <= i < |s.waiting| :: s.waiting[i] == head + i)
    && (forall i | 0 <= i < head :: s.channels[i] == Pages(lists[i]))
    && (forall i | head < i < |s.channels| :: s.channels[i] == [])
    && (head < |s.channels| ==> s.channels[head] <= Pages(lists[head]) && |s.channels[head]| < |Pages(lists[head])|)
    && pages == PagesOf(lists, head) + (if head < |s.channels| then s.channels[head] else [])
  }

  lemma {:induction false} PagesOfGrow(lists: seq<seq<MetaItem>>, m: nat, n: nat)
    requires m <= n <= |lists|
    ensures PagesOf(lists, m) <= PagesOf(lists, n)
    decreases n - m
  {
    hide Pages;
    if m < n {
      PagesOfGrow(lists, m, n - 1);
    }
  }

  lemma AskKeeps(lists: seq<seq<MetaItem>>, pages: seq<Message>, s: State, head: nat)
    requires ListingsOk(lists, pages, s, head) && |s.channels| < |lists|
    ensures ListingsOk(lists, pages, Asked(s), head)
  {
    SomePage(lists[head]);
    hide Pages, PagesOf;
    var s' := Asked(s);
    assert forall i | 0 <= i < |s.channels| :: s'.channels[i] == s.channels[i];
    assert forall i | 0 <= i < |s.waiting| :: s'.waiting[i] == s.waiting[i];
  }

  lemma SomePage(items: seq<MetaItem>)
    ensures |Pages(items)| >= 1
  {
    hide Split, Joined, Listing;
    PagesSound(items);
  }

  /** The next page of the oldest listing goes there. */
  lemma PageKeeps(lists: seq<seq<MetaItem>>, pages: seq<Message>, s: State, head: nat, m: Message)
    returns (head': nat)
    requires ListingsOk(lists, pages, s, head) && m.MetaResp?
    requires |s.channels| <= |lists| && pages + [m] <= PagesOf(lists, |s.channels|)
    ensures ListingsOk(lists, pages + [m], Handled(s, m), head')
  {
    hide Pages, PagesOf, Handled, ListingsOk, Last;
    OldestListing(lists, pages, s, head, m);
    var mine, n := Pages(lists[head]), |s.channels[head]|;
    WholeListing(lists, head, |s.channels|);
    NextPage(PagesOf(lists, head), mine, n, PagesOf(lists, |s.channels|), m);
    PageEnds(lists[head], n);
    if n + 1 == |mine| {
      assert s.channels[head] + [m] == mine;
      LastPageKeeps(lists, pages, s, head, m);
      head' := head + 1;
    } else {
      assert s.channels[head] + [m] == mine[..n + 1];
      FullPageKeeps(lists, pages, s, head, m);
      head' := head;
    }
  }

  /** A page that answers what was asked finds a listing that has not got all of its own. */
  lemma OldestListing(lists: seq<seq<MetaItem>>, pages: seq<Message>, s: State, head: nat, m: Message)
    requires ListingsOk(lists, pages, s, head)
    requires pages + [m] <= PagesOf(lists, |s.channels|)
    ensures head < |s.channels| <= |lists|
    ensures var (mine, n) := (Pages(lists[head]), |s.channels[head]|);
            n < |mine| && mine[..n] == s.channels[head] && pages == PagesOf(lists, head) + mine[..n]
  {
    hide Pages, PagesOf;
    assert |pages| + 1 == |pages + [m]| <= |PagesOf(lists, |s.channels|)|;
  }

  lemma PagesOfNext(lists: seq<seq<MetaItem>>, i: nat)
    requires i < |lists|
    ensures PagesOf(lists, i + 1) == PagesOf(lists, i) + Pages(lists[i])
  {
  }

  lemma WholeListing(lists: seq<seq<MetaItem>>, i: nat, n: nat)
    requires i < n <= |lists|
    ensures PagesOf(lists, i) + Pages(lists[i]) <= PagesOf(lists, n)
  {
    hide Pages, PagesOf;
    PagesOfNext(lists, i);
    PagesOfGrow(lists, i + 1, n);
    var a, b, c := PagesOf(lists, i), Pages(lists[i]), PagesOf(lists, n);
    assert a + b <= c;
  }

  lemma PageEnds(items: seq<MetaItem>, n: nat)
    requires n < |Pages(items)|
    ensures Last(Pages(items)[n]) <==> n + 1 == |Pages(items)|
  {
    hide Split, Joined;
    PagesSound(items);
  }

  lemma LastPageKeeps(lists: seq<seq<MetaItem>>, pages: seq<Message>, s: State, head: nat, m: Message)
    requires ListingsOk(lists, pages, s, head) && m.MetaResp? && Last(m) && head < |s.channels|
    requires s.channels[head] + [m] == Pages(lists[head])
    ensures ListingsOk(lists, pages + [m], Handled(s, m), head + 1)
  {
    if head + 1 < |s.channels| {
      SomePage(lists[head + 1]);
    }
    hide Pages, Listing;
    assert pages + [m] == PagesOf(lists, head + 1) + [];
    assert s.waiting[0] == head;
  }

  lemma FullPageKeeps(lists: seq<seq<MetaItem>>, pages: seq<Message>, s: State, head: nat, m: Message)
    requires ListingsOk(lists, pages, s, head) && m.MetaResp? && !Last(m) && head < |s.channels|
    requires s.channels[head] + [m] <= Pages(lists[head]) && |s.channels[head] + [m]| < |Pages(lists[head])|
    ensures ListingsOk(lists, pages + [m], Handled(s, m), head)
  {
    hide Pages, PagesOf;
    assert s.waiting[0] == head;
    assert pages + [m] == PagesOf(lists, head) + (s.channels[head] + [m]);
  }

  lemma NextPage(before: seq<Message>, mine: seq<Message>, n: nat, all: seq<Message>, m: Message)
    requires n < |mine| && before + mine <= all && before + mine[..n] + [m] <= all
    ensures m == mine[n] && mine[..n] + [m] == mine[..n + 1]
    ensures n + 1 == |mine| ==> before + mine[..n] + [m] == before + mine
  {
    assert all[|before| + n] == (before + mine)[|before| + n] == mine[n];
    assert all[|before| + n] == (before + mine[..n] + [m])[|before| + n] == m;
  }

  lemma StreamMessageKeeps(lists: seq<seq<MetaItem>>, pages: seq<Message>, s: State, head: nat, m: Message)
    requires ListingsOk(lists, pages, s, head) && FromServer(m) && !m.MetaResp?
    ensures ListingsOk(lists, pages, Handled(s, m), head)
  {
    hide Pages, PagesOf;
  }

  lemma AnswersBefore(lists: seq<seq<MetaItem>>, es: seq<Event>)
    requires Answers(lists, es) && es != []
    ensures Asks(es) <= |lists| && SendQueues.Of(Wire(es), None) <= PagesOf(lists, Asks(es))
    ensures Answers(lists, es[..|es| - 1])
  {
    hide Asks, Wire, PagesOf, SendQueues.Of;
  }

  lemma RunBefore(s: State, es: seq<Event>)
    requires es != [] && AllFromServer(es)
    ensures var (before, e) := (es[..|es| - 1], es[|es| - 1]);
            && Run(s, es) == After(Run(s, before), e)
            && AllFromServer(before) && (e.Arrive? ==> FromServer(e.m))
            && Asks(es) == Asks(before) + if e.Ask? then 1 else 0
  {
  }

  lemma {:induction false} ListingsRun(lists: seq<seq<MetaItem>>, streams: map<StreamID, seq<Message>>, es: seq<Event>)
    returns (head: nat)
    requires AllFromServer(es) && Answers(lists, es)
    ensures ListingsOk(lists, SendQueues.Of(Wire(es), None), Run(Fresh(streams), es), head)
    ensures |Run(Fresh(streams), es).channels| == Asks(es)
    decreases |es|
  {
    hide ListingsOk, After, PagesOf, Answers, AnswersNow, SendQueues.Of, AllFromServer, FromServer, Wire, Asks, Run;
    head := 0;
    if es == [] {
      ListingsStart(lists, streams);
    } else {
      var before, e := es[..|es| - 1], es[|es| - 1];
      AnswersBefore(lists, es);
      RunBefore(Fresh(streams), es);
      head := ListingsRun(lists, streams, before);
      WireOf(es, None);
      NotLocked(lists, SendQueues.Of(Wire(before), None), Run(Fresh(streams), before), head);
      head := EventKeeps(lists, SendQueues.Of(Wire(before), None), Run(Fresh(streams), before), head, e);
    }
  }

  lemma NotLocked(lists: seq<seq<MetaItem>>, pages: seq<Message>, s: State, head: nat)
    requires ListingsOk(lists, pages, s, head)
    ensures !s.locked
  {
  }

  lemma ListingsStart(lists: seq<seq<MetaItem>>, streams: map<StreamID, seq<Message>>)
    ensures ListingsOk(lists, SendQueues.Of(Wire([]), None), Run(Fresh(streams), []), 0)
    ensures |Run(Fresh(streams), []).channels| == Asks([])
  {
  }

  function OfEvent(e: Event, key: SendQueues.Key): seq<Message>
  {
    if e.Arrive? && SendQueues.StreamOf(e.m) == key then [e.m] else []
  }

  lemma WireOf(es: seq<Event>, key: SendQueues.Key)
    requires es != []
    ensures SendQueues.Of(Wire(es), key) == SendQueues.Of(Wire(es[..|es| - 1]), key) + OfEvent(es[|es| - 1], key)
  {
    var before, e := es[..|es| - 1], es[|es| - 1];
    assert Wire(before) + [] == Wire(before);
    if e.Arrive? {
      SendQueues.OfConcat(Wire(before), [e.m], key);
      SendQueues.OfOne(e.m, key);
    }
  }

  lemma EventKeeps(lists: seq<seq<MetaItem>>, pages: seq<Message>, s: State, head: nat, e: Event)
    returns (head': nat)
    requires ListingsOk(lists, pages, s, head) && !s.locked
    requires e.Arrive? ==> FromServer(e.m)
    requires e.Ask? ==> |s.channels| < |lists|
    requires |s.channels| <= |lists| && (e.Arrive? ==> pages + OfEvent(e, None) <= PagesOf(lists, |s.channels|))
    ensures ListingsOk(lists, pages + OfEvent(e, None), After(s, e), head')
    ensures |After(s, e).channels| == |s.channels| + if e.Ask? then 1 else 0
  {
    hide ListingsOk, Handled, Asked, PagesOf, SendQueues.Of;
    assert pages + [] == pages;
    ChannelCount(s, e);
    head' := head;
    if e.Ask? {
      AskKeeps(lists, pages, s, head);
    } else if e.m.MetaResp? {
      head' := PageKeeps(lists, pages, s, head, e.m);
    } else {
      StreamMessageKeeps(lists, pages, s, head, e.m);
    }
  }

  lemma ChannelCount(s: State, e: Event)
    requires !s.locked
    ensures |After(s, e).channels| == |s.channels| + if e.Ask? then 1 else 0
  {
  }

  /** In every run in which the server answers in order, each listing gets exactly its own pages, in
      order: the loop of ListFileMetaData ends exactly when it has them all, and then it has the
      items that the server listed. */
  lemma ListingsGetTheirs(lists: seq<seq<MetaItem>>, streams: map<StreamID, seq<Message>>, es: seq<Event>, i: nat)
    requires AllFromServer(es) && Answers(lists, es) && i < Asks(es)
    ensures var s := Run(Fresh(streams), es);
            && !s.blocked && !s.locked && !s.closed && |s.channels| == Asks(es) <= |lists|
            && s.channels[i] <= Pages(lists[i])
            && (Collected(s.channels[i]).Some? <==> s.channels[i] == Pages(lists[i]))
            && (Collected(s.channels[i]).Some? ==> Joined(Collected(s.channels[i]).value) == lists[i])
  {
    hide Run, Asks, Answers, Pages, Joined, Listing, Collected, SendQueues.Of, PagesOf;
    var head := ListingsRun(lists, streams, es);
    var s := Run(Fresh(streams), es);
    var mine, n := Pages(lists[i]), |s.channels[i]|;
    PagesSound(lists[i]);
    assert s.channels[i] == mine[..n];
    CollectedListing(mine, n);
    assert mine[..|mine|] == mine;
  }

  /** No page is lost or repeated: what the listings hold, one after the other, is what arrived. */
  lemma PagesConserved(lists: seq<seq<MetaItem>>, streams: map<StreamID, seq<Message>>, es: seq<Event>)
    requires AllFromServer(es) && Answers(lists, es)
    ensures Flatten(Run(Fresh(streams), es).channels) == SendQueues.Of(Wire(es), None)
  {
    var head := ListingsRun(lists, streams, es);
    HeldListings(lists, SendQueues.Of(Wire(es), None), Run(Fresh(streams), es), head);
  }

  lemma HeldListings(lists: seq<seq<MetaItem>>, pages: seq<Message>, s: State, head: nat)
    requires ListingsOk(lists, pages, s, head)
    ensures Flatten(s.channels) == pages
  {
    hide Pages, PagesOf, Flatten;
    CompleteChannels(lists, s.channels[..head], head);
    var later := s.channels[head..];
    assert s.channels == s.channels[..head] + later;
    FlattenConcat(s.channels[..head], later);
    if later == [] {
      NothingLater(later);
    } else {
      NothingLater(later[1..]);
      OnlyFirst(later);
    }
  }

  lemma OnlyFirst(channels: seq<seq<Message>>)
    requires channels != [] && Flatten(channels[1..]) == []
    ensures Flatten(channels) == channels[0]
  {
  }

  lemma {:induction false} CompleteChannels(lists: seq<seq<MetaItem>>, channels: seq<seq<Message>>, n: nat)
    requires n == |channels| <= |lists| && forall i | 0 <= i < n :: channels[i] == Pages(lists[i])
    ensures Flatten(channels) == PagesOf(lists, n)
    decreases n
  {
    if n == 0 {
    } else {
      CompleteChannels(lists, channels[..n - 1], n - 1);
      FlattenSnoc(channels[..n - 1], channels[n - 1]);
      assert channels == channels[..n - 1] + [channels[n - 1]];
    }
  }

  lemma {:induction false} NothingLater(channels: seq<seq<Message>>)
    requires forall i | 0 <= i < |channels| :: channels[i] == []
    ensures Flatten(channels) == []
  {
    if channels == [] {
    } else {
      NothingLater(channels[1..]);
    }
  }
}
