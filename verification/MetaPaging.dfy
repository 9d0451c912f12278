/** Listings are cut into pages (brft/messages/metaresp.go, NewMetaResps) and put together again by
    the client (brft/client.go, ListFileMetaData). */
module MetaPaging {
  import opened Prelude
  import opened Messages
  import opened MessageStream
  import ByteStream
  import PacketNumbers

  const MAX_META_ITEMS: nat := 255

  /** Full pages and then a page that is not full, which may be empty. */
  function Split(items: seq<MetaItem>): seq<Message>
    decreases |items|
  {
    if |items| < MAX_META_ITEMS then [MetaResp(items, false)]
    else [MetaResp(items[..MAX_META_ITEMS], false)] + Split(items[MAX_META_ITEMS..])
  }

  /** A single item with a size and a checksum has an extended page of its own. */
  function Pages(items: seq<MetaItem>): seq<Message>
  {
    if |items| == 1 && items[0].fileSize.Some? && items[0].checksum != [] then [MetaResp(items, true)]
    else Split(items)
  }

  lemma FullPage(before: seq<Message>, items: seq<MetaItem>)
    requires |items| >= MAX_META_ITEMS
    ensures before + Split(items)
         == (before + [MetaResp(items[..MAX_META_ITEMS], false)]) + Split(items[MAX_META_ITEMS..])
  {
  }

  method NewMetaResps(items: seq<MetaItem>) returns (resp: seq<Message>)
    ensures resp == Pages(items)
  {
    hide Split;
    resp := [];
    if |items| == 1 && items[0].fileSize.Some? && items[0].checksum != [] {
      return resp + [MetaResp(items, true)];
    }
    var left := items;
    while |left| >= MAX_META_ITEMS
      invariant resp + Split(left) == Split(items)
    {
      FullPage(resp, left);
      resp := resp + [MetaResp(left[..MAX_META_ITEMS], false)];
      left := left[MAX_META_ITEMS..];
    }
    LastPage(left);
    resp := resp + [MetaResp(left, false)];
  }

  lemma LastPage(items: seq<MetaItem>)
    requires |items| < MAX_META_ITEMS
    ensures Split(items) == [MetaResp(items, false)]
  {
  }

  /** The items of a list of pages. */
  function Joined(pages: seq<Message>): seq<MetaItem>
  {
    if pages == [] then []
    else (if pages[0].MetaResp? then pages[0].items else []) + Joined(pages[1..])
  }

  /** A page after which the client expects no other. */
  predicate Last(page: Message)
  {
    page.MetaResp? && |page.items| < MAX_META_ITEMS
  }

  /** Exactly the last page ends the listing. */
  ghost predicate Listing(pages: seq<Message>)
  {
    pages != [] && forall i | 0 <= i < |pages| ::
      pages[i].MetaResp? && |pages[i].items| <= MAX_META_ITEMS && (Last(pages[i]) <==> i == |pages| - 1)
  }

  lemma {:induction false} SplitSound(items: seq<MetaItem>)
    ensures Joined(Split(items)) == items && Listing(Split(items))
    ensures |Split(items)| == |items| / MAX_META_ITEMS + 1
    ensures forall i | 0 <= i < |Split(items)| ::
              |Split(items)[i].items| == if i < |Split(items)| - 1 then MAX_META_ITEMS else |items| % MAX_META_ITEMS
    decreases |items|
  {
    if |items| < MAX_META_ITEMS {
      assert [MetaResp(items, false)][1..] == [];
      PacketNumbers.DivModUnique(|items|, MAX_META_ITEMS, 0, |items|);
    } else {
      var page, rest := MetaResp(items[..MAX_META_ITEMS], false), Split(items[MAX_META_ITEMS..]);
      SplitSound(items[MAX_META_ITEMS..]);
      ByteStream.DivStep(|items|, MAX_META_ITEMS);
      assert Split(items) == [page] + rest && ([page] + rest)[1..] == rest;
      assert items == items[..MAX_META_ITEMS] + items[MAX_META_ITEMS..];
      hide Split, Joined;
      forall i | 0 < i < 1 + |rest| ensures ([page] + rest)[i] == rest[i - 1] {
      }
    }
  }

  /** The pages of a listing join to its items; all but the last are full and the last is not, also
      when the number of items is a multiple of the page size. Only the listing of a single file is
      extended. */
  lemma PagesSound(items: seq<MetaItem>)
    ensures Joined(Pages(items)) == items && Listing(Pages(items))
    ensures |Pages(items)| == |items| / 255 + 1
    ensures forall i | 0 <= i < |Pages(items)| ::
              Pages(items)[i].MetaResp? && |Pages(items)[i].items| == if i < |items| / 255 then 255 else |items| % 255
    ensures forall i | 0 <= i < |Pages(items)| ::
              Pages(items)[i].extended <==> |items| == 1 && items[0].fileSize.Some? && items[0].checksum != []
  {
    SplitSound(items);
    SplitBrief(items);
    if |items| == 1 && items[0].fileSize.Some? && items[0].checksum != [] {
      assert [MetaResp(items, true)][1..] == [];
      PacketNumbers.DivModUnique(|items|, MAX_META_ITEMS, 0, |items|);
    }
  }

  lemma {:induction false} SplitBrief(items: seq<MetaItem>)
    ensures forall i | 0 <= i < |Split(items)| :: Split(items)[i].MetaResp? && !Split(items)[i].extended
    decreases |items|
  {
    if |items| >= MAX_META_ITEMS {
      SplitBrief(items[MAX_META_ITEMS..]);
    }
  }

  lemma {:induction false} SplitWellFormed(items: seq<MetaItem>)
    requires forall i | 0 <= i < |items| :: GoodItem(items[i], false)
    ensures AllWellFormed(Split(items))
    decreases |items|
  {
    if |items| >= MAX_META_ITEMS {
      var page := MetaResp(items[..MAX_META_ITEMS], false);
      SplitWellFormed(items[MAX_META_ITEMS..]);
      assert WellFormed(page);
    }
  }

  /** Pages of directory listings, and of a single file, can be sent. */
  lemma PagesWellFormed(items: seq<MetaItem>)
    requires (|items| == 1 && GoodItem(items[0], true)) || forall i | 0 <= i < |items| :: GoodItem(items[i], false)
    ensures AllWellFormed(Pages(items))
  {
    if |items| == 1 && GoodItem(items[0], true) {
      assert WellFormed(MetaResp(items, true));
    } else {
      SplitWellFormed(items);
    }
  }

  // ------------------------------------------------------- putting together

  /** What the client takes from its channel: pages up to the first that is not full; None while
      that page has not arrived. */
  function Collected(channel: seq<Message>): Option<seq<Message>>
  {
    if channel == [] then None
    else if Last(channel[0]) then Some([channel[0]])
    else
      match Collected(channel[1..])
      case None => None
      case Some(more) => Some([channel[0]] + more)
  }

  function After(before: seq<Message>, more: Option<seq<Message>>): Option<seq<Message>>
  {
    if more.None? then None else Some(before + more.value)
  }

  method CollectPages(channel: seq<Message>) returns (resps: seq<Message>, complete: bool)
    ensures Collected(channel) == if complete then Some(resps) else None
  {
    resps, complete := [], false;
    var left := channel;
    ghost var all := Collected(channel);
    assert all.Some? ==> [] + all.value == all.value;
    while left != []
      invariant Collected(channel) == After(resps, Collected(left))
    {
      var page := left[0];
      ghost var more := Collected(left[1..]);
      assert more.Some? ==> resps + ([page] + more.value) == (resps + [page]) + more.value;
      resps, left := resps + [page], left[1..];
      if Last(page) {
        complete := true;
        return;
      }
    }
  }

  /** A request whose channel holds part of a listing is finished exactly when it holds all of it. */
  lemma {:induction false} CollectedListing(pages: seq<Message>, n: nat)
    requires Listing(pages) && n <= |pages|
    ensures Collected(pages[..n]) == if n == |pages| then Some(pages) else None
    decreases |pages|
  {
    if n == 0 {
    } else {
      assert pages[..n][1..] == pages[1..][..n - 1];
      if |pages| > 1 {
        assert forall i | 0 <= i < |pages| - 1 :: pages[1..][i] == pages[i + 1];
        CollectedListing(pages[1..], n - 1);
        assert pages == [pages[0]] + pages[1..];
      } else {
        assert pages == [pages[0]];
      }
    }
  }

  // ----------------------------------------------- pages that cannot be encoded

  /** The server skips a page that it cannot encode. */
  function Sent(pages: seq<Message>): seq<Message>
  {
    if pages == [] then []
    else if Encode(pages[0]).Ok? then [pages[0]] + Sent(pages[1..])
    else Sent(pages[1..])
  }

  ghost predicate Encodable(pages: seq<Message>)
  {
    forall i | 0 <= i < |pages| :: Encode(pages[i]).Ok?
  }

  method SendPages(pages: seq<Message>) returns (out: seq<Message>)
    ensures out == Sent(pages)
  {
    hide Encode;
    out := [];
    var i := 0;
    assert pages[0..] == pages && [] + Sent(pages) == Sent(pages);
    while i < |pages|
      invariant 0 <= i <= |pages|
      invariant out + Sent(pages[i..]) == Sent(pages)
    {
      assert pages[i..][0] == pages[i] && pages[i..][1..] == pages[i + 1..];
      if Encode(pages[i]).Ok? {
        assert out + ([pages[i]] + Sent(pages[i + 1..])) == (out + [pages[i]]) + Sent(pages[i + 1..]);
        out := out + [pages[i]];
      }
      i := i + 1;
    }
  }

  /** The client's loop ends if and only if the last page can be encoded, and it has the whole listing
      if and only if every page can. */
  lemma {:induction false} ListingEnds(pages: seq<Message>)
    requires Listing(pages)
    ensures Collected(Sent(pages)).Some? <==> Encode(pages[|pages| - 1]).Ok?
    ensures Collected(Sent(pages)) == Some(pages) <==> Encodable(pages)
    ensures Collected(Sent(pages)).Some? ==> |Collected(Sent(pages)).value| <= |pages|
    decreases |pages|
  {
    hide Encode;
    var rest := pages[1..];
    assert pages == [pages[0]] + rest;
    if rest == [] {
      assert pages == [pages[0]] && [pages[0]][1..] == [];
      assert Encodable(pages) <==> Encode(pages[0]).Ok?;
      assert Encode(pages[0]).Ok? ==> Collected(Sent(pages)) == Some([pages[0]]);
    } else {
      assert forall i | 0 <= i < |rest| :: rest[i] == pages[i + 1];
      ListingEnds(rest);
      assert Encode(pages[0]).Ok? ==> Sent(pages) == [pages[0]] + Sent(rest);
      assert Encode(pages[0]).Err? ==> Sent(pages) == Sent(rest);
      assert ([pages[0]] + Sent(rest))[1..] == Sent(rest);
      EncodableCons(pages);
      hide Encodable, Sent;
      assert !Last(pages[0]);
      var more, all := Collected(Sent(rest)), Collected(Sent(pages));
      if Encode(pages[0]).Ok? {
        assert all == if more.None? then None else Some([pages[0]] + more.value);
        assert more.Some? ==> ([pages[0]] + more.value)[1..] == more.value;
      } else {
        assert all == more;
      }
    }
  }

  lemma EncodableCons(pages: seq<Message>)
    requires pages != []
    ensures Encodable(pages) <==> Encode(pages[0]).Ok? && Encodable(pages[1..])
  {
    hide Encode;
    assert forall i | 0 < i < |pages| :: pages[i] == pages[1..][i - 1];
  }

  /** A file whose path is longer than 255 bytes is never listed: the client waits for ever. */
  lemma LongPathNeverListed(item: MetaItem)
    requires |item.fileName| > 255
    ensures Collected(Sent(Pages([item]))) == None
  {
    PagesSound([item]);
    var page := Pages([item])[0];
    assert page.items == [item];
    assert EncodeItems([item]).Err? by {
      assert [item][..0] == [];
    }
    assert Pages([item]) == [page];
    ListingEnds([page]);
  }
}
