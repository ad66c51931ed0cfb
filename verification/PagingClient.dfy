/** Every stored page is served, and the client's traversal rebuilds the stored lists. */
module PagingClient {
  import opened Text
  import opened Paging

  const MAX_RECEIVED := 25 * 1024 * 1024
  const MAX_STATE := 25 * 1024 * 1024

  // Serving what was stored

  ghost predicate DistinctKeys<T>(pages: seq<Page<T>>) {
    forall i, j | 0 <= i < j < |pages| :: pages[i].kind != pages[j].kind || pages[i].offset != pages[j].offset
  }

  lemma {:induction false} FileOfPage<T>(pages: seq<Page<T>>, i: nat)
    requires i < |pages| && DistinctKeys(pages)
    ensures (pages[i].kind, pages[i].offset) in FilesOf(pages)
    ensures FilesOf(pages)[(pages[i].kind, pages[i].offset)] == pages[i]
  {
    if i < |pages| - 1 { FileOfPage(pages[..|pages| - 1], i); }
  }

  lemma {:induction false} IndexOfStored<T>(pages: seq<Page<T>>, coding: Coding<T>, i: nat)
    requires i < |pages| && DistinctKeys(pages)
    ensures Selected(IndexesOf(pages, coding), pages[i].kind, pages[i].offset) == Some(IndexOfPage(pages[i], coding))
  {
    var index := IndexesOf(pages, coding);
    assert index[0] == IndexOfPage(pages[0], coding);
    if i > 0 {
      assert index[1..] == IndexesOf(pages[1..], coding);
      IndexOfStored(pages[1..], coding, i - 1);
    }
  }

  /** A good page of a distinctly keyed store passes every check of `page_at`. */
  lemma GoodPageServed<T>(pages: seq<Page<T>>, coding: Coding<T>, i: nat, items: seq<T>)
    requires i < |pages| <= MAX_PAGES && DistinctKeys(pages)
    requires GoodPage(pages[i], pages[i].kind, items, coding.bytes) && |items| <= Maximum(pages[i].kind)
    ensures PageAt(StoreOf(pages, coding), coding, pages[i].kind, pages[i].offset) == Some(pages[i])
  {
    FileOfPage(pages, i);
    IndexOfStored(pages, coding, i);
  }

  lemma {:induction false} OffsetsGrow<T>(pages: seq<Page<T>>, kind: Kind, items: seq<T>, bytes: Page<T> -> nat,
                                          offset: nat, i: nat, j: nat)
    requires Tiles(pages, kind, items, bytes, offset) && i < j < |pages|
    ensures pages[i].offset < pages[j].offset
    decreases j
  {
    if i < j - 1 { OffsetsGrow(pages, kind, items, bytes, offset, i, j - 1); }
    assert pages[j - 1].next == Some(pages[j].offset);
    assert GoodPage(pages[j - 1], kind, items, bytes);
  }

  /** All pages are good pages of the list of their kind. */
  ghost predicate GoodStore<T>(pages: seq<Page<T>>, lists: Kind -> seq<T>, bytes: Page<T> -> nat, n: nat)
    requires n <= 3
  {
    && DistinctKeys(pages)
    && (forall i | 0 <= i < |pages| ::
          GoodPage(pages[i], pages[i].kind, lists(pages[i].kind), bytes)
          && |lists(pages[i].kind)| <= Maximum(pages[i].kind)
          && exists k :: 0 <= k < n && KINDS[k] == pages[i].kind)
    && |pages| <= Room(n)
  }

  /** The most pages the first kinds can need. */
  function Room(n: nat): nat { if n == 0 then 0 else if n == 1 then 29_800 else if n == 2 then 39_800 else 40_000 }

  lemma SplitGood<T>(kind: Kind, items: seq<T>, bytes: Page<T> -> nat)
    requires Pages(kind, items, bytes, 0).Some? && |items| <= Maximum(kind)
    ensures var pages := Pages(kind, items, bytes, 0).value;
            && DistinctKeys(pages) && |pages| <= Maximum(kind)
            && forall i | 0 <= i < |pages| :: GoodPage(pages[i], kind, items, bytes) && pages[i].kind == kind
  {
    PagesTile(kind, items, bytes, 0);
    TilesDiffer(Pages(kind, items, bytes, 0).value, kind, items, bytes);
  }

  lemma TilesDiffer<T>(pages: seq<Page<T>>, kind: Kind, items: seq<T>, bytes: Page<T> -> nat)
    requires Tiles(pages, kind, items, bytes, 0)
    ensures DistinctKeys(pages)
    ensures forall i | 0 <= i < |pages| :: GoodPage(pages[i], kind, items, bytes) && pages[i].kind == kind
  {
    forall i, j | 0 <= i < j < |pages| ensures pages[i].offset != pages[j].offset {
      OffsetsGrow(pages, kind, items, bytes, 0, i, j);
    }
  }

  lemma {:induction false} StoreGood<T>(lists: Kind -> seq<T>, bytes: Page<T> -> nat, n: nat)
    requires n <= 3 && PagesOfKinds(lists, bytes, n).Some?
    ensures GoodStore(PagesOfKinds(lists, bytes, n).value, lists, bytes, n)
  {
    if n > 0 {
      StoreGood(lists, bytes, n - 1);
      var before, kind := PagesOfKinds(lists, bytes, n - 1).value, KINDS[n - 1];
      SplitGood(kind, lists(kind), bytes);
      StoreJoin(before, Pages(kind, lists(kind), bytes, 0).value, lists, bytes, n);
    }
  }

  lemma StoreJoin<T>(before: seq<Page<T>>, pages: seq<Page<T>>, lists: Kind -> seq<T>, bytes: Page<T> -> nat, n: nat)
    requires 0 < n <= 3 && GoodStore(before, lists, bytes, n - 1)
    requires DistinctKeys(pages) && |pages| <= Maximum(KINDS[n - 1]) && |lists(KINDS[n - 1])| <= Maximum(KINDS[n - 1])
    requires forall i | 0 <= i < |pages| ::
               GoodPage(pages[i], KINDS[n - 1], lists(KINDS[n - 1]), bytes) && pages[i].kind == KINDS[n - 1]
    ensures GoodStore(before + pages, lists, bytes, n)
  {
    var all, kind := before + pages, KINDS[n - 1];
    assert forall k | 0 <= k < n - 1 :: KINDS[k] != kind;
    forall i | 0 <= i < |all|
      ensures GoodPage(all[i], all[i].kind, lists(all[i].kind), bytes) && |lists(all[i].kind)| <= Maximum(all[i].kind)
      ensures exists k :: 0 <= k < n && KINDS[k] == all[i].kind
    {
      if i < |before| {
        var k :| 0 <= k < n - 1 && KINDS[k] == before[i].kind;
        assert 0 <= k < n && KINDS[k] == all[i].kind;
      } else {
        assert all[i] == pages[i - |before|];
      }
    }
    forall i, j | 0 <= i < j < |all| ensures all[i].kind != all[j].kind || all[i].offset != all[j].offset {
      if i < |before| <= j {
        var k :| 0 <= k < n - 1 && KINDS[k] == before[i].kind;
        assert all[j] == pages[j - |before|];
      } else if |before| <= i {
        assert all[i] == pages[i - |before|] && all[j] == pages[j - |before|];
      } else {
        assert all[i] == before[i] && all[j] == before[j];
      }
    }
  }

  /** Every page of a stored snapshot is served, and the index never has too many of them. */
  lemma EveryPageServed<T>(lists: Kind -> seq<T>, coding: Coding<T>, i: nat)
    requires PagesOfKinds(lists, coding.bytes, 3).Some? && i < |PagesOfKinds(lists, coding.bytes, 3).value|
    ensures var pages := PagesOfKinds(lists, coding.bytes, 3).value;
            && |pages| <= MAX_PAGES
            && PageAt(StoreOf(pages, coding), coding, pages[i].kind, pages[i].offset) == Some(pages[i])
  {
    var pages := PagesOfKinds(lists, coding.bytes, 3).value;
    StoreGood(lists, coding.bytes, 3);
    GoodPageServed(pages, coding, i, lists(pages[i].kind));
  }

  // The client

  /** An answer to one page request: none, or a well-formed page under a snapshot name, with the
      bytes it takes as text. */
  datatype Reply<T> =
    | NoReply
    | Reply(snapshot: string, kind: Kind, offset: int, total: int, items: seq<T>, next: Option<int>, bytes: nat)

  type Server<!T> = (Kind, nat) -> Reply<T>

  /** The checks of one turn of the page loop; `received` counts this reply too. */
  predicate Acceptable<T>(r: Reply<T>, snapshot: string, kind: Kind, offset: nat, total: nat, received: nat,
                          valid: T -> bool)
  {
    && r.Reply?
    && r.snapshot == snapshot && r.kind == kind && r.offset == offset && r.total == total
    && |r.items| <= MAX_PAGE_ITEMS && r.bytes <= MAX_PAGE_BYTES && received <= MAX_RECEIVED
    && var next := offset + |r.items|;
    && next <= total
    && (next < total ==> r.items != [] && r.next == Some(next))
    && (next == total ==> r.next == None)
    && forall i | 0 <= i < |r.items| :: valid(r.items[i])
  }

  datatype Fetched<T> = Refused | Fetched(items: seq<T>, received: nat)

  /** What the page loop collects from an offset on. */
  function Traverse<T>(server: Server<T>, snapshot: string, kind: Kind, total: nat, valid: T -> bool,
                       offset: nat, received: nat): Fetched<T>
    requires offset <= total
    decreases total - offset
  {
    var r := server(kind, offset);
    if r.NoReply? || !Acceptable(r, snapshot, kind, offset, total, received + r.bytes, valid) then Refused
    else if offset + |r.items| == total then Fetched(r.items, received + r.bytes)
    else match Traverse(server, snapshot, kind, total, valid, offset + |r.items|, received + r.bytes)
    case Refused => Refused
    case Fetched(items, sum) => Fetched(r.items + items, sum)
  }

  /** The page loop of `refresh` for one kind.  It ends whatever the server answers. */
  method FetchKind<T>(server: Server<T>, snapshot: string, kind: Kind, total: nat, valid: T -> bool, received: nat)
    returns (r: Fetched<T>)
    ensures r == Traverse(server, snapshot, kind, total, valid, 0, received)
  {
    var items: seq<T>, offset: nat, sum: nat := [], 0, received;
    ghost var whole := Traverse(server, snapshot, kind, total, valid, 0, received);
    assert whole.Fetched? ==> items + whole.items == whole.items;
    while true
      invariant offset <= total && |items| == offset
      invariant FetchedSoFar(whole, items, Traverse(server, snapshot, kind, total, valid, offset, sum))
      decreases total - offset
    {
      var page := server(kind, offset);
      if page.NoReply? || !Acceptable(page, snapshot, kind, offset, total, sum + page.bytes, valid) {
        return Refused;
      }
      AcceptedNext(page, snapshot, kind, offset, total, sum + page.bytes, valid);
      FetchStep(whole, items, server, snapshot, kind, total, valid, offset, sum);
      items, sum, offset := items + page.items, sum + page.bytes, offset + |page.items|;
      if page.next == None || offset >= total {
        break;
      }
    }
    if |items| != total {
      return Refused;
    }
    return Fetched(items, sum);
  }

  lemma AcceptedNext<T>(r: Reply<T>, snapshot: string, kind: Kind, offset: nat, total: nat, received: nat, valid: T -> bool)
    requires Acceptable(r, snapshot, kind, offset, total, received, valid)
    ensures r.Reply? && offset + |r.items| <= total && (r.next == None <==> offset + |r.items| == total)
    ensures offset + |r.items| < total ==> r.items != []
  {
  }

  ghost predicate FetchedSoFar<T>(whole: Fetched<T>, items: seq<T>, rest: Fetched<T>) {
    whole == match rest case Refused => Refused case Fetched(more, sum) => Fetched(items + more, sum)
  }

  lemma FetchStep<T>(whole: Fetched<T>, items: seq<T>, server: Server<T>, snapshot: string, kind: Kind, total: nat,
                     valid: T -> bool, offset: nat, sum: nat)
    requires offset <= total
    requires FetchedSoFar(whole, items, Traverse(server, snapshot, kind, total, valid, offset, sum))
    requires server(kind, offset).Reply?
    requires Acceptable(server(kind, offset), snapshot, kind, offset, total, sum + server(kind, offset).bytes, valid)
    ensures var r := server(kind, offset);
            if offset + |r.items| == total then whole == Fetched(items + r.items, sum + r.bytes)
            else FetchedSoFar(whole, items + r.items,
                              Traverse(server, snapshot, kind, total, valid, offset + |r.items|, sum + r.bytes))
  {
    var r := server(kind, offset);
    if offset + |r.items| < total {
      match Traverse(server, snapshot, kind, total, valid, offset + |r.items|, sum + r.bytes) {
        case Refused =>
        case Fetched(more, _) => assert items + (r.items + more) == (items + r.items) + more;
      }
    }
  }

  /** Whatever the server answers, an accepted traversal has exactly the missing items, all of them
      valid, and stayed within the byte limit. */
  lemma {:induction false} AcceptedIsComplete<T>(server: Server<T>, snapshot: string, kind: Kind, total: nat,
                                                 valid: T -> bool, offset: nat, received: nat)
    requires offset <= total && Traverse(server, snapshot, kind, total, valid, offset, received).Fetched?
    ensures var r := Traverse(server, snapshot, kind, total, valid, offset, received);
            && |r.items| == total - offset && r.received <= MAX_RECEIVED
            && forall i | 0 <= i < |r.items| :: valid(r.items[i])
    decreases total - offset
  {
    var r := server(kind, offset);
    if offset + |r.items| < total {
      AcceptedIsComplete(server, snapshot, kind, total, valid, offset + |r.items|, received + r.bytes);
    }
  }

  // What an accepted traversal was made of

  /** Replies that follow one another from an offset to the end: each is the server's answer to the
      request at its place, under the announced snapshot and total, and names the next place. */
  ghost predicate Chain<T>(server: Server<T>, snapshot: string, kind: Kind, total: nat, offset: nat, replies: seq<Reply<T>>)
    decreases |replies|
  {
    && replies != []
    && var r := replies[0];
    && r == server(kind, offset) && r.Reply?
    && r.snapshot == snapshot && r.kind == kind && r.offset == offset && r.total == total
    && |r.items| <= 128 && r.bytes <= 524_288
    && if |replies| == 1 then r.next == None && offset + |r.items| == total
       else r.items != [] && r.next == Some(offset + |r.items|) && offset + |r.items| < total
            && Chain(server, snapshot, kind, total, offset + |r.items|, replies[1..])
  }

  ghost predicate AllReplies<T>(replies: seq<Reply<T>>) { forall i | 0 <= i < |replies| :: replies[i].Reply? }

  ghost function ItemsIn<T>(replies: seq<Reply<T>>): seq<T>
    requires AllReplies(replies)
  {
    if replies == [] then [] else replies[0].items + ItemsIn(replies[1..])
  }

  ghost function BytesIn<T>(replies: seq<Reply<T>>): nat
    requires AllReplies(replies)
  {
    if replies == [] then 0 else replies[0].bytes + BytesIn(replies[1..])
  }

  lemma {:induction false} ChainReplies<T>(server: Server<T>, snapshot: string, kind: Kind, total: nat, offset: nat,
                                           replies: seq<Reply<T>>)
    requires Chain(server, snapshot, kind, total, offset, replies)
    ensures AllReplies(replies)
    decreases |replies|
  {
    if |replies| > 1 {
      ChainReplies(server, snapshot, kind, total, offset + |replies[0].items|, replies[1..]);
      assert replies == [replies[0]] + replies[1..];
    }
  }

  /** Whatever the server answers, what is accepted are the items of such a chain. */
  lemma {:induction false} AcceptedIsChain<T>(server: Server<T>, snapshot: string, kind: Kind, total: nat, valid: T -> bool,
                                              offset: nat, received: nat) returns (replies: seq<Reply<T>>)
    requires offset <= total && Traverse(server, snapshot, kind, total, valid, offset, received).Fetched?
    ensures Chain(server, snapshot, kind, total, offset, replies) && AllReplies(replies)
    ensures Traverse(server, snapshot, kind, total, valid, offset, received)
            == Fetched(ItemsIn(replies), received + BytesIn(replies))
    decreases total - offset
  {
    var r := server(kind, offset);
    if offset + |r.items| == total {
      replies := [r];
      assert replies[1..] == [] && r.items + [] == r.items;
    } else {
      var rest := AcceptedIsChain(server, snapshot, kind, total, valid, offset + |r.items|, received + r.bytes);
      replies := [r] + rest;
      assert replies[1..] == rest;
    }
  }

  /** And the items of every such chain are accepted, when they are valid and the bytes stay within the
      total. */
  lemma {:induction false} ChainIsAccepted<T>(server: Server<T>, snapshot: string, kind: Kind, total: nat, valid: T -> bool,
                                              offset: nat, received: nat, replies: seq<Reply<T>>)
    requires offset <= total && Chain(server, snapshot, kind, total, offset, replies) && AllReplies(replies)
    requires AllValid(ItemsIn(replies), valid) && received + BytesIn(replies) <= 26_214_400
    ensures Traverse(server, snapshot, kind, total, valid, offset, received)
            == Fetched(ItemsIn(replies), received + BytesIn(replies))
    decreases |replies|
  {
    var r, rest := replies[0], replies[1..];
    assert ItemsIn(replies) == r.items + ItemsIn(rest);
    FirstValid(r.items, ItemsIn(rest), valid);
    if |replies| == 1 {
      assert rest == [] && r.items + [] == r.items;
    } else {
      ChainIsAccepted(server, snapshot, kind, total, valid, offset + |r.items|, received + r.bytes, rest);
    }
  }

  lemma FirstValid<T>(a: seq<T>, b: seq<T>, valid: T -> bool)
    requires AllValid(a + b, valid)
    ensures AllValid(a, valid) && AllValid(b, valid)
  {
    forall i | 0 <= i < |a| ensures valid(a[i]) { assert (a + b)[i] == a[i]; }
    forall i | 0 <= i < |b| ensures valid(b[i]) { assert (a + b)[|a| + i] == b[i]; }
  }

  // Pages changed on disk

  /** Different pages have different digests. */
  ghost predicate Separates<T(!new)>(coding: Coding<T>) { forall p, q :: coding.digest(p) == coding.digest(q) ==> p == q }

  lemma {:induction false} SelectedIs<T>(pages: seq<Page<T>>, coding: Coding<T>, kind: Kind, offset: nat) returns (i: nat)
    requires Selected(IndexesOf(pages, coding), kind, offset).Some?
    ensures i < |pages| && pages[i].kind == kind && pages[i].offset == offset
    ensures Selected(IndexesOf(pages, coding), kind, offset) == Some(IndexOfPage(pages[i], coding))
  {
    var index := IndexesOf(pages, coding);
    assert index[0] == IndexOfPage(pages[0], coding);
    if pages[0].kind == kind && pages[0].offset == offset {
      i := 0;
    } else {
      assert index[1..] == IndexesOf(pages[1..], coding);
      var j := SelectedIs(pages[1..], coding, kind, offset);
      i := j + 1;
    }
  }

  /** Whatever became of the files, what is served under the stored index is a stored page. */
  lemma ServedIsStored<T(!new)>(pages: seq<Page<T>>, coding: Coding<T>, files: map<(Kind, nat), Page<T>>, kind: Kind,
                                offset: nat, p: Page<T>)
    requires Separates(coding) && PageAt(Store(IndexesOf(pages, coding), files), coding, kind, offset) == Some(p)
    ensures p in pages && p.kind == kind && p.offset == offset
  {
    var i := SelectedIs(pages, coding, kind, offset);
    assert coding.digest(p) == coding.digest(pages[i]);
  }

  // The round trip

  /** The companion's answer to a page request, measured as the client measures it. */
  function Answer<T>(store: Store<T>, coding: Coding<T>, snapshot: string, measure: Page<T> -> nat,
                     kind: Kind, offset: nat): Reply<T>
  {
    match PageAt(store, coding, kind, offset)
    case None => NoReply
    case Some(p) => Reply(snapshot, p.kind, p.offset, p.total, p.items, p.next, measure(p))
  }

  function Companion<T>(store: Store<T>, coding: Coding<T>, snapshot: string, measure: Page<T> -> nat): Server<T> {
    (kind: Kind, offset: nat) => Answer(store, coding, snapshot, measure, kind, offset)
  }

  /** Serves these pages as they are. */
  ghost predicate Serves<T>(server: Server<T>, pages: seq<Page<T>>, snapshot: string, measure: Page<T> -> nat) {
    forall i | 0 <= i < |pages| ::
      var p := pages[i];
      server(p.kind, p.offset) == Reply(snapshot, p.kind, p.offset, p.total, p.items, p.next, measure(p))
  }

  lemma TilesTail<T>(pages: seq<Page<T>>, kind: Kind, items: seq<T>, bytes: Page<T> -> nat, offset: nat)
    requires Tiles(pages, kind, items, bytes, offset) && |pages| > 1
    ensures Tiles(pages[1..], kind, items, bytes, pages[1].offset)
    ensures pages[1].offset == offset + |pages[0].items| < |items|
  {
    assert pages[0].next == Some(pages[1].offset);
    assert GoodPage(pages[0], kind, items, bytes);
  }

  lemma LastPageEnds<T>(pages: seq<Page<T>>, kind: Kind, items: seq<T>, bytes: Page<T> -> nat, offset: nat)
    requires Tiles(pages, kind, items, bytes, offset) && |pages| == 1
    ensures pages[0].next == None && pages[0].items == items[offset..]
  {
    assert GoodPage(pages[0], kind, items, bytes);
  }

  lemma {:induction false} BytesHead<T>(pages: seq<Page<T>>, bytes: Page<T> -> nat)
    requires pages != []
    ensures Bytes(pages, bytes) == bytes(pages[0]) + Bytes(pages[1..], bytes)
  {
    assert pages == [pages[0]] + pages[1..];
    BytesConcat([pages[0]], pages[1..], bytes);
    assert Bytes([pages[0]], bytes) == bytes(pages[0]) + Bytes([], bytes);
  }

  /** A stored page is never too long for the client, which measures it under its envelope. */
  ghost predicate Measures<T(!new)>(measure: Page<T> -> nat, bytes: Page<T> -> nat) {
    forall p :: measure(p) <= bytes(p) + ENVELOPE
  }

  ghost predicate AllValid<T>(items: seq<T>, valid: T -> bool) { forall i | 0 <= i < |items| :: valid(items[i]) }

  /** The next page as the client sees it: acceptable exactly within the client's total. */
  lemma FirstReply<T(!new)>(server: Server<T>, snapshot: string, kind: Kind, items: seq<T>, bytes: Page<T> -> nat,
                      measure: Page<T> -> nat, valid: T -> bool, pages: seq<Page<T>>, offset: nat, received: nat)
    requires offset <= |items| && Tiles(pages, kind, items, bytes, offset) && Serves(server, pages, snapshot, measure)
    requires Measures(measure, bytes) && AllValid(items, valid)
    ensures server(kind, offset) == Reply(snapshot, kind, offset, |items|, pages[0].items, pages[0].next, measure(pages[0]))
    ensures Acceptable(server(kind, offset), snapshot, kind, offset, |items|, received + measure(pages[0]), valid)
            <==> received + measure(pages[0]) <= MAX_RECEIVED
    ensures offset + |pages[0].items| <= |items| && pages[0].items == items[offset..offset + |pages[0].items|]
  {
    assert GoodPage(pages[0], kind, items, bytes);
    assert server(pages[0].kind, pages[0].offset).Reply?;
  }

  /** Traversing tiling pages gives all items back exactly when they stay within the total. */
  lemma {:induction false} TraverseTiles<T(!new)>(server: Server<T>, snapshot: string, kind: Kind, items: seq<T>,
                                            bytes: Page<T> -> nat, measure: Page<T> -> nat, valid: T -> bool,
                                            pages: seq<Page<T>>, offset: nat, received: nat)
    requires offset <= |items| && Tiles(pages, kind, items, bytes, offset) && Serves(server, pages, snapshot, measure)
    requires Measures(measure, bytes) && AllValid(items, valid)
    ensures Traverse(server, snapshot, kind, |items|, valid, offset, received)
            == if received + Bytes(pages, measure) <= MAX_RECEIVED
               then Fetched(items[offset..], received + Bytes(pages, measure)) else Refused
    decreases |pages|
  {
    BytesHead(pages, measure);
    FirstReply(server, snapshot, kind, items, bytes, measure, valid, pages, offset, received);
    if |pages| == 1 {
      LastPageEnds(pages, kind, items, bytes, offset);
    } else {
      TilesTail(pages, kind, items, bytes, offset);
      TailServed(server, pages, snapshot, measure);
      TraverseTiles(server, snapshot, kind, items, bytes, measure, valid, pages[1..], pages[1].offset,
                    received + measure(pages[0]));
      CutJoin(items, offset, pages[1].offset);
    }
  }

  lemma TailServed<T>(server: Server<T>, pages: seq<Page<T>>, snapshot: string, measure: Page<T> -> nat)
    requires pages != [] && Serves(server, pages, snapshot, measure)
    ensures Serves(server, pages[1..], snapshot, measure)
  {
    assert forall i | 0 <= i < |pages[1..]| :: pages[1..][i] == pages[i + 1];
  }

  lemma CutJoin<T>(items: seq<T>, lo: nat, hi: nat)
    requires lo <= hi <= |items|
    ensures items[lo..hi] + items[hi..] == items[lo..]
  {
  }

  lemma Regroup<T>(a: seq<T>, b: seq<T>, c: seq<T>, d: seq<T>)
    ensures a + b + c + d == a + b + (c + d)
    ensures a + b + [] == a + b
  {
  }

  lemma StoredSplit<T>(lists: Kind -> seq<T>, bytes: Page<T> -> nat, n: nat, k: nat) returns (before: seq<Page<T>>, after: seq<Page<T>>)
    requires k < n <= 3 && PagesOfKinds(lists, bytes, n).Some?
    ensures Pages(KINDS[k], lists(KINDS[k]), bytes, 0).Some?
    ensures PagesOfKinds(lists, bytes, n).value == before + Pages(KINDS[k], lists(KINDS[k]), bytes, 0).value + after
    decreases n
  {
    var earlier := PagesOfKinds(lists, bytes, n - 1).value;
    var last := Pages(KINDS[n - 1], lists(KINDS[n - 1]), bytes, 0).value;
    if k == n - 1 {
      before, after := earlier, [];
      Regroup(before, last, after, []);
      assert after + [] == [];
    } else {
      before, after := StoredSplit(lists, bytes, n - 1, k);
      var pages := Pages(KINDS[k], lists(KINDS[k]), bytes, 0).value;
      Regroup(before, pages, after, last);
      after := after + last;
    }
  }

  lemma PageStored<T>(lists: Kind -> seq<T>, coding: Coding<T>, p: Page<T>, k: nat)
    requires k < 3 && PagesOfKinds(lists, coding.bytes, 3).Some? && Pages(KINDS[k], lists(KINDS[k]), coding.bytes, 0).Some?
    requires p in Pages(KINDS[k], lists(KINDS[k]), coding.bytes, 0).value
    ensures PageAt(StoreOf(PagesOfKinds(lists, coding.bytes, 3).value, coding), coding, p.kind, p.offset) == Some(p)
  {
    var all := PagesOfKinds(lists, coding.bytes, 3).value;
    var before, after := StoredSplit(lists, coding.bytes, 3, k);
    assert p in all;
    var i :| 0 <= i < |all| && all[i] == p;
    EveryPageServed(lists, coding, i);
  }

  lemma KindStored<T>(lists: Kind -> seq<T>, bytes: Page<T> -> nat, k: nat)
    requires k < 3 && PagesOfKinds(lists, bytes, 3).Some?
    ensures Pages(KINDS[k], lists(KINDS[k]), bytes, 0).Some?
  {
    var before, after := StoredSplit(lists, bytes, 3, k);
  }

  lemma StoredServed<T>(lists: Kind -> seq<T>, coding: Coding<T>, snapshot: string, measure: Page<T> -> nat, k: nat)
    requires k < 3 && PagesOfKinds(lists, coding.bytes, 3).Some?
    ensures Pages(KINDS[k], lists(KINDS[k]), coding.bytes, 0).Some?
    ensures Serves(Companion(StoreOf(PagesOfKinds(lists, coding.bytes, 3).value, coding), coding, snapshot, measure),
                   Pages(KINDS[k], lists(KINDS[k]), coding.bytes, 0).value, snapshot, measure)
  {
    KindStored(lists, coding.bytes, k);
    var pages := Pages(KINDS[k], lists(KINDS[k]), coding.bytes, 0).value;
    forall i | 0 <= i < |pages|
      ensures PageAt(StoreOf(PagesOfKinds(lists, coding.bytes, 3).value, coding), coding, pages[i].kind, pages[i].offset)
              == Some(pages[i])
    {
      assert pages[i] in pages;
      PageStored(lists, coding, pages[i], k);
    }
  }

  /** One stored list comes back exactly when its own pages fit what is left of the total. */
  lemma ListRoundTrip<T(!new)>(lists: Kind -> seq<T>, coding: Coding<T>, snapshot: string, measure: Page<T> -> nat,
                         valid: T -> bool, k: nat, received: nat)
    requires k < 3 && PagesOfKinds(lists, coding.bytes, 3).Some?
    requires Measures(measure, coding.bytes) && AllValid(lists(KINDS[k]), valid)
    ensures Pages(KINDS[k], lists(KINDS[k]), coding.bytes, 0).Some?
    ensures var server := Companion(StoreOf(PagesOfKinds(lists, coding.bytes, 3).value, coding), coding, snapshot, measure);
            var sum := received + Bytes(Pages(KINDS[k], lists(KINDS[k]), coding.bytes, 0).value, measure);
            Traverse(server, snapshot, KINDS[k], |lists(KINDS[k])|, valid, 0, received)
            == if sum <= MAX_RECEIVED then Fetched(lists(KINDS[k]), sum) else Refused
  {
    var items, kind := lists(KINDS[k]), KINDS[k];
    var server := Companion(StoreOf(PagesOfKinds(lists, coding.bytes, 3).value, coding), coding, snapshot, measure);
    StoredServed(lists, coding, snapshot, measure, k);
    PagesTile(kind, items, coding.bytes, 0);
    TraverseTiles(server, snapshot, kind, items, coding.bytes, measure, valid,
                  Pages(kind, items, coding.bytes, 0).value, 0, received);
  }

  // The whole refresh

  datatype Refreshed<T> = Failed | Refreshed(lists: seq<seq<T>>, received: nat)

  /** The lists of the first `n` kinds, one after the other, with the bytes received so far. */
  function RefreshOf<T>(server: Server<T>, snapshot: string, totals: Kind -> nat, valid: Kind -> T -> bool,
                        received: nat, n: nat): Refreshed<T>
    requires n <= 3
  {
    if n == 0 then Refreshed([], received) else
      match RefreshOf(server, snapshot, totals, valid, received, n - 1)
      case Failed => Failed
      case Refreshed(lists, sum) =>
        match Traverse(server, snapshot, KINDS[n - 1], totals(KINDS[n - 1]), valid(KINDS[n - 1]), 0, sum)
        case Refused => Failed
        case Fetched(items, more) => Refreshed(lists + [items], more)
  }

  lemma RefreshFails<T>(server: Server<T>, snapshot: string, totals: Kind -> nat, valid: Kind -> T -> bool,
                        received: nat, n: nat)
    requires n <= 3 && RefreshOf(server, snapshot, totals, valid, received, n) == Failed
    ensures RefreshOf(server, snapshot, totals, valid, received, 3) == Failed
    decreases 3 - n
  {
    if n < 3 { RefreshFails(server, snapshot, totals, valid, received, n + 1); }
  }

  /** The last check of `refresh`: the state it is about to return must fit as a whole. */
  function Whole<T>(r: Refreshed<T>, size: seq<seq<T>> -> nat): Refreshed<T> {
    if r.Refreshed? && size(r.lists) <= MAX_STATE then r else Failed
  }

  /** The loop of `refresh` over the three kinds, with one count of received bytes for all, and its
      last check; `size` measures a whole state with these lists. */
  method Refresh<T>(server: Server<T>, snapshot: string, totals: Kind -> nat, valid: Kind -> T -> bool, received: nat,
                    size: seq<seq<T>> -> nat)
    returns (r: Refreshed<T>)
    ensures r == Whole(RefreshOf(server, snapshot, totals, valid, received, 3), size)
  {
    var lists: seq<seq<T>>, sum: nat := [], received;
    for n := 0 to 3
      invariant RefreshOf(server, snapshot, totals, valid, received, n) == Refreshed(lists, sum)
    {
      var fetched := FetchKind(server, snapshot, KINDS[n], totals(KINDS[n]), valid(KINDS[n]), sum);
      if fetched == Refused {
        RefreshFails(server, snapshot, totals, valid, received, n + 1);
        return Failed;
      }
      lists, sum := lists + [fetched.items], fetched.received;
    }
    if size(lists) > MAX_STATE {
      return Failed;
    }
    return Refreshed(lists, sum);
  }

  /** Whatever the server answers, an accepted refresh has all three lists at their announced
      lengths, every item valid, within one total of bytes. */
  lemma {:induction false} AcceptedRefresh<T>(server: Server<T>, snapshot: string, totals: Kind -> nat,
                                              valid: Kind -> T -> bool, received: nat, n: nat)
    requires n <= 3 && RefreshOf(server, snapshot, totals, valid, received, n).Refreshed?
    ensures var r := RefreshOf(server, snapshot, totals, valid, received, n);
            && |r.lists| == n && (n > 0 ==> r.received <= MAX_RECEIVED)
            && forall k | 0 <= k < n :: |r.lists[k]| == totals(KINDS[k]) && AllValid(r.lists[k], valid(KINDS[k]))
  {
    if n > 0 {
      AcceptedRefresh(server, snapshot, totals, valid, received, n - 1);
      var sum := RefreshOf(server, snapshot, totals, valid, received, n - 1).received;
      AcceptedIsComplete(server, snapshot, KINDS[n - 1], totals(KINDS[n - 1]), valid(KINDS[n - 1]), 0, sum);
    }
  }

  lemma KindsGrow<T>(lists: Kind -> seq<T>, bytes: Page<T> -> nat, measure: Page<T> -> nat, n: nat)
    requires 0 < n <= 3 && PagesOfKinds(lists, bytes, n).Some?
    ensures PagesOfKinds(lists, bytes, n - 1).Some? && Pages(KINDS[n - 1], lists(KINDS[n - 1]), bytes, 0).Some?
    ensures Bytes(PagesOfKinds(lists, bytes, n).value, measure)
            == Bytes(PagesOfKinds(lists, bytes, n - 1).value, measure)
               + Bytes(Pages(KINDS[n - 1], lists(KINDS[n - 1]), bytes, 0).value, measure)
  {
    BytesConcat(PagesOfKinds(lists, bytes, n - 1).value, Pages(KINDS[n - 1], lists(KINDS[n - 1]), bytes, 0).value, measure);
  }

  function FirstLists<T>(lists: Kind -> seq<T>, n: nat): seq<seq<T>>
    requires n <= 3
  {
    seq(n, i requires 0 <= i < n => lists(KINDS[i]))
  }

  /** After these kinds the client has these lists, exactly when it received no more than its total. */
  ghost predicate GivesBack<T>(r: Refreshed<T>, lists: seq<seq<T>>, sum: nat) {
    r == if sum <= MAX_RECEIVED then Refreshed(lists, sum) else Failed
  }

  lemma RefreshStep<T>(server: Server<T>, snapshot: string, totals: Kind -> nat, valid: Kind -> T -> bool,
                       received: nat, n: nat, lists: seq<seq<T>>, before: nat, items: seq<T>, after: nat)
    requires n < 3 && before <= after
    requires if n == 0 then lists == [] && before == received
             else GivesBack(RefreshOf(server, snapshot, totals, valid, received, n), lists, before)
    requires before <= MAX_RECEIVED || n == 0 ==>
               Traverse(server, snapshot, KINDS[n], totals(KINDS[n]), valid(KINDS[n]), 0, before)
               == if after <= MAX_RECEIVED then Fetched(items, after) else Refused
    ensures GivesBack(RefreshOf(server, snapshot, totals, valid, received, n + 1), lists + [items], after)
  {
  }

  function Totals<T>(lists: Kind -> seq<T>): Kind -> nat { (kind: Kind) => |lists(kind)| }

  /** How many bytes the client measures for the pages of one kind. */
  ghost function KindBytes<T>(lists: Kind -> seq<T>, bytes: Page<T> -> nat, measure: Page<T> -> nat, kind: Kind): nat {
    match Pages(kind, lists(kind), bytes, 0) case None => 0 case Some(pages) => Bytes(pages, measure)
  }

  ghost function BytesBefore(size: Kind -> nat, n: nat): nat
    requires n <= 3
  {
    if n == 0 then 0 else BytesBefore(size, n - 1) + size(KINDS[n - 1])
  }

  /** Each list comes back exactly when its own bytes fit what is left. */
  ghost predicate GivesEach<T>(server: Server<T>, snapshot: string, lists: Kind -> seq<T>, valid: Kind -> T -> bool,
                               size: Kind -> nat)
  {
    forall kind: Kind, received: nat ::
      Traverse(server, snapshot, kind, |lists(kind)|, valid(kind), 0, received)
      == if received + size(kind) <= MAX_RECEIVED then Fetched(lists(kind), received + size(kind)) else Refused
  }

  lemma {:induction false} RefreshGivesBack<T>(server: Server<T>, snapshot: string, lists: Kind -> seq<T>,
                                               valid: Kind -> T -> bool, size: Kind -> nat, received: nat, n: nat)
    requires 0 < n <= 3 && GivesEach(server, snapshot, lists, valid, size)
    ensures GivesBack(RefreshOf(server, snapshot, Totals(lists), valid, received, n), FirstLists(lists, n),
                      received + BytesBefore(size, n))
  {
    if n > 1 { RefreshGivesBack(server, snapshot, lists, valid, size, received, n - 1); }
    RefreshStep(server, snapshot, Totals(lists), valid, received, n - 1, FirstLists(lists, n - 1),
                received + BytesBefore(size, n - 1), lists(KINDS[n - 1]), received + BytesBefore(size, n));
    assert FirstLists(lists, n) == FirstLists(lists, n - 1) + [lists(KINDS[n - 1])];
  }

  lemma {:induction false} BytesByKind<T>(lists: Kind -> seq<T>, bytes: Page<T> -> nat, measure: Page<T> -> nat,
                                          size: Kind -> nat, n: nat)
    requires n <= 3 && PagesOfKinds(lists, bytes, n).Some?
    requires forall kind :: size(kind) == KindBytes(lists, bytes, measure, kind)
    ensures Bytes(PagesOfKinds(lists, bytes, n).value, measure) == BytesBefore(size, n)
  {
    if n > 0 {
      KindsGrow(lists, bytes, measure, n);
      BytesByKind(lists, bytes, measure, size, n - 1);
    }
  }

  /** The companion gives each stored list back. */
  lemma StoredGivesEach<T(!new)>(lists: Kind -> seq<T>, coding: Coding<T>, snapshot: string, measure: Page<T> -> nat,
                                 valid: Kind -> T -> bool, size: Kind -> nat)
    requires PagesOfKinds(lists, coding.bytes, 3).Some?
    requires Measures(measure, coding.bytes) && forall kind :: AllValid(lists(kind), valid(kind))
    requires forall kind :: size(kind) == KindBytes(lists, coding.bytes, measure, kind)
    ensures GivesEach(Companion(StoreOf(PagesOfKinds(lists, coding.bytes, 3).value, coding), coding, snapshot, measure),
                      snapshot, lists, valid, size)
  {
    forall kind: Kind, received: nat
      ensures var server := Companion(StoreOf(PagesOfKinds(lists, coding.bytes, 3).value, coding), coding, snapshot, measure);
              Traverse(server, snapshot, kind, |lists(kind)|, valid(kind), 0, received)
              == if received + size(kind) <= MAX_RECEIVED then Fetched(lists(kind), received + size(kind)) else Refused
    {
      KindGives(lists, coding, snapshot, measure, valid(kind), kind, received);
    }
  }

  lemma KindGives<T(!new)>(lists: Kind -> seq<T>, coding: Coding<T>, snapshot: string, measure: Page<T> -> nat,
                           valid: T -> bool, kind: Kind, received: nat)
    requires PagesOfKinds(lists, coding.bytes, 3).Some?
    requires Measures(measure, coding.bytes) && AllValid(lists(kind), valid)
    ensures var server := Companion(StoreOf(PagesOfKinds(lists, coding.bytes, 3).value, coding), coding, snapshot, measure);
            var sum := received + KindBytes(lists, coding.bytes, measure, kind);
            Traverse(server, snapshot, kind, |lists(kind)|, valid, 0, received)
            == if sum <= MAX_RECEIVED then Fetched(lists(kind), sum) else Refused
  {
    var k := match kind case Network => 0 case Cosmetic => 1 case Diagnostics => 2;
    assert KINDS[k] == kind;
    ListRoundTrip(lists, coding, snapshot, measure, valid, k, received);
  }

  lemma AllGivenBack<T>(server: Server<T>, snapshot: string, lists: Kind -> seq<T>, valid: Kind -> T -> bool,
                        size: Kind -> nat, received: nat)
    requires GivesEach(server, snapshot, lists, valid, size)
    ensures GivesBack(RefreshOf(server, snapshot, Totals(lists), valid, received, 3),
                      [lists(Network), lists(Cosmetic), lists(Diagnostics)], received + BytesBefore(size, 3))
  {
    RefreshGivesBack(server, snapshot, lists, valid, size, received, 3);
    assert FirstLists(lists, 3) == [lists(Network), lists(Cosmetic), lists(Diagnostics)];
  }

  /** What `persist_snapshot` stored, `refresh` gives back: all three lists, exactly when the pages of
      all of them together, with what was received before, and the whole state stay within 25 MiB. */
  lemma SnapshotRoundTrip<T(!new)>(lists: Kind -> seq<T>, coding: Coding<T>, snapshot: string, measure: Page<T> -> nat,
                                   valid: Kind -> T -> bool, received: nat, size: seq<seq<T>> -> nat)
    requires PagesOfKinds(lists, coding.bytes, 3).Some?
    requires Measures(measure, coding.bytes) && forall kind :: AllValid(lists(kind), valid(kind))
    ensures var all, three := PagesOfKinds(lists, coding.bytes, 3).value, [lists(Network), lists(Cosmetic), lists(Diagnostics)];
            var server, sum := Companion(StoreOf(all, coding), coding, snapshot, measure), received + Bytes(all, measure);
            Whole(RefreshOf(server, snapshot, Totals(lists), valid, received, 3), size)
            == if sum <= MAX_RECEIVED && size(three) <= MAX_STATE then Refreshed(three, sum) else Failed
  {
    var server := Companion(StoreOf(PagesOfKinds(lists, coding.bytes, 3).value, coding), coding, snapshot, measure);
    ghost var part: Kind -> nat := (kind: Kind) => KindBytes(lists, coding.bytes, measure, kind);
    StoredGivesEach(lists, coding, snapshot, measure, valid, part);
    AllGivenBack(server, snapshot, lists, valid, part, received);
    BytesByKind(lists, coding.bytes, measure, part, 3);
  }
}
