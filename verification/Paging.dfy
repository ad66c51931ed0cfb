/** Snapshot paging: compiled items are cut into byte-bounded pages, stored, and served one by one. */
module Paging {
  import opened Text

  const MAX_PAGE_ITEMS := 128
  const MAX_PAGE_BYTES := 512 * 1024
  const MAX_SNAPSHOT_BYTES := 64 * 1024 * 1024
  const MAX_PAGES := 40_003
  /** Room for the snapshot ID and the protocol envelope. */
  const ENVELOPE := 256

  datatype Kind = Network | Cosmetic | Diagnostics

  function Maximum(kind: Kind): nat {
    match kind case Network => 29_800 case Cosmetic => 10_000 case Diagnostics => 200
  }

  datatype Page<T> = Page(kind: Kind, offset: nat, total: nat, items: seq<T>, next: Option<nat>)

  function PageOf<T>(kind: Kind, items: seq<T>, offset: nat, end: nat): Page<T>
    requires offset <= end <= |items|
  {
    Page(kind, offset, |items|, items[offset..end], if end < |items| then Some(end) else None)
  }

  // Cutting

  /** The halving loop: the first end, going by halves towards the offset, whose page fits. */
  function Fit<T>(kind: Kind, items: seq<T>, bytes: Page<T> -> nat, offset: nat, end: nat): (r: Option<nat>)
    requires offset <= end <= |items|
    ensures r.Some? ==> offset <= r.value <= end && (offset < end ==> offset < r.value)
    ensures r.Some? ==> bytes(PageOf(kind, items, offset, r.value)) + ENVELOPE <= MAX_PAGE_BYTES
    ensures r == None ==>
              bytes(PageOf(kind, items, offset, if offset < end then offset + 1 else end)) + ENVELOPE > MAX_PAGE_BYTES
    decreases end - offset
  {
    if bytes(PageOf(kind, items, offset, end)) + ENVELOPE <= MAX_PAGE_BYTES then Some(end)
    else if end <= offset + 1 then None
    else Fit(kind, items, bytes, offset, offset + (end - offset) / 2)
  }

  function Reach(offset: nat, total: nat): nat {
    if offset + MAX_PAGE_ITEMS <= total then offset + MAX_PAGE_ITEMS else total
  }

  /** The pages from an offset on, or nothing when some item does not fit a page. */
  function Pages<T>(kind: Kind, items: seq<T>, bytes: Page<T> -> nat, offset: nat): Option<seq<Page<T>>>
    requires offset < |items| || offset == |items| == 0
    decreases |items| - offset
  {
    match Fit(kind, items, bytes, offset, Reach(offset, |items|))
    case None => None
    case Some(end) =>
      var page := PageOf(kind, items, offset, end);
      if end == |items| then Some([page])
      else match Pages(kind, items, bytes, end) case None => None case Some(rest) => Some([page] + rest)
  }

  function Bytes<T>(pages: seq<Page<T>>, bytes: Page<T> -> nat): nat {
    if pages == [] then 0 else Bytes(pages[..|pages| - 1], bytes) + bytes(pages[|pages| - 1])
  }

  lemma {:induction false} BytesConcat<T>(a: seq<Page<T>>, b: seq<Page<T>>, bytes: Page<T> -> nat)
    ensures Bytes(a + b, bytes) == Bytes(a, bytes) + Bytes(b, bytes)
  {
    if b == [] {
      assert a + b == a;
    } else {
      assert (a + b)[..|a + b| - 1] == a + b[..|b| - 1];
      BytesConcat(a, b[..|b| - 1], bytes);
    }
  }

  /** What a split must be: the pages of one kind, within the snapshot's bytes. */
  ghost function SplitOf<T>(kind: Kind, items: seq<T>, bytes: Page<T> -> nat, spent: nat): Option<seq<Page<T>>> {
    match Pages(kind, items, bytes, 0)
    case None => None
    case Some(pages) => if spent + Bytes(pages, bytes) <= MAX_SNAPSHOT_BYTES then Some(pages) else None
  }

  method FitPage<T>(kind: Kind, items: seq<T>, bytes: Page<T> -> nat, offset: nat) returns (r: Option<nat>)
    requires offset <= |items|
    ensures r == Fit(kind, items, bytes, offset, Reach(offset, |items|))
  {
    var end := Reach(offset, |items|);
    while true
      invariant offset <= end <= |items|
      invariant Fit(kind, items, bytes, offset, Reach(offset, |items|)) == Fit(kind, items, bytes, offset, end)
      decreases end - offset
    {
      if bytes(PageOf(kind, items, offset, end)) + ENVELOPE <= MAX_PAGE_BYTES {
        return Some(end);
      }
      if end <= offset + 1 {
        return None;
      }
      end := offset + (end - offset) / 2;
    }
  }

  /** The whole split is what was cut so far and the rest. */
  ghost predicate CutSoFar<T>(whole: Option<seq<Page<T>>>, pages: seq<Page<T>>, rest: Option<seq<Page<T>>>) {
    whole == match rest case None => None case Some(more) => Some(pages + more)
  }

  lemma CutOne<T>(whole: Option<seq<Page<T>>>, pages: seq<Page<T>>, page: Page<T>, more: seq<Page<T>>,
                  bytes: Page<T> -> nat)
    requires CutSoFar(whole, pages, Some([page] + more))
    ensures CutSoFar(whole, pages + [page], Some(more))
    ensures Bytes(whole.value, bytes) >= Bytes(pages + [page], bytes) == Bytes(pages, bytes) + bytes(page)
  {
    assert pages + ([page] + more) == pages + [page] + more;
    assert (pages + [page])[..|pages|] == pages;
    BytesConcat(pages + [page], more, bytes);
  }

  lemma CutStep<T>(whole: Option<seq<Page<T>>>, pages: seq<Page<T>>, kind: Kind, items: seq<T>,
                   bytes: Page<T> -> nat, offset: nat, end: nat)
    requires offset < |items| || offset == |items| == 0
    requires Fit(kind, items, bytes, offset, Reach(offset, |items|)) == Some(end)
    requires CutSoFar(whole, pages, Pages(kind, items, bytes, offset))
    ensures var page := PageOf(kind, items, offset, end);
            && Bytes(pages + [page], bytes) == Bytes(pages, bytes) + bytes(page)
            && (whole.Some? ==> Bytes(whole.value, bytes) >= Bytes(pages + [page], bytes))
            && if end == |items| then whole == Some(pages + [page])
               else CutSoFar(whole, pages + [page], Pages(kind, items, bytes, end))
  {
    var page := PageOf(kind, items, offset, end);
    assert (pages + [page])[..|pages|] == pages;
    if end == |items| {
      assert [page] == [page] + [];
      CutOne(whole, pages, page, [], bytes);
    } else if Pages(kind, items, bytes, end).Some? {
      CutOne(whole, pages, page, Pages(kind, items, bytes, end).value, bytes);
    }
  }

  /** The loop of `persist_snapshot` over one kind. */
  method SplitKind<T>(kind: Kind, items: seq<T>, bytes: Page<T> -> nat, spent: nat)
    returns (r: Option<seq<Page<T>>>, total: nat)
    requires spent <= MAX_SNAPSHOT_BYTES
    ensures r == SplitOf(kind, items, bytes, spent)
    ensures r.Some? ==> total == spent + Bytes(r.value, bytes) <= MAX_SNAPSHOT_BYTES
  {
    var pages: seq<Page<T>>, offset: nat := [], 0;
    total := spent;
    ghost var whole := Pages(kind, items, bytes, 0);
    assert whole.Some? ==> pages + whole.value == whole.value;
    while true
      invariant offset < |items| || offset == |items| == 0
      invariant total == spent + Bytes(pages, bytes) <= MAX_SNAPSHOT_BYTES
      invariant CutSoFar(whole, pages, Pages(kind, items, bytes, offset))
      decreases |items| - offset
    {
      var end := FitPage(kind, items, bytes, offset);
      if end == None {
        return None, total;
      }
      var page := PageOf(kind, items, offset, end.value);
      CutStep(whole, pages, kind, items, bytes, offset, end.value);
      total := total + bytes(page);
      if total > MAX_SNAPSHOT_BYTES {
        return None, total;
      }
      pages := pages + [page];
      if end.value == |items| {
        return Some(pages), total;
      }
      offset := end.value;
    }
  }

  // What a split is

  /** A page within the limits, cut from the items at its offset, pointing at the next one. */
  ghost predicate GoodPage<T>(p: Page<T>, kind: Kind, items: seq<T>, bytes: Page<T> -> nat) {
    && p.kind == kind && p.total == |items|
    && p.offset + |p.items| <= |items| && p.items == items[p.offset..p.offset + |p.items|]
    && |p.items| <= MAX_PAGE_ITEMS && (p.items == [] ==> items == [])
    && bytes(p) + ENVELOPE <= MAX_PAGE_BYTES
    && p.next == (if p.offset + |p.items| < |items| then Some(p.offset + |p.items|) else None)
  }

  /** Good pages that begin at the offset and follow each other to the end. */
  ghost predicate Tiles<T>(pages: seq<Page<T>>, kind: Kind, items: seq<T>, bytes: Page<T> -> nat, offset: nat) {
    && pages != [] && pages[0].offset == offset
    && (forall i | 0 <= i < |pages| :: GoodPage(pages[i], kind, items, bytes))
    && (forall i | 0 <= i < |pages| - 1 :: pages[i].next == Some(pages[i + 1].offset))
    && pages[|pages| - 1].next == None
  }

  function Joined<T>(pages: seq<Page<T>>): seq<T> {
    if pages == [] then [] else pages[0].items + Joined(pages[1..])
  }

  lemma FitIsGood<T>(kind: Kind, items: seq<T>, bytes: Page<T> -> nat, offset: nat)
    requires offset < |items| || offset == |items| == 0
    requires Fit(kind, items, bytes, offset, Reach(offset, |items|)).Some?
    ensures var end := Fit(kind, items, bytes, offset, Reach(offset, |items|)).value;
            offset <= end <= |items| && GoodPage(PageOf(kind, items, offset, end), kind, items, bytes)
  {
  }

  /** A successful split tiles the items in order with good pages, and joins back to them. */
  lemma {:induction false} PagesTile<T>(kind: Kind, items: seq<T>, bytes: Page<T> -> nat, offset: nat)
    requires offset < |items| || offset == |items| == 0
    requires Pages(kind, items, bytes, offset).Some?
    ensures var pages := Pages(kind, items, bytes, offset).value;
            Tiles(pages, kind, items, bytes, offset) && Joined(pages) == items[offset..]
            && |pages| <= if offset < |items| then |items| - offset else 1
    decreases |items| - offset
  {
    FitIsGood(kind, items, bytes, offset);
    var end := Fit(kind, items, bytes, offset, Reach(offset, |items|)).value;
    var page := PageOf(kind, items, offset, end);
    if end == |items| {
      assert Joined([page]) == page.items + Joined([]);
    } else {
      PagesTile(kind, items, bytes, end);
      var rest := Pages(kind, items, bytes, end).value;
      var all := [page] + rest;
      assert all[1..] == rest;
      assert forall i | 1 <= i < |all| :: all[i] == rest[i - 1];
      assert items[offset..] == items[offset..end] + items[end..];
    }
  }

  /** A split fails only on an item, or an empty page, that alone exceeds the page limit. */
  lemma {:induction false} SplitFails<T>(kind: Kind, items: seq<T>, bytes: Page<T> -> nat, offset: nat)
    requires offset < |items| || offset == |items| == 0
    requires Pages(kind, items, bytes, offset) == None
    ensures exists i :: 0 <= i <= |items| && TooBig(kind, items, bytes, i)
    decreases |items| - offset
  {
    var end := Fit(kind, items, bytes, offset, Reach(offset, |items|));
    if end.Some? {
      SplitFails(kind, items, bytes, end.value);
    } else {
      assert TooBig(kind, items, bytes, offset);
    }
  }

  ghost predicate TooBig<T>(kind: Kind, items: seq<T>, bytes: Page<T> -> nat, i: nat)
    requires i <= |items|
  {
    (i < |items| || i == 0)
    && bytes(PageOf(kind, items, i, if i < |items| then i + 1 else i)) + ENVELOPE > MAX_PAGE_BYTES
  }

  /** Where every group of 128 items fits a page, every page but the last holds 128. */
  lemma {:induction false} FullPages<T>(kind: Kind, items: seq<T>, bytes: Page<T> -> nat, offset: nat)
    requires offset < |items| || offset == |items| == 0
    requires forall i | 0 <= i <= |items| :: bytes(PageOf(kind, items, i, Reach(i, |items|))) + ENVELOPE <= MAX_PAGE_BYTES
    ensures Pages(kind, items, bytes, offset).Some?
    ensures var pages := Pages(kind, items, bytes, offset).value;
            pages != [] && forall k | 0 <= k < |pages| - 1 :: |pages[k].items| == 128
    decreases |items| - offset
  {
    var end := Reach(offset, |items|);
    assert Fit(kind, items, bytes, offset, end) == Some(end);
    if end < |items| {
      FullPages(kind, items, bytes, end);
      assert Pages(kind, items, bytes, offset).value == [PageOf(kind, items, offset, end)] + Pages(kind, items, bytes, end).value;
    }
  }

  // The snapshot

  datatype Index = Index(kind: Kind, offset: nat, total: nat, next: Option<nat>, digest: nat, bytes: nat)

  /** The index, and one file for each kind and offset. */
  datatype Store<T> = Store(index: seq<Index>, files: map<(Kind, nat), Page<T>>)

  /** How pages are measured and digested. */
  datatype Coding<!T> = Coding(bytes: Page<T> -> nat, digest: Page<T> -> nat)

  function IndexOfPage<T>(p: Page<T>, coding: Coding<T>): Index {
    Index(p.kind, p.offset, p.total, p.next, coding.digest(p), coding.bytes(p))
  }

  function IndexesOf<T>(pages: seq<Page<T>>, coding: Coding<T>): seq<Index> {
    MapSeq(pages, p => IndexOfPage(p, coding))
  }

  function FilesOf<T>(pages: seq<Page<T>>): map<(Kind, nat), Page<T>> {
    if pages == [] then map[] else
      var last := pages[|pages| - 1];
      FilesOf(pages[..|pages| - 1])[(last.kind, last.offset) := last]
  }

  function Selected(index: seq<Index>, kind: Kind, offset: nat): Option<Index> {
    if index == [] then None
    else if index[0].kind == kind && index[0].offset == offset then Some(index[0])
    else Selected(index[1..], kind, offset)
  }

  /** The boundary checks of `page_at`. */
  predicate BoundariesHold<T>(p: Page<T>, selected: Index, kind: Kind, offset: nat) {
    var end := offset + |p.items|;
    && |p.items| <= MAX_PAGE_ITEMS && end <= selected.total
    && (p.items == [] ==> selected.total == 0)
    && p.kind == kind && p.offset == offset && p.total == selected.total && p.next == selected.next
    && selected.next == if end < selected.total then Some(end) else None
  }

  /** `page_at`, from the integrity of the index on. */
  function PageAt<T>(store: Store<T>, coding: Coding<T>, kind: Kind, offset: nat): Option<Page<T>> {
    if |store.index| > MAX_PAGES then None else
      match Selected(store.index, kind, offset)
      case None => None
      case Some(selected) =>
        if selected.total > Maximum(kind) || selected.bytes + ENVELOPE > MAX_PAGE_BYTES then None
        else if (kind, offset) !in store.files then None
        else
          var page := store.files[(kind, offset)];
          if coding.bytes(page) > MAX_PAGE_BYTES || coding.bytes(page) != selected.bytes
             || coding.digest(page) != selected.digest || !BoundariesHold(page, selected, kind, offset) then None
          else Some(page)
  }

  // Storing all three kinds

  const KINDS: seq<Kind> := [Network, Cosmetic, Diagnostics]

  /** The pages of the first `n` kinds. */
  ghost function PagesOfKinds<T>(lists: Kind -> seq<T>, bytes: Page<T> -> nat, n: nat): Option<seq<Page<T>>>
    requires n <= 3
  {
    if n == 0 then Some([]) else
      match PagesOfKinds(lists, bytes, n - 1)
      case None => None
      case Some(before) =>
        var kind := KINDS[n - 1];
        if |lists(kind)| > Maximum(kind) then None else
          match SplitOf(kind, lists(kind), bytes, Bytes(before, bytes))
          case None => None
          case Some(pages) => Some(before + pages)
  }

  ghost function StoreOf<T>(pages: seq<Page<T>>, coding: Coding<T>): Store<T> {
    Store(IndexesOf(pages, coding), FilesOf(pages))
  }

  /** The page part of `persist_snapshot`. */
  method Persist<T>(lists: Kind -> seq<T>, coding: Coding<T>) returns (r: Option<Store<T>>)
    ensures r == match PagesOfKinds(lists, coding.bytes, 3)
                 case None => None
                 case Some(pages) => Some(StoreOf(pages, coding))
  {
    var store: Store<T> := Store([], map[]);
    var total := 0;
    ghost var all: seq<Page<T>> := [];
    for n := 0 to 3
      invariant PagesOfKinds(lists, coding.bytes, n) == Some(all) && store == StoreOf(all, coding)
      invariant total == Bytes(all, coding.bytes) <= MAX_SNAPSHOT_BYTES
    {
      var kind := KINDS[n];
      var items := lists(kind);
      if |items| > Maximum(kind) {
        PagesOfKindsFail(lists, coding.bytes, n + 1);
        return None;
      }
      var split, spent := SplitKind(kind, items, coding.bytes, total);
      if split == None {
        PagesOfKindsFail(lists, coding.bytes, n + 1);
        return None;
      }
      BytesConcat(all, split.value, coding.bytes);
      store := WritePages(store, all, split.value, coding);
      all, total := all + split.value, spent;
    }
    return Some(store);
  }

  lemma PagesOfKindsFail<T>(lists: Kind -> seq<T>, bytes: Page<T> -> nat, n: nat)
    requires n <= 3 && PagesOfKinds(lists, bytes, n) == None
    ensures PagesOfKinds(lists, bytes, 3) == None
    decreases 3 - n
  {
    if n < 3 { PagesOfKindsFail(lists, bytes, n + 1); }
  }

  method WritePages<T>(before: Store<T>, ghost earlier: seq<Page<T>>, pages: seq<Page<T>>, coding: Coding<T>)
    returns (store: Store<T>)
    requires before == StoreOf(earlier, coding)
    ensures store == StoreOf(earlier + pages, coding)
  {
    store := before;
    assert earlier + pages[..0] == earlier;
    for i := 0 to |pages|
      invariant store == StoreOf(earlier + pages[..i], coding)
    {
      var page := pages[i];
      assert earlier + pages[..i + 1] == earlier + pages[..i] + [page];
      StoreSnoc(earlier + pages[..i], page, coding);
      store := Store(store.index + [IndexOfPage(page, coding)], store.files[(page.kind, page.offset) := page]);
    }
    assert pages[..|pages|] == pages;
  }

  lemma StoreSnoc<T>(pages: seq<Page<T>>, page: Page<T>, coding: Coding<T>)
    ensures StoreOf(pages + [page], coding)
            == Store(IndexesOf(pages, coding) + [IndexOfPage(page, coding)],
                     FilesOf(pages)[(page.kind, page.offset) := page])
  {
    assert (pages + [page])[..|pages|] == pages;
  }
}
