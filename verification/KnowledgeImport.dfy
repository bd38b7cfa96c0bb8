/** Reading the whole upstream document list page by page, or nothing. */
module KnowledgeImport {
  import opened Options
  import opened Text

  datatype Document = Document(id: string, title: string)

  datatype Page = Page(items: seq<Document>, total: int)

  datatype Entry = Entry(documentId: string, title: string)

  /** A document without an id, by page and place on it. */
  datatype Rejected = Rejected(page: int, index: int)

  datatype Import = Import(entries: seq<Entry>, rejected: seq<Rejected>)

  function IdOf(d: Document): string {
    Strip(d.id)
  }

  function EntriesOf(items: seq<Document>): seq<Entry> {
    if items == [] then []
    else
      var last := items[|items| - 1];
      EntriesOf(items[..|items| - 1]) + (if IdOf(last) == "" then [] else [Entry(IdOf(last), last.title)])
  }

  function RejectedOn(page: int, items: seq<Document>): seq<Rejected> {
    if items == [] then []
    else
      RejectedOn(page, items[..|items| - 1])
      + (if IdOf(items[|items| - 1]) == "" then [Rejected(page, |items|)] else [])
  }

  /** The documents of the first pages. */
  function Collected(upstream: int -> Page, pages: nat): seq<Document> {
    if pages == 0 then [] else Collected(upstream, pages - 1) + upstream(pages).items
  }

  function AllRejected(upstream: int -> Page, pages: nat): seq<Rejected> {
    if pages == 0 then [] else AllRejected(upstream, pages - 1) + RejectedOn(pages, upstream(pages).items)
  }

  /** After this page the loop stops: it was empty or the total is reached. */
  predicate Stops(upstream: int -> Page, page: nat) {
    page >= 1 && (upstream(page).items == [] || |Collected(upstream, page)| >= upstream(page).total)
  }

  /** The first page from `page` on after which the loop stops. */
  function StopPage(upstream: int -> Page, page: nat, maxPages: int): Option<nat>
    decreases maxPages - page
  {
    if page > maxPages then None
    else if Stops(upstream, page) then Some(page)
    else StopPage(upstream, page + 1, maxPages)
  }

  function Fetched(upstream: int -> Page, maxPages: int): Option<Import> {
    match StopPage(upstream, 1, maxPages)
    case None => None
    case Some(last) => Some(Import(EntriesOf(Collected(upstream, last)), AllRejected(upstream, last)))
  }

  lemma {:induction false} EntriesAppend(a: seq<Document>, b: seq<Document>)
    ensures EntriesOf(a + b) == EntriesOf(a) + EntriesOf(b)
    decreases b
  {
    if b == [] {
      assert a + b == a;
    } else {
      var last := |b| - 1;
      assert (a + b)[..|a + b| - 1] == a + b[..last];
      EntriesAppend(a, b[..last]);
    }
  }

  /** What the loop holds after so many pages. */
  predicate IsAfter(upstream: int -> Page, pages: nat, entries: seq<Entry>, rejected: seq<Rejected>, collected: int) {
    && entries == EntriesOf(Collected(upstream, pages)) && rejected == AllRejected(upstream, pages)
    && collected == |Collected(upstream, pages)|
  }

  lemma PageAdded(upstream: int -> Page, page: nat, entries: seq<Entry>, rejected: seq<Rejected>, collected: int)
    requires page >= 1 && IsAfter(upstream, page - 1, entries, rejected, collected)
    ensures var items := upstream(page).items;
            && IsAfter(upstream, page, entries + EntriesOf(items), rejected + RejectedOn(page, items), collected + |items|)
            && (Stops(upstream, page) <==> items == [] || collected + |items| >= upstream(page).total)
  {
    EntriesAppend(Collected(upstream, page - 1), upstream(page).items);
  }

  method ReadPage(page: int, items: seq<Document>) returns (entries: seq<Entry>, rejected: seq<Rejected>)
    ensures entries == EntriesOf(items) && rejected == RejectedOn(page, items)
  {
    entries, rejected := [], [];
    for i := 0 to |items|
      invariant entries == EntriesOf(items[..i]) && rejected == RejectedOn(page, items[..i])
    {
      assert items[..i + 1][..i] == items[..i];
      var id := Strip(items[i].id);
      if id == "" {
        rejected := rejected + [Rejected(page, i + 1)];
      } else {
        entries := entries + [Entry(id, items[i].title)];
      }
    }
    assert items[..|items|] == items;
  }

  /** `None` is the error for too many pages. */
  method FetchEntries(upstream: int -> Page, maxPages: int) returns (result: Option<Import>)
    ensures result == Fetched(upstream, maxPages)
  {
    var entries: seq<Entry>, rejected: seq<Rejected> := [], [];
    var collected := 0;
    var page: nat := 1;
    ghost var stop := StopPage(upstream, 1, maxPages);
    while page <= maxPages
      invariant page >= 1
      invariant stop == StopPage(upstream, page, maxPages)
      invariant IsAfter(upstream, page - 1, entries, rejected, collected)
      decreases maxPages - page
    {
      var answer := upstream(page);
      var found, refused := ReadPage(page, answer.items);
      PageAdded(upstream, page, entries, rejected, collected);
      entries, rejected := entries + found, rejected + refused;
      collected := collected + |answer.items|;
      if answer.items == [] || collected >= answer.total {
        return Some(Import(entries, rejected));
      }
      page := page + 1;
    }
    result := None;
  }

  // ---------------------------------------------------------------- a list that does not change

  function Min(a: int, b: int): int {
    if a < b then a else b
  }

  /** The total the upstream reports with each page; zero stands for a missing or empty one. */
  type Totals = int -> int

  /** The pages of a fixed list, as the adapter passes them on: a missing total becomes the length of
      the page. */
  function PagesOf(list: seq<Document>, size: nat, totals: Totals): int -> Page
    requires size >= 1
  {
    page => PageOf(list, size, totals, page)
  }

  function PageOf(list: seq<Document>, size: nat, totals: Totals, page: int): Page
    requires size >= 1
  {
    var items := if page < 1 then []
                 else list[Min((page - 1) * size, |list|)..Min((page - 1) * size + size, |list|)];
    Page(items, if totals(page) != 0 then totals(page) else |items|)
  }

  lemma {:induction false} Grows(a: int, b: int, size: nat)
    requires a <= b
    ensures a * size <= b * size
    decreases b - a
  {
    if a < b {
      Grows(a + 1, b, size);
      assert (a + 1) * size == a * size + size;
    }
  }

  /** How much of the list the first pages hold. */
  function Reach(list: seq<Document>, size: nat, pages: int): (n: nat)
    requires size >= 1 && pages >= 0
    ensures n <= |list| && (n < |list| ==> n == pages * size)
  {
    Grows(0, pages, size);
    Min(pages * size, |list|)
  }

  lemma ReachOfNext(list: seq<Document>, size: nat, pages: nat)
    requires size >= 1
    ensures (pages + 1) * size == pages * size + size
    ensures Reach(list, size, pages) <= Reach(list, size, pages + 1)
  {
  }

  lemma ItemsOfPage(list: seq<Document>, size: nat, totals: Totals, page: nat)
    requires size >= 1 && page >= 1
    ensures Reach(list, size, page - 1) <= Reach(list, size, page)
    ensures PagesOf(list, size, totals)(page).items == list[Reach(list, size, page - 1)..Reach(list, size, page)]
  {
    ReachOfNext(list, size, page - 1);
  }

  lemma {:induction false} CollectedIsPrefix(list: seq<Document>, size: nat, totals: Totals, pages: nat)
    requires size >= 1
    ensures Collected(PagesOf(list, size, totals), pages) == list[..Reach(list, size, pages)]
  {
    if pages > 0 {
      CollectedIsPrefix(list, size, totals, pages - 1);
      ItemsOfPage(list, size, totals, pages);
      Adjoin(list, Reach(list, size, pages - 1), Reach(list, size, pages));
    }
  }

  lemma Adjoin(list: seq<Document>, a: nat, b: nat)
    requires a <= b <= |list|
    ensures list[..a] + list[a..b] == list[..b]
  {
  }

  /** The reported total lets the loop stop after this page. */
  predicate Suffices(list: seq<Document>, size: nat, totals: Totals, page: nat)
    requires size >= 1
  {
    totals(page) <= Reach(list, size, page)
  }

  lemma StopsWhen(list: seq<Document>, size: nat, totals: Totals, page: nat)
    requires size >= 1 && page >= 1
    ensures Stops(PagesOf(list, size, totals), page)
       <==> Reach(list, size, page - 1) == |list| || Suffices(list, size, totals, page)
  {
    CollectedIsPrefix(list, size, totals, page);
    ItemsOfPage(list, size, totals, page);
    ReachOfNext(list, size, page - 1);
  }

  /** The loop stops after the first page that lets it. */
  lemma {:induction false} FirstStop(upstream: int -> Page, page: nat, maxPages: int)
    ensures var stop := StopPage(upstream, page, maxPages);
            && (stop.Some? ==> page <= stop.value <= maxPages && Stops(upstream, stop.value)
                               && forall p: nat :: page <= p < stop.value ==> !Stops(upstream, p))
            && (stop.None? ==> forall p: nat :: page <= p <= maxPages ==> !Stops(upstream, p))
    decreases maxPages - page
  {
    if page <= maxPages && !Stops(upstream, page) {
      FirstStop(upstream, page + 1, maxPages);
    }
  }

  /** How many documents an import holds, accepted or rejected. */
  function Size(i: Import): nat {
    |i.entries| + |i.rejected|
  }

  /** A proper part of the list is returned. */
  predicate ReturnsPart(list: seq<Document>, size: nat, totals: Totals, maxPages: int)
    requires size >= 1
  {
    var r := Fetched(PagesOf(list, size, totals), maxPages);
    r.Some? && Size(r.value) < |list|
  }

  /** After this page the list is not exhausted, but the reported total says that it is. */
  predicate IsShort(list: seq<Document>, size: nat, totals: Totals, maxPages: int, page: nat) {
    1 <= page <= maxPages && page * size < |list| && totals(page) <= page * size
  }

  lemma FetchedIsPrefix(list: seq<Document>, size: nat, totals: Totals, maxPages: int)
    requires size >= 1
    ensures var stop := StopPage(PagesOf(list, size, totals), 1, maxPages);
            var r := Fetched(PagesOf(list, size, totals), maxPages);
            && (r.Some? <==> stop.Some?)
            && (stop.Some? ==>
                  && r.value.entries == EntriesOf(list[..Reach(list, size, stop.value)])
                  && Size(r.value) == Reach(list, size, stop.value))
  {
    var upstream := PagesOf(list, size, totals);
    var stop := StopPage(upstream, 1, maxPages);
    if stop.Some? {
      CollectedIsPrefix(list, size, totals, stop.value);
      EveryDocumentIsCounted(upstream, stop.value);
    }
  }

  /** A part that is returned ends with a short page. */
  lemma PartNeedsShortTotal(list: seq<Document>, size: nat, totals: Totals, maxPages: int) returns (p: nat)
    requires size >= 1 && ReturnsPart(list, size, totals, maxPages)
    ensures IsShort(list, size, totals, maxPages, p)
  {
    var upstream := PagesOf(list, size, totals);
    FirstStop(upstream, 1, maxPages);
    FetchedIsPrefix(list, size, totals, maxPages);
    p := StopPage(upstream, 1, maxPages).value;
    StopsWhen(list, size, totals, p);
    ReachOfNext(list, size, p - 1);
  }

  /** The loop does not get past a short page. */
  lemma ShortTotalMakesPart(list: seq<Document>, size: nat, totals: Totals, maxPages: int, p: nat)
    requires size >= 1 && IsShort(list, size, totals, maxPages, p)
    ensures ReturnsPart(list, size, totals, maxPages)
  {
    var upstream := PagesOf(list, size, totals);
    assert Reach(list, size, p) == p * size;
    StopsWhen(list, size, totals, p);
    FirstStop(upstream, 1, maxPages);
    FetchedIsPrefix(list, size, totals, maxPages);
    Grows(StopPage(upstream, 1, maxPages).value, p, size);
  }

  /** A proper part is returned exactly when some page within the limit is short. A missing total is
      short on every page but the last. */
  lemma PartIffShortTotal(list: seq<Document>, size: nat, totals: Totals, maxPages: int)
    requires size >= 1
    ensures ReturnsPart(list, size, totals, maxPages) <==> exists p: nat :: IsShort(list, size, totals, maxPages, p)
  {
    if ReturnsPart(list, size, totals, maxPages) {
      var p := PartNeedsShortTotal(list, size, totals, maxPages);
    }
    if p: nat :| IsShort(list, size, totals, maxPages, p) {
      ShortTotalMakesPart(list, size, totals, maxPages, p);
    }
  }

  /** Without a total the first page of a longer list is all that is imported. */
  lemma MissingTotalImportsOnePage(list: seq<Document>, size: nat, totals: Totals, maxPages: int)
    requires size >= 1 && maxPages >= 1 && size < |list| && totals(1) == 0
    ensures var r := Fetched(PagesOf(list, size, totals), maxPages);
            r.Some? && r.value.entries == EntriesOf(list[..size]) && Size(r.value) == size
  {
    assert Reach(list, size, 1) == size;
    StopsWhen(list, size, totals, 1);
    FetchedIsPrefix(list, size, totals, maxPages);
  }

  predicate AreExact(list: seq<Document>, totals: Totals, maxPages: int) {
    forall p: nat :: 1 <= p <= maxPages ==> totals(p) == |list|
  }

  lemma ExactStops(list: seq<Document>, size: nat, totals: Totals, maxPages: int, page: nat)
    requires size >= 1 && AreExact(list, totals, maxPages) && 1 <= page <= maxPages
    ensures Stops(PagesOf(list, size, totals), page) <==> Reach(list, size, page) == |list|
  {
    StopsWhen(list, size, totals, page);
    ReachOfNext(list, size, page - 1);
  }

  lemma ReachFits(list: seq<Document>, size: nat, page: nat, maxPages: nat)
    requires size >= 1 && page <= maxPages
    ensures Reach(list, size, page) == |list| ==> |list| <= maxPages * size
    ensures Reach(list, size, maxPages) < |list| ==> |list| > maxPages * size
  {
    Grows(page, maxPages, size);
  }

  /** With exact totals the loop stops exactly when the list fits, and then it has all of it. */
  lemma ExactStop(list: seq<Document>, size: nat, totals: Totals, maxPages: int)
    requires size >= 1 && AreExact(list, totals, maxPages)
    ensures var stop := StopPage(PagesOf(list, size, totals), 1, maxPages);
            && (stop.Some? <==> maxPages >= 1 && |list| <= maxPages * size)
            && (stop.Some? ==> Reach(list, size, stop.value) == |list|)
  {
    var stop := StopPage(PagesOf(list, size, totals), 1, maxPages);
    FirstStop(PagesOf(list, size, totals), 1, maxPages);
    if stop.Some? {
      ExactStops(list, size, totals, maxPages, stop.value);
      ReachFits(list, size, stop.value, maxPages);
    } else if maxPages >= 1 {
      ExactStops(list, size, totals, maxPages, maxPages);
      ReachFits(list, size, maxPages, maxPages);
    }
  }

  /** All or nothing, when every page reports the length of the list: the list is imported whole and in
      order exactly when it fits the page limit, and otherwise the import fails. */
  lemma AllOrNothing(list: seq<Document>, size: nat, totals: Totals, maxPages: int)
    requires size >= 1 && AreExact(list, totals, maxPages)
    ensures var r := Fetched(PagesOf(list, size, totals), maxPages);
            && (r.Some? <==> maxPages >= 1 && |list| <= maxPages * size)
            && (r.Some? ==> r.value.entries == EntriesOf(list) && Size(r.value) == |list|)
  {
    ExactStop(list, size, totals, maxPages);
    FetchedIsPrefix(list, size, totals, maxPages);
    assert list[..|list|] == list;
  }

  /** No document is lost: each becomes an entry or a rejection. */
  lemma {:induction false} EveryDocumentIsCounted(upstream: int -> Page, pages: nat)
    ensures |EntriesOf(Collected(upstream, pages))| + |AllRejected(upstream, pages)| == |Collected(upstream, pages)|
  {
    if pages > 0 {
      EveryDocumentIsCounted(upstream, pages - 1);
      EntriesAppend(Collected(upstream, pages - 1), upstream(pages).items);
      CountOnPage(pages, upstream(pages).items);
    }
  }

  lemma {:induction false} CountOnPage(page: int, items: seq<Document>)
    ensures |EntriesOf(items)| + |RejectedOn(page, items)| == |items|
  {
    if items != [] {
      CountOnPage(page, items[..|items| - 1]);
    }
  }

  /** A document becomes an entry where it stands, with its own title and its id without the blanks around
      it; a blank id makes none. */
  lemma EntryIs(before: seq<Document>, d: Document, after: seq<Document>, pad: string, id: string, tail: string)
    requires d.id == pad + id + tail && (id == "" || IsTight(id))
    requires (forall i :: 0 <= i < |pad| ==> IsSpace(pad[i])) && forall i :: 0 <= i < |tail| ==> IsSpace(tail[i])
    ensures EntriesOf(before + [d] + after)
         == EntriesOf(before) + (if id == "" then [] else [Entry(id, d.title)]) + EntriesOf(after)
  {
    EntriesAppend(before + [d], after);
    EntriesAppend(before, [d]);
    assert [d][..0] == [];
    if id == "" {
      LStripPad(pad + tail, "");
      assert pad + tail + "" == d.id;
    } else {
      StripTight(pad, id, tail);
    }
  }

  /** The rejections of a page are the places of the documents without an id. */
  lemma {:induction false} RejectedAre(page: int, items: seq<Document>, r: Rejected)
    ensures r in RejectedOn(page, items)
       <==> r.page == page && 1 <= r.index <= |items| && IdOf(items[r.index - 1]) == ""
  {
    if items != [] {
      var rest := items[..|items| - 1];
      RejectedAre(page, rest, r);
      assert 1 <= r.index <= |rest| ==> rest[r.index - 1] == items[r.index - 1];
    }
  }
}
