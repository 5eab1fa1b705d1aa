/** One page of the leaderboard at a time: page numbers, offsets and ranks. */
module Paging {
  import opened Collections
  import opened Options
  import opened Shared

  const PAGE_SIZE := 5

  datatype Entry = Entry(userId: UserId, displayName: string, races: nat, wins: nat, avgWpm: real)

  datatype Ranked = Ranked(rank: int, entry: Entry)

  datatype Page = Page(window: string, page: int, totalPages: int, entries: seq<Ranked>)

  datatype Answer = BadWindow | QueryFailed | Top(page: Page)

  /** Signed 64-bit wrap-around, as Go's int has it. */
  function Int64(x: int): int {
    (x + 0x8000_0000_0000_0000) % 0x1_0000_0000_0000_0000 - 0x8000_0000_0000_0000
  }

  function Min(a: nat, b: nat): nat {
    if a < b then a else b
  }

  /** The rows LIMIT and OFFSET select from a listing; a negative offset is an error. */
  function Fetch(listing: seq<Entry>, offset: int): Option<seq<Entry>> {
    if offset < 0 then None
    else Some(listing[Min(offset, |listing|)..Min(offset + PAGE_SIZE, |listing|)])
  }

  function TotalPages(total: nat): nat {
    if total == 0 then 1 else (total + PAGE_SIZE - 1) / PAGE_SIZE
  }

  /** The whole listing, ranked from 1. */
  function RankedFrom(listing: seq<Entry>, first: int): (r: seq<Ranked>)
    ensures |r| == |listing|
    ensures forall k :: 0 <= k < |r| ==> r[k] == Ranked(first + k, listing[k])
  {
    seq(|listing|, k requires 0 <= k < |listing| => Ranked(first + k, listing[k]))
  }

  function Clamped(page: int): int {
    if page < 1 then 1 else page
  }

  function Offset(page: int): int {
    Int64((Clamped(page) - 1) * PAGE_SIZE)
  }

  /** `total` is what the count query answers and `listing` what the other query orders,
      which need not agree; `answers` says whether both succeed. */
  function TopOf(window: string, page: int, total: nat, listing: seq<Entry>, answers: bool): Answer {
    if window != "alltime" && window != "weekly" then BadWindow
    else if !answers || Offset(page) < 0 then QueryFailed
    else
      var rows := Fetch(listing, Offset(page)).value;
      Top(Page(window, Clamped(page), TotalPages(total), RankedFrom(rows, Offset(page) + 1)))
  }

  method GetTop(window: string, page: int, total: nat, listing: seq<Entry>, answers: bool) returns (r: Answer)
    ensures r == TopOf(window, page, total, listing, answers)
  {
    if window != "alltime" && window != "weekly" {
      return BadWindow;
    }
    var wanted := page;
    if wanted < 1 {
      wanted := 1;
    }
    var offset := Int64((wanted - 1) * PAGE_SIZE);
    var rows := Fetch(listing, offset);
    if !answers || rows.None? {
      return QueryFailed;
    }
    var pages := (total + PAGE_SIZE - 1) / PAGE_SIZE;
    if pages < 1 {
      pages := 1;
    }
    var entries := RankRows(rows.value, offset);
    return Top(Page(window, wanted, pages, entries));
  }

  method RankRows(rows: seq<Entry>, offset: int) returns (r: seq<Ranked>)
    ensures r == RankedFrom(rows, offset + 1)
  {
    var n := |rows|;
    var entries := new Ranked[n](_ => Ranked(0, Entry("", "", 0, 0, 0.0)));
    var i := 0;
    while i < n
      invariant i <= n
      invariant forall k :: 0 <= k < i ==> entries[k] == Ranked(offset + k + 1, rows[k])
    {
      entries[i] := Ranked(offset + i + 1, rows[i]);
      i := i + 1;
    }
    r := entries[..];
  }

  // ------------------------------------------------------------------ coverage

  /** The rows of one answered page. */
  function Rows(a: Answer): seq<Ranked> {
    if a.Top? then a.page.entries else []
  }

  /** The pages 1 to n of the same listing, one after the other. */
  function Pages(window: string, total: nat, listing: seq<Entry>, n: nat): seq<Ranked> {
    if n == 0 then [] else Pages(window, total, listing, n - 1) + Rows(TopOf(window, n, total, listing, true))
  }

  predicate KnownWindow(window: string) {
    window == "alltime" || window == "weekly"
  }

  /** Pages whose offset does not wrap. */
  predicate Reachable(page: int) {
    page <= 0x1999_9999_9999_9999
  }

  /** A total that the count and the page arithmetic hold in a 64-bit int. */
  predicate Countable(total: nat) {
    total + PAGE_SIZE - 1 < 0x8000_0000_0000_0000
  }

  /** How many entries come before page n + 1. */
  function Past(n: nat): (r: nat)
    ensures r == 5 * n
  {
    n * PAGE_SIZE
  }

  function Through(listing: seq<Entry>, n: nat): (r: nat)
    ensures r <= |listing| && (r == Past(n) || (r == |listing| && r < Past(n)))
  {
    Min(Past(n), |listing|)
  }

  lemma Int64Of(x: int, q: int)
    requires 0x1_0000_0000_0000_0000 * q <= x < 0x1_0000_0000_0000_0000 * (q + 1)
    ensures x % 0x1_0000_0000_0000_0000 == x - 0x1_0000_0000_0000_0000 * q
    ensures var r := x - 0x1_0000_0000_0000_0000 * q;
            Int64(x) == if r < 0x8000_0000_0000_0000 then r else r - 0x1_0000_0000_0000_0000
  {
  }

  lemma OffsetPlain(page: nat)
    requires 1 <= page && Reachable(page)
    ensures Offset(page) == Past(page - 1) == Past(page) - 5
  {
    Int64Of((page - 1) * PAGE_SIZE, 0);
  }

  lemma RankedSlice(listing: seq<Entry>, a: nat, b: nat, first: int)
    requires a <= b <= |listing| && (a < b ==> first == a + 1)
    ensures RankedFrom(listing[a..b], first) == RankedFrom(listing, 1)[a..b]
  {
  }

  lemma PageInFull(window: string, total: nat, listing: seq<Entry>, page: nat)
    requires KnownWindow(window) && 1 <= page && Reachable(page)
    ensures Through(listing, page - 1) <= Through(listing, page)
    ensures Rows(TopOf(window, page, total, listing, true)) ==
              RankedFrom(listing, 1)[Through(listing, page - 1)..Through(listing, page)]
  {
    OffsetPlain(page);
    var a, b := Through(listing, page - 1), Through(listing, page);
    assert Fetch(listing, Offset(page)) == Some(listing[a..b]);
    RankedSlice(listing, a, b, Offset(page) + 1);
  }

  lemma SliceJoin<T>(xs: seq<T>, a: nat, b: nat)
    requires a <= b <= |xs|
    ensures xs[..a] + xs[a..b] == xs[..b]
  {
  }

  lemma {:induction false} FirstPages(window: string, total: nat, listing: seq<Entry>, n: nat)
    requires KnownWindow(window) && Reachable(n)
    ensures Pages(window, total, listing, n) == RankedFrom(listing, 1)[..Through(listing, n)]
  {
    if n > 0 {
      FirstPages(window, total, listing, n - 1);
      PageInFull(window, total, listing, n);
      SliceJoin(RankedFrom(listing, 1), Through(listing, n - 1), Through(listing, n));
    }
  }

  /** The page number asked for, or 1 where that is less. */
  ghost predicate Asked(page: int, n: int) {
    n >= 1 && n >= page && (n == 1 || n == page)
  }

  /** n pages of five hold these rows, n is at least 1, and no fewer do. */
  ghost predicate Announces(total: nat, n: int) {
    n >= 1 && 5 * n >= total && (n == 1 || 5 * (n - 1) < total)
  }

  /** The five entries from this place on, or what there is of them, with their places. */
  ghost predicate ShowsFrom(r: seq<Ranked>, listing: seq<Entry>, offset: nat) {
    && |r| == (if offset >= |listing| then 0 else if |listing| - offset < 5 then |listing| - offset else 5)
    && forall k :: 0 <= k < |r| ==> r[k].rank == offset + k + 1 && r[k].entry == listing[offset + k]
  }

  lemma OffsetOf(page: int, n: int)
    requires Asked(page, n)
    ensures var offset := 5 * (n - 1) % 0x1_0000_0000_0000_0000;
      && Clamped(page) == n
      && (Offset(page) < 0 <==> offset >= 0x8000_0000_0000_0000)
      && (Offset(page) >= 0 ==> Offset(page) == offset)
  {
    var x := 5 * (n - 1);
    Int64Of(x, x / 0x1_0000_0000_0000_0000);
  }

  /** The whole answer: every window but two is refused; the query fails if it is down or
      the offset, as a 64-bit int has it, is negative; and otherwise the page names its
      window and its number, announces as many pages as the counted rows fill, one at
      least, and shows five entries from its offset on, each with its place. */
  lemma AnswerInFull(window: string, page: int, total: nat, listing: seq<Entry>, answers: bool, n: int)
    requires Asked(page, n)
    ensures var a := TopOf(window, page, total, listing, answers);
      var offset := 5 * (n - 1) % 0x1_0000_0000_0000_0000;
      && (a.BadWindow? <==> window !in {"alltime", "weekly"})
      && (a.QueryFailed? <==> window in {"alltime", "weekly"} && (!answers || offset >= 0x8000_0000_0000_0000))
      && (a.Top? ==>
            && a.page.window == window && a.page.page == n
            && Announces(total, a.page.totalPages)
            && ShowsFrom(a.page.entries, listing, offset))
  {
    OffsetOf(page, n);
  }

  /** The first n pages give every entry once, ranked from 1 on, if and only if there
      are as many as the entries fill; so the pages that the count announces do if and
      only if it announces enough. */
  lemma PagesCoverTheRanking(window: string, total: nat, listing: seq<Entry>, n: nat)
    requires KnownWindow(window) && Reachable(n)
    ensures Pages(window, total, listing, n) == RankedFrom(listing, 1) <==> n >= TotalPages(|listing|) || |listing| == 0
  {
    FirstPages(window, total, listing, n);
  }

  /** A page below 1 is page 1. */
  lemma PagesBelow(window: string, total: nat, listing: seq<Entry>, page: int, answers: bool)
    requires page < 1
    ensures TopOf(window, page, total, listing, answers) == TopOf(window, 1, total, listing, answers)
  {
    assert Clamped(page) == Clamped(1) && Offset(page) == Offset(1);
  }

  /** The offset of this page, having wrapped w times, lies within the listing. */
  predicate Lands(listing: seq<Entry>, page: int, w: nat) {
    0 <= 5 * (page - 1) - 0x1_0000_0000_0000_0000 * w < |listing|
  }

  /** Past the last page, for every page number a 64-bit int holds: the query fails
      if and only if the wrapped offset is negative, and no rows come back if and only
      if the offset, wrapped once or twice, does not land within the listing. */
  lemma PagesPastTheEnd(window: string, total: nat, listing: seq<Entry>, page: int)
    requires KnownWindow(window) && Countable(|listing|)
    requires TotalPages(|listing|) < page < 0x8000_0000_0000_0000
    ensures TopOf(window, page, total, listing, true).QueryFailed? <==>
              (5 * (page - 1)) % 0x1_0000_0000_0000_0000 >= 0x8000_0000_0000_0000
    ensures Rows(TopOf(window, page, total, listing, true)) == [] <==>
              !Lands(listing, page, 1) && !Lands(listing, page, 2)
  {
    var x := 5 * (page - 1);
    assert (Clamped(page) - 1) * PAGE_SIZE == x;
    var q := if x < 0x1_0000_0000_0000_0000 then 0 else if x < 0x2_0000_0000_0000_0000 then 1 else 2;
    Int64Of(x, q);
    if Offset(page) >= 0 {
      var rows := Fetch(listing, Offset(page)).value;
      assert |Rows(TopOf(window, page, total, listing, true))| == |rows|;
    }
  }

  /** Such a page: six entries fill two pages, and this one shows the last two again. */
  lemma WrappedPageShowsRows(window: string, total: nat, listing: seq<Entry>)
    requires KnownWindow(window) && |listing| == 6
    ensures Rows(TopOf(window, 0x3333_3333_3333_3335, total, listing, true)) ==
              [Ranked(5, listing[4]), Ranked(6, listing[5])]
  {
    Int64Of(5 * 0x3333_3333_3333_3334, 1);
    assert Offset(0x3333_3333_3333_3335) == 4;
    assert Fetch(listing, 4).value == [listing[4], listing[5]];
  }

  // ---------------------------------------------------- pages read at any time

  /** The query's ORDER BY. */
  predicate NotBelow(a: Entry, b: Entry) {
    a.wins > b.wins || (a.wins == b.wins && a.avgWpm >= b.avgWpm)
  }

  predicate Tied(a: Entry, b: Entry) {
    a.wins == b.wins && a.avgWpm == b.avgWpm
  }

  /** Some answer of the query over these rows: each of them once, in its order. */
  ghost predicate Lists(listing: seq<Entry>, rows: set<Entry>) {
    && (forall e :: e in listing <==> e in rows)
    && (forall j, k :: 0 <= j < k < |listing| ==> listing[j] != listing[k] && NotBelow(listing[j], listing[k]))
  }

  /** No tie reaches across the boundary before position b. */
  predicate Parted(listing: seq<Entry>, b: nat)
    requires 0 < b < |listing|
  {
    !Tied(listing[b - 1], listing[b])
  }

  /** Entry e ranks before the boundary at b. */
  predicate Above(listing: seq<Entry>, b: nat, e: Entry)
    requires 0 < b < |listing|
  {
    NotBelow(e, listing[b - 1])
  }

  function Members(xs: seq<Entry>): set<Entry> {
    set e | e in xs
  }

  lemma {:induction false} MembersSize(xs: seq<Entry>)
    ensures |Members(xs)| <= |xs|
    ensures (forall j, k :: 0 <= j < k < |xs| ==> xs[j] != xs[k]) ==> |Members(xs)| == |xs|
  {
    if |xs| > 0 {
      var before, e := xs[..|xs| - 1], xs[|xs| - 1];
      MembersSize(before);
      assert xs == before + [e];
      assert Members(xs) == Members(before) + {e};
    }
  }

  /** Where a boundary parts one listing, it parts every other at the same place:
      the same entries come before it. */
  lemma SamePart(xs: seq<Entry>, ys: seq<Entry>, rows: set<Entry>, b: nat)
    requires Lists(xs, rows) && Lists(ys, rows) && 0 < b < |xs| && Parted(xs, b)
    ensures |ys| == |xs|
    ensures forall j :: 0 <= j < |ys| ==> (Above(xs, b, ys[j]) <==> j < b)
  {
    SameSize(xs, ys, rows);
    AboveIff(xs, rows, b);
    var up := Members(xs[..b]);
    MembersSize(xs[..b]);
    assert forall e :: e in up ==> e in xs;
    forall j | 0 <= j < |ys| ensures ys[j] in rows && (Above(xs, b, ys[j]) <==> ys[j] in up) {
      assert ys[j] in ys;
    }
    forall j | 0 <= j < |ys| ensures Above(xs, b, ys[j]) <==> j < b {
      if j < b && ys[j] !in up {
        NoneAfter(ys, up, j, xs, b);
        Crowded(ys, up, j);
      } else if b <= j && ys[j] in up {
        AllBefore(ys, up, j, xs, b);
        Filled(ys, up, j);
      }
    }
  }

  lemma SameSize(xs: seq<Entry>, ys: seq<Entry>, rows: set<Entry>)
    requires Lists(xs, rows) && Lists(ys, rows)
    ensures |xs| == |ys| == |rows|
  {
    MembersSize(xs);
    MembersSize(ys);
    assert Members(xs) == rows == Members(ys);
  }

  lemma AboveIff(xs: seq<Entry>, rows: set<Entry>, b: nat)
    requires Lists(xs, rows) && 0 < b < |xs| && Parted(xs, b)
    ensures forall e :: e in rows ==> (Above(xs, b, e) <==> e in Members(xs[..b]))
  {
    forall e | e in rows ensures Above(xs, b, e) <==> e in xs[..b] {
      var k :| 0 <= k < |xs| && xs[k] == e;
      if k < b {
        assert xs[..b][k] == e;
      }
    }
  }

  lemma NoneAfter(ys: seq<Entry>, up: set<Entry>, j: nat, xs: seq<Entry>, b: nat)
    requires j < |ys| && 0 < b < |xs|
    requires forall i, k :: 0 <= i < k < |ys| ==> NotBelow(ys[i], ys[k])
    requires forall i :: 0 <= i < |ys| ==> (Above(xs, b, ys[i]) <==> ys[i] in up)
    requires ys[j] !in up
    ensures forall k :: j <= k < |ys| ==> ys[k] !in up
  {
  }

  lemma Crowded(ys: seq<Entry>, up: set<Entry>, j: nat)
    requires j < |ys| && forall e :: e in up ==> e in ys
    requires forall k :: j <= k < |ys| ==> ys[k] !in up
    ensures |up| <= j
  {
    forall e | e in up ensures e in ys[..j] {
      var k :| 0 <= k < |ys| && ys[k] == e;
      assert ys[..j][k] == e;
    }
    MembersSize(ys[..j]);
    SubsetSize(up, Members(ys[..j]));
  }

  lemma AllBefore(ys: seq<Entry>, up: set<Entry>, j: nat, xs: seq<Entry>, b: nat)
    requires j < |ys| && 0 < b < |xs|
    requires forall i, k :: 0 <= i < k < |ys| ==> NotBelow(ys[i], ys[k])
    requires forall i :: 0 <= i < |ys| ==> (Above(xs, b, ys[i]) <==> ys[i] in up)
    requires ys[j] in up
    ensures forall k :: 0 <= k <= j ==> ys[k] in up
  {
  }

  lemma Filled(ys: seq<Entry>, up: set<Entry>, j: nat)
    requires j < |ys| && forall i, k :: 0 <= i < k < |ys| ==> ys[i] != ys[k]
    requires forall k :: 0 <= k <= j ==> ys[k] in up
    ensures |up| > j
  {
    MembersSize(ys[..j + 1]);
    SubsetSize(Members(ys[..j + 1]), up);
  }

  // --------------------------------------------------- pages of separate queries

  /** Page k read from listings[k - 1]. */
  function PagesRead(window: string, listings: seq<seq<Entry>>): seq<Ranked> {
    if |listings| == 0 then []
    else
      var listing := listings[|listings| - 1];
      PagesRead(window, listings[..|listings| - 1]) + Rows(TopOf(window, |listings|, |listing|, listing, true))
  }

  /** What a reader of these pages gets, place by place. */
  ghost predicate ReadAt(r: seq<Ranked>, listings: seq<seq<Entry>>, total: nat)
    requires forall k :: 0 <= k < |listings| ==> |listings[k]| == total
  {
    && |r| == Min(5 * |listings|, total)
    && forall j :: 0 <= j < |r| ==> j / 5 < |listings| && r[j] == Ranked(j + 1, listings[j / 5][j])
  }

  lemma OneMorePage(r: seq<Ranked>, listings: seq<seq<Entry>>, total: nat)
    requires |listings| > 0 && forall k :: 0 <= k < |listings| ==> |listings[k]| == total
    requires ReadAt(r, listings[..|listings| - 1], total)
    ensures var n := |listings|;
            var page := RankedFrom(listings[n - 1], 1)[Min(5 * (n - 1), total)..Min(5 * n, total)];
            ReadAt(r + page, listings, total)
  {
    var n := |listings|;
    var all := RankedFrom(listings[n - 1], 1);
    var page := all[Min(5 * (n - 1), total)..Min(5 * n, total)];
    forall j | 0 <= j < |r + page| ensures j / 5 < n && (r + page)[j] == Ranked(j + 1, listings[j / 5][j]) {
      if j < |r| {
        assert listings[..n - 1][j / 5] == listings[j / 5];
      } else {
        assert j / 5 == n - 1 && (r + page)[j] == all[j];
      }
    }
  }

  lemma PagesReachable(total: nat, n: nat)
    requires Countable(total) && n <= TotalPages(total)
    ensures Reachable(n)
  {
  }

  lemma LastPageRead(window: string, listings: seq<seq<Entry>>, total: nat)
    requires KnownWindow(window) && Countable(total) && 0 < |listings| <= TotalPages(total)
    requires |listings[|listings| - 1]| == total
    ensures var n := |listings|;
      PagesRead(window, listings) == PagesRead(window, listings[..n - 1]) +
                                     RankedFrom(listings[n - 1], 1)[Min(5 * (n - 1), total)..Min(5 * n, total)]
  {
    var n := |listings|;
    PagesReachable(total, n);
    PageInFull(window, total, listings[n - 1], n);
    assert Through(listings[n - 1], n - 1) == Min(5 * (n - 1), total);
    assert Through(listings[n - 1], n) == Min(5 * n, total);
  }

  lemma {:induction false} PagesReadAt(window: string, listings: seq<seq<Entry>>, total: nat)
    requires KnownWindow(window) && Countable(total) && |listings| <= TotalPages(total)
    requires forall k :: 0 <= k < |listings| ==> |listings[k]| == total
    ensures ReadAt(PagesRead(window, listings), listings, total)
  {
    if |listings| > 0 {
      var before := listings[..|listings| - 1];
      PagesReadAt(window, before, total);
      LastPageRead(window, listings, total);
      OneMorePage(PagesRead(window, before), listings, total);
    }
  }

  /** One listing for every page, each of them some answer of the query. */
  ghost predicate Reads(listings: seq<seq<Entry>>, rows: set<Entry>) {
    |listings| == TotalPages(|rows|) && forall k :: 0 <= k < |listings| ==> Lists(listings[k], rows)
  }

  ghost predicate ShowsEachOnce(shown: seq<Ranked>, rows: set<Entry>) {
    && (forall e :: e in rows ==> exists j :: 0 <= j < |shown| && shown[j].entry == e)
    && (forall j :: 0 <= j < |shown| ==> shown[j].entry in rows)
    && (forall i, j :: 0 <= i < j < |shown| ==> shown[i].entry != shown[j].entry)
  }

  /** No tie reaches across the end of a page. */
  predicate PagesParted(listing: seq<Entry>) {
    forall b :: 0 < b < |listing| && b % 5 == 0 ==> Parted(listing, b)
  }

  /** r is what reading these pages of these rows shows. */
  ghost predicate Shows(r: seq<Ranked>, listings: seq<seq<Entry>>, rows: set<Entry>) {
    && |r| == |rows|
    && forall j :: 0 <= j < |r| ==>
         j / 5 < |listings| && |listings[j / 5]| == |rows| && r[j] == Ranked(j + 1, listings[j / 5][j])
  }

  lemma ReadsShow(window: string, listings: seq<seq<Entry>>, rows: set<Entry>)
    requires KnownWindow(window) && Countable(|rows|) && Reads(listings, rows)
    ensures Shows(PagesRead(window, listings), listings, rows)
  {
    forall k | 0 <= k < |listings| ensures |listings[k]| == |rows| {
      SameSize(listings[k], listings[k], rows);
    }
    PagesReadAt(window, listings, |rows|);
  }

  lemma PartedShowsEach(r: seq<Ranked>, listings: seq<seq<Entry>>, listing: seq<Entry>, rows: set<Entry>)
    requires Lists(listing, rows) && Reads(listings, rows) && Shows(r, listings, rows)
    requires PagesParted(listing)
    ensures ShowsEachOnce(r, rows)
  {
    forall j | 0 <= j < |r| ensures r[j].entry in rows {
      ShowsRow(r, listings, rows, j);
    }
    forall i, j | 0 <= i < j < |r| ensures r[i].entry != r[j].entry {
      ShowsApart(r, listings, listing, rows, i, j);
    }
    AllShown(r, rows);
  }

  lemma ShowsRow(r: seq<Ranked>, listings: seq<seq<Entry>>, rows: set<Entry>, j: nat)
    requires Reads(listings, rows) && Shows(r, listings, rows) && j < |r|
    ensures r[j].entry in rows
  {
    assert Lists(listings[j / 5], rows) && listings[j / 5][j] in listings[j / 5];
  }

  lemma ShowsApart(r: seq<Ranked>, listings: seq<seq<Entry>>, listing: seq<Entry>, rows: set<Entry>, i: nat, j: nat)
    requires Lists(listing, rows) && Reads(listings, rows) && Shows(r, listings, rows)
    requires PagesParted(listing) && i < j < |r|
    ensures r[i].entry != r[j].entry
  {
    assert Lists(listings[i / 5], rows) && Lists(listings[j / 5], rows);
    if i / 5 < j / 5 {
      PagesApart(listing, listings[i / 5], listings[j / 5], rows, i, j);
    }
  }

  lemma PagesApart(listing: seq<Entry>, xs: seq<Entry>, ys: seq<Entry>, rows: set<Entry>, i: nat, j: nat)
    requires Lists(listing, rows) && Lists(xs, rows) && Lists(ys, rows) && PagesParted(listing)
    requires j < |rows| && i / 5 < j / 5
    ensures |xs| == |ys| == |rows| && xs[i] != ys[j]
  {
    var b := 5 * (j / 5);
    SameSize(listing, xs, rows);
    SamePart(listing, xs, rows, b);
    SamePart(listing, ys, rows, b);
    assert Above(listing, b, xs[i]) && !Above(listing, b, ys[j]);
  }

  lemma AllShown(r: seq<Ranked>, rows: set<Entry>)
    requires |r| == |rows|
    requires forall j :: 0 <= j < |r| ==> r[j].entry in rows
    requires forall i, j :: 0 <= i < j < |r| ==> r[i].entry != r[j].entry
    ensures forall e :: e in rows ==> exists j :: 0 <= j < |r| && r[j].entry == e
  {
    var es := seq(|r|, k requires 0 <= k < |r| => r[k].entry);
    MembersSize(es);
    SubsetSize(Members(es), rows);
    forall e | e in rows ensures exists j :: 0 <= j < |r| && r[j].entry == e {
      assert e in es;
    }
  }

  /** The listing with two tied neighbours exchanged. */
  function Exchanged(xs: seq<Entry>, b: nat): seq<Entry>
    requires 0 < b < |xs|
  {
    xs[b - 1 := xs[b]][b := xs[b - 1]]
  }

  lemma ExchangedLists(xs: seq<Entry>, rows: set<Entry>, b: nat)
    requires Lists(xs, rows) && 0 < b < |xs| && !Parted(xs, b)
    ensures Lists(Exchanged(xs, b), rows)
  {
    var ys := Exchanged(xs, b);
    forall e ensures e in ys <==> e in rows {
      if e in rows {
        var k :| 0 <= k < |xs| && xs[k] == e;
        assert ys[if k == b then b - 1 else if k == b - 1 then b else k] == e;
      }
    }
  }

  /** The first k pages are answered one way, the others the other way. */
  function Switched(xs: seq<Entry>, ys: seq<Entry>, k: nat, n: nat): (r: seq<seq<Entry>>)
    ensures |r| == n && forall i :: 0 <= i < n ==> r[i] == if i < k then xs else ys
  {
    seq(n, i => if i < k then xs else ys)
  }

  lemma TieShowsTwice(window: string, xs: seq<Entry>, rows: set<Entry>, b: nat) returns (listings: seq<seq<Entry>>)
    requires KnownWindow(window) && Countable(|rows|) && Lists(xs, rows)
    requires 0 < b < |xs| && b % 5 == 0 && !Parted(xs, b)
    ensures Reads(listings, rows) && !ShowsEachOnce(PagesRead(window, listings), rows)
  {
    SameSize(xs, xs, rows);
    ExchangedLists(xs, rows, b);
    listings := Switched(xs, Exchanged(xs, b), b / 5, TotalPages(|rows|));
    ReadsShow(window, listings, rows);
    var r := PagesRead(window, listings);
    assert r[b - 1].entry == xs[b - 1] == r[b].entry;
  }

  /** The pages, each from a query that may order ties afresh, are sure to show every
      entry exactly once if and only if no tie reaches across the end of a page. */
  lemma PagesFitIff(window: string, listing: seq<Entry>, rows: set<Entry>)
    requires KnownWindow(window) && Countable(|rows|) && Lists(listing, rows)
    ensures (forall listings :: Reads(listings, rows) ==> ShowsEachOnce(PagesRead(window, listings), rows))
       <==> PagesParted(listing)
  {
    if PagesParted(listing) {
      forall listings | Reads(listings, rows) ensures ShowsEachOnce(PagesRead(window, listings), rows) {
        ReadsShow(window, listings, rows);
        PartedShowsEach(PagesRead(window, listings), listings, listing, rows);
      }
    } else {
      var b :| 0 < b < |listing| && b % 5 == 0 && !Parted(listing, b);
      var listings := TieShowsTwice(window, listing, rows, b);
    }
  }

  /** No ties but among the first page's entries. */
  predicate PartedPastFirst(listing: seq<Entry>) {
    forall b :: 5 <= b < |listing| ==> Parted(listing, b)
  }

  lemma PartedOnePlace(xs: seq<Entry>, ys: seq<Entry>, rows: set<Entry>, j: nat)
    requires Lists(xs, rows) && Lists(ys, rows) && PartedPastFirst(xs) && 5 <= j < |xs|
    ensures |ys| == |xs| && ys[j] == xs[j]
  {
    SamePart(xs, ys, rows, j);
    assert xs[j] in rows && xs[j] in ys;
    var k :| 0 <= k < |ys| && ys[k] == xs[j];
    if j + 1 < |xs| {
      SamePart(xs, ys, rows, j + 1);
      SamePart(xs, xs, rows, j + 1);
      assert Above(xs, j + 1, ys[k]);
    }
    SamePart(xs, xs, rows, j);
    assert !Above(xs, j, ys[k]);
  }

  lemma PartedAgree(r: seq<Ranked>, listing: seq<Entry>, listings: seq<seq<Entry>>, rows: set<Entry>)
    requires Lists(listing, rows) && PartedPastFirst(listing)
    requires Reads(listings, rows) && listings[0] == listing && Shows(r, listings, rows)
    ensures r == RankedFrom(listing, 1)
  {
    SameSize(listing, listing, rows);
    forall j | 0 <= j < |r| ensures r[j] == Ranked(j + 1, listing[j]) {
      if j >= 5 {
        PartedOnePlace(listing, listings[j / 5], rows, j);
      }
    }
  }

  lemma ExchangeDisagrees(window: string, listing: seq<Entry>, rows: set<Entry>, b: nat)
    returns (listings: seq<seq<Entry>>)
    requires KnownWindow(window) && Countable(|rows|) && Lists(listing, rows)
    requires 5 <= b < |listing| && !Parted(listing, b)
    ensures Reads(listings, rows) && listings[0] == listing && PagesRead(window, listings) != RankedFrom(listing, 1)
  {
    SameSize(listing, listing, rows);
    ExchangedLists(listing, rows, b);
    listings := Switched(listing, Exchanged(listing, b), b / 5, TotalPages(|rows|));
    ReadsShow(window, listings, rows);
    assert PagesRead(window, listings)[b].entry == listing[b - 1] != listing[b];
  }

  /** They are sure to make up the ranking that the first page began if and only if
      nobody past the first page ties with a neighbour. */
  lemma SeparateQueriesAgree(window: string, listing: seq<Entry>, rows: set<Entry>)
    requires KnownWindow(window) && Countable(|rows|) && Lists(listing, rows)
    ensures (forall listings :: Reads(listings, rows) && listings[0] == listing ==>
               PagesRead(window, listings) == RankedFrom(listing, 1))
       <==> PartedPastFirst(listing)
  {
    if PartedPastFirst(listing) {
      forall listings | Reads(listings, rows) && listings[0] == listing
        ensures PagesRead(window, listings) == RankedFrom(listing, 1)
      {
        ReadsShow(window, listings, rows);
        PartedAgree(PagesRead(window, listings), listing, listings, rows);
      }
    } else {
      var b :| 5 <= b < |listing| && !Parted(listing, b);
      var listings := ExchangeDisagrees(window, listing, rows, b);
    }
  }
}
