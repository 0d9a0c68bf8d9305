// Keyset pages, newest first: one page of a query, and what following the cursors adds up
// to while rows come and go between the pages.
module Keyset {
  import opened Options
  import Cursor
  import UuidText

  type Id = n: nat | n < 0x1_0000_0000_0000_0000_0000_0000_0000_0000

  // --- a query's rows in order ----------------------------------------------------------

  ghost predicate Descends(ids: seq<Id>) {
    forall i, j :: 0 <= i < j < |ids| ==> ids[i] > ids[j]
  }

  ghost predicate IsGreatest(ids: set<Id>, m: Id) {
    m in ids && forall x :: x in ids ==> x <= m
  }

  lemma {:induction false} HasGreatest(ids: set<Id>) returns (m: Id)
    requires ids != {}
    ensures IsGreatest(ids, m)
  {
    var one :| one in ids;
    var rest := ids - {one};
    assert ids == rest + {one};
    if rest == {} {
      m := one;
    } else {
      var other := HasGreatest(rest);
      m := if other > one then other else one;
    }
  }

  ghost function Greatest(ids: set<Id>): (m: Id)
    requires ids != {}
    ensures IsGreatest(ids, m)
  {
    assert exists n :: IsGreatest(ids, n) by {
      var n := HasGreatest(ids);
    }
    var m :| IsGreatest(ids, m);
    m
  }

  // `ORDER BY id DESC`.
  ghost function NewestFirst(ids: set<Id>): seq<Id> {
    if ids == {} then [] else [Greatest(ids)] + NewestFirst(ids - {Greatest(ids)})
  }

  lemma {:induction false} NewestFirstIs(ids: set<Id>)
    ensures Descends(NewestFirst(ids))
    ensures forall x :: x in NewestFirst(ids) <==> x in ids
  {
    if ids != {} {
      var m := Greatest(ids);
      var rest := NewestFirst(ids - {m});
      NewestFirstIs(ids - {m});
      forall i, j | 0 <= i < j < |[m] + rest|
        ensures ([m] + rest)[i] > ([m] + rest)[j]
      {
        assert rest[j - 1] in rest;
      }
    }
  }

  lemma HasMember(a: seq<Id>)
    requires a != []
    ensures exists x :: x in a
  {
    assert a[0] in a;
  }

  lemma {:induction false} DescendingIsUnique(a: seq<Id>, b: seq<Id>)
    requires Descends(a) && Descends(b) && forall x :: x in a <==> x in b
    ensures a == b
  {
    if a == [] {
      if b != [] {
        HasMember(b);
      }
    } else if b == [] {
      HasMember(a);
    } else {
      assert a[0] in b && b[0] in a;
      assert a[0] == b[0];
      forall x
        ensures x in a[1..] <==> x in b[1..]
      {
        assert x in a[1..] <==> x in a && x != a[0];
        assert x in b[1..] <==> x in b && x != b[0];
      }
      DescendingIsUnique(a[1..], b[1..]);
    }
  }

  // --- one page ---------------------------------------------------------------------------

  datatype Page<T> = Page(items: seq<T>, next: Option<string>)

  // Asking for one row more than the caller wants.
  function FetchLimit(limit: nat): nat {
    limit + 1
  }

  // The page and the cursor that follows it, from a result over-fetched by one.
  function BuildPage<T>(rows: seq<T>, limit: nat, key: T -> seq<string>): Page<T> {
    var hasMore := |rows| > limit;
    var items := if |rows| > limit then rows[..limit] else rows;
    Page(items, if hasMore && items != [] then Some(Cursor.Encode(key(items[|items| - 1]))) else None)
  }

  function KeyOf(id: Id): seq<string> {
    [UuidText.Text(id)]
  }

  // The rows a keyset query selects: those below the cursor.
  ghost function Below(ids: set<Id>, cursor: Option<Id>): set<Id> {
    set x | x in ids && (cursor.None? || x < cursor.value)
  }

  // `LIMIT`.
  function FirstRows<T>(rows: seq<T>, n: nat): seq<T> {
    if |rows| > n then rows[..n] else rows
  }

  ghost function PageOf(ids: set<Id>, cursor: Option<Id>, limit: nat): Page<Id> {
    BuildPage(FirstRows(NewestFirst(Below(ids, cursor)), FetchLimit(limit)), limit, KeyOf)
  }

  // --- following the cursors ---------------------------------------------------------------

  type Parser = string -> Option<Id>

  // `uuid.UUID` reads what `str` writes.
  ghost predicate Reads(parse: Parser) {
    forall id: Id :: parse(UuidText.Text(id)) == Some(id)
  }

  // Such a parser there is, since no two ids share a text.
  lemma SomeParserReads()
    ensures exists parse: Parser :: Reads(parse)
  {
    var parse: Parser := s => if exists id: Id :: UuidText.Text(id) == s then
                                var id: Id :| UuidText.Text(id) == s; Some(id)
                              else None;
    forall id: Id
      ensures parse(UuidText.Text(id)) == Some(id)
    {
      forall other: Id | UuidText.Text(other) == UuidText.Text(id)
        ensures other == id
      {
        UuidText.TextSettles(other, id);
      }
    }
    assert Reads(parse);
  }

  // The id a cursor holds.
  function Held(cursor: string, parse: Parser): Option<Id> {
    var decoded := Cursor.Decode(cursor, [parse]);
    if decoded.Some? && |decoded.value| == 1 then Some(decoded.value[0]) else None
  }

  lemma CursorHoldsLast(id: Id, parse: Parser)
    requires Reads(parse)
    ensures Held(Cursor.Encode(KeyOf(id)), parse) == Some(id)
  {
    UuidText.TextHasNoSeparator(id);
    Cursor.DecodesOwnCursor(KeyOf(id), [parse]);
  }

  // The id that the next page would start below.
  function NextOf(page: Page<Id>, parse: Parser): Option<Id> {
    if page.next.None? then None else Held(page.next.value, parse)
  }

  // The cursor that the page with this index was asked for with.
  function Asked(pages: seq<Page<Id>>, i: nat, parse: Parser): Option<Id>
    requires i <= |pages|
  {
    if i == 0 then None else NextOf(pages[i - 1], parse)
  }

  // Every page but the last says there is more.
  ghost predicate Continues(pages: seq<Page<Id>>) {
    forall i :: 0 <= i < |pages| - 1 ==> pages[i].next.Some?
  }

  // A walk: each page is of the rows there were when it was asked for, and every page but
  // the last says there is more.
  ghost predicate IsWalk(tables: seq<set<Id>>, pages: seq<Page<Id>>, limit: nat, parse: Parser) {
    && |tables| == |pages|
    && (forall i :: 0 <= i < |pages| ==> pages[i] == PageOf(tables[i], Asked(pages, i, parse), limit))
    && Continues(pages)
  }

  function Items<T>(pages: seq<Page<T>>): seq<T> {
    if pages == [] then [] else Items(pages[..|pages| - 1]) + pages[|pages| - 1].items
  }

  // The rows a walk has covered when its next page would be asked for with this cursor.
  predicate Covered(id: Id, cursor: Option<Id>, ended: bool) {
    ended || (cursor.Some? && id >= cursor.value)
  }

  // What one page adds below its cursor, and the cursor it leads to.
  ghost predicate Adds(ids: set<Id>, cursor: Option<Id>, items: seq<Id>, next: Option<Id>, ended: bool) {
    && Descends(items)
    && (forall x :: x in items ==> x in Below(ids, cursor) && Covered(x, next, ended))
    && (ended || (next.Some? && (cursor.Some? ==> next.value < cursor.value)))
    && (forall x :: x in Below(ids, cursor) && Covered(x, next, ended) ==> x in items)
  }

  // A page holds the newest rows below its cursor, at most as many as asked for, and a
  // cursor naming the last of them exactly when there are more.
  lemma PageIs(ids: set<Id>, cursor: Option<Id>, limit: nat, parse: Parser, page: Page<Id>)
    requires limit >= 1 && Reads(parse) && page == PageOf(ids, cursor, limit)
    ensures |page.items| <= limit && Adds(ids, cursor, page.items, NextOf(page, parse), page.next.None?)
  {
    var all := NewestFirst(Below(ids, cursor));
    NewestFirstIs(Below(ids, cursor));
    if |all| > limit {
      assert FirstRows(all, FetchLimit(limit))[..limit] == all[..limit];
      assert page.items == all[..limit];
      var last := all[limit - 1];
      assert page.next == Some(Cursor.Encode(KeyOf(last)));
      CursorHoldsLast(last, parse);
      FirstAdd(Below(ids, cursor), all, limit);
      assert last in Below(ids, cursor);
      AddsFirst(ids, cursor, all[..limit], last);
    } else {
      assert page.items == all && page.next.None?;
    }
  }

  // A page with a cursor is full, and its cursor leads to below its last row.
  lemma PageWithCursorIsFull(ids: set<Id>, cursor: Option<Id>, limit: nat, parse: Parser, page: Page<Id>)
    requires limit >= 1 && Reads(parse) && page == PageOf(ids, cursor, limit) && page.next.Some?
    ensures |page.items| == limit && NextOf(page, parse) == Some(page.items[limit - 1])
  {
    CursorHoldsLast(page.items[limit - 1], parse);
  }

  lemma AddsFirst(ids: set<Id>, cursor: Option<Id>, items: seq<Id>, last: Id)
    requires Descends(items) && last in Below(ids, cursor)
    requires forall x :: x in items ==> x in Below(ids, cursor) && x >= last
    requires forall x: Id :: x in Below(ids, cursor) && x >= last ==> x in items
    ensures Adds(ids, cursor, items, Some(last), false)
  {
  }

  lemma FirstAdd(ids: set<Id>, all: seq<Id>, n: nat)
    requires Descends(all) && 0 < n <= |all| && forall x :: x in all <==> x in ids
    ensures Descends(all[..n]) && all[n - 1] in ids
    ensures forall x :: x in all[..n] ==> x in ids && x >= all[n - 1]
    ensures forall x :: x in ids && x >= all[n - 1] ==> x in all[..n]
  {
    FirstHoldNewest(all, n);
    LastIsLeast(all[..n]);
    assert all[n - 1] in all;
  }

  lemma FirstHoldNewest(all: seq<Id>, n: nat)
    requires Descends(all) && 0 < n <= |all|
    ensures forall x :: x in all && x >= all[n - 1] ==> x in all[..n]
    ensures forall x :: x in all[..n] ==> x in all
  {
    forall x | x in all && x >= all[n - 1]
      ensures x in all[..n]
    {
      var k :| 0 <= k < |all| && all[k] == x;
      assert all[..n][k] == x;
    }
  }

  ghost predicate Throughout(tables: seq<set<Id>>, id: Id) {
    forall i :: 0 <= i < |tables| ==> id in tables[i]
  }

  // What a walk's items come to when its next page would be asked for with this cursor:
  // everything covered, in order.
  ghost predicate Holds(tables: seq<set<Id>>, items: seq<Id>, cursor: Option<Id>, ended: bool) {
    && (ended || cursor.Some?)
    && Descends(items)
    && (forall x :: x in items ==> Covered(x, cursor, ended))
    && (forall x :: Throughout(tables, x) && Covered(x, cursor, ended) ==> x in items)
  }

  lemma PageAdds(tables: seq<set<Id>>, pages: seq<Page<Id>>, i: nat, limit: nat, parse: Parser)
    requires IsWalk(tables, pages, limit, parse) && limit >= 1 && Reads(parse) && i < |pages|
    ensures |pages[i].items| <= limit
    ensures Adds(tables[i], Asked(pages, i, parse), pages[i].items, Asked(pages, i + 1, parse), pages[i].next.None?)
  {
    PageIs(tables[i], Asked(pages, i, parse), limit, parse, pages[i]);
  }

  // Each page adds to what came before, and only the last may end the walk.
  ghost predicate AddsUp(tables: seq<set<Id>>, pages: seq<Page<Id>>, asked: seq<Option<Id>>)
  {
    && |tables| == |pages| && |asked| == |pages| + 1 && asked[0] == None
    && (forall i :: 0 <= i < |pages| ==> Adds(tables[i], asked[i], pages[i].items, asked[i + 1], pages[i].next.None?))
    && Continues(pages)
  }

  lemma ItemsOfOneMore(pages: seq<Page<Id>>, n: nat)
    requires n < |pages|
    ensures Items(pages[..n + 1]) == Items(pages[..n]) + pages[n].items
  {
    assert pages[..n + 1][..n] == pages[..n];
  }

  lemma {:induction false} WalkCovers(tables: seq<set<Id>>, pages: seq<Page<Id>>, asked: seq<Option<Id>>, n: nat)
    requires AddsUp(tables, pages, asked) && 0 < n <= |pages|
    ensures Holds(tables[..n], Items(pages[..n]), asked[n], pages[n - 1].next.None?)
    decreases n
  {
    if n == 1 {
      FirstPageCovers(tables, pages, asked);
    } else {
      WalkCovers(tables, pages, asked, n - 1);
      NextPageCovers(tables, pages, asked, n);
    }
  }

  lemma FirstPageCovers(tables: seq<set<Id>>, pages: seq<Page<Id>>, asked: seq<Option<Id>>)
    requires AddsUp(tables, pages, asked) && pages != []
    ensures Holds(tables[..1], Items(pages[..1]), asked[1], pages[0].next.None?)
  {
    FirstHolds(tables[..1], pages[0].items, asked[1], pages[0].next.None?);
    ItemsOfOneMore(pages, 0);
    assert Items(pages[..0]) == [];
  }

  lemma NextPageCovers(tables: seq<set<Id>>, pages: seq<Page<Id>>, asked: seq<Option<Id>>, n: nat)
    requires AddsUp(tables, pages, asked) && 1 < n <= |pages|
    requires Holds(tables[..n - 1], Items(pages[..n - 1]), asked[n - 1], pages[n - 2].next.None?)
    ensures Holds(tables[..n], Items(pages[..n]), asked[n], pages[n - 1].next.None?)
  {
    ItemsOfOneMore(pages, n - 1);
    assert pages[n - 2].next.Some?;
    assert tables[..n][..n - 1] == tables[..n - 1];
    JoinHolds(tables[..n], Items(pages[..n - 1]), pages[n - 1].items, asked[n - 1], asked[n],
              pages[n - 1].next.None?, n - 1);
  }

  lemma FirstHolds(tables: seq<set<Id>>, items: seq<Id>, next: Option<Id>, ended: bool)
    requires |tables| == 1 && Adds(tables[0], None, items, next, ended)
    ensures Holds(tables, items, next, ended)
  {
    assert forall x :: Throughout(tables, x) ==> x in Below(tables[0], None);
  }

  ghost function AskedAll(pages: seq<Page<Id>>, parse: Parser): (asked: seq<Option<Id>>)
    ensures |asked| == |pages| + 1 && asked[0] == None
    ensures forall i :: 0 <= i <= |pages| ==> asked[i] == Asked(pages, i, parse)
  {
    seq(|pages| + 1, i requires 0 <= i <= |pages| => Asked(pages, i, parse))
  }

  lemma WalkAddsUp(tables: seq<set<Id>>, pages: seq<Page<Id>>, limit: nat, parse: Parser) returns (asked: seq<Option<Id>>)
    requires IsWalk(tables, pages, limit, parse) && limit >= 1 && Reads(parse)
    ensures AddsUp(tables, pages, asked)
  {
    asked := AskedAll(pages, parse);
    forall i | 0 <= i < |pages|
      ensures Adds(tables[i], asked[i], pages[i].items, asked[i + 1], pages[i].next.None?)
    {
      PageAdds(tables, pages, i, limit, parse);
    }
  }

  lemma ThroughoutBefore(tables: seq<set<Id>>, n: nat)
    requires n < |tables|
    ensures forall x :: Throughout(tables, x) ==> Throughout(tables[..n], x) && x in tables[n]
  {
    assert forall i :: 0 <= i < n ==> tables[..n][i] == tables[i];
  }

  // A page that goes on below the cursor keeps everything covered.
  lemma JoinHolds(
    tables: seq<set<Id>>, earlier: seq<Id>, items: seq<Id>, cursor: Option<Id>, next: Option<Id>, ended: bool, n: nat)
    requires n < |tables| && Holds(tables[..n], earlier, cursor, false) && Adds(tables[n], cursor, items, next, ended)
    requires n == |tables| - 1
    ensures Holds(tables, earlier + items, next, ended)
  {
    ThroughoutBefore(tables, n);
    DescendingJoin(earlier, items, cursor.value);
  }

  lemma LastIsLeast(ids: seq<Id>)
    requires Descends(ids) && ids != []
    ensures forall x :: x in ids ==> x >= ids[|ids| - 1]
  {
    forall x | x in ids
      ensures x >= ids[|ids| - 1]
    {
      var k :| 0 <= k < |ids| && ids[k] == x;
    }
  }

  lemma DescendingJoin(a: seq<Id>, b: seq<Id>, between: Id)
    requires Descends(a) && Descends(b)
    requires (forall x :: x in a ==> x >= between) && (forall x :: x in b ==> x < between)
    ensures Descends(a + b)
  {
    forall i, j | 0 <= i < j < |a + b|
      ensures (a + b)[i] > (a + b)[j]
    {
      if i < |a| <= j {
        assert a[i] in a && b[j - |a|] in b;
      }
    }
  }

  lemma EndedWalkHolds(tables: seq<set<Id>>, pages: seq<Page<Id>>, asked: seq<Option<Id>>)
    requires AddsUp(tables, pages, asked) && pages != [] && pages[|pages| - 1].next.None?
    ensures Descends(Items(pages))
    ensures forall x :: Throughout(tables, x) ==> x in Items(pages)
  {
    WalkCovers(tables, pages, asked, |pages|);
    assert tables[..|pages|] == tables && pages[..|pages|] == pages;
  }

  // A walk is in order wherever it stops.
  lemma WalkDescends(tables: seq<set<Id>>, pages: seq<Page<Id>>, limit: nat, parse: Parser)
    requires IsWalk(tables, pages, limit, parse) && limit >= 1 && Reads(parse) && pages != []
    ensures Descends(Items(pages))
  {
    var asked := WalkAddsUp(tables, pages, limit, parse);
    WalkCovers(tables, pages, asked, |pages|);
    assert pages[..|pages|] == pages;
  }

  lemma PageWithinTable(tables: seq<set<Id>>, pages: seq<Page<Id>>, i: nat, limit: nat, parse: Parser)
    requires IsWalk(tables, pages, limit, parse) && limit >= 1 && Reads(parse) && i < |pages|
    ensures |pages[i].items| <= limit
    ensures forall x :: x in pages[i].items ==> x in tables[i]
  {
    PageAdds(tables, pages, i, limit, parse);
  }

  // A whole walk, taken to where no cursor follows, while rows come and go: every page is
  // within the limit, the rows come newest first and none twice, each was there when its
  // page was asked for, and every row that was there throughout comes.
  lemma WalkIsExact(tables: seq<set<Id>>, pages: seq<Page<Id>>, limit: nat, parse: Parser)
    requires IsWalk(tables, pages, limit, parse) && limit >= 1 && Reads(parse)
    requires pages != [] && pages[|pages| - 1].next.None?
    ensures Descends(Items(pages))
    ensures forall i :: 0 <= i < |pages| ==> |pages[i].items| <= limit
    ensures forall i, x :: 0 <= i < |pages| && x in pages[i].items ==> x in tables[i]
    ensures forall x :: Throughout(tables, x) ==> x in Items(pages)
  {
    var asked := WalkAddsUp(tables, pages, limit, parse);
    EndedWalkHolds(tables, pages, asked);
    forall i | 0 <= i < |pages|
      ensures |pages[i].items| <= limit
      ensures forall x :: x in pages[i].items ==> x in tables[i]
    {
      PageWithinTable(tables, pages, i, limit, parse);
    }
  }

  // On a table that does not change, the pages add up to the whole ordered list.
  lemma StillWalkIsWholeList(ids: set<Id>, pages: seq<Page<Id>>, limit: nat, parse: Parser)
    requires IsWalk(seq(|pages|, _ => ids), pages, limit, parse) && limit >= 1 && Reads(parse)
    requires pages != [] && pages[|pages| - 1].next.None?
    ensures Items(pages) == NewestFirst(ids)
  {
    var tables := seq(|pages|, _ => ids);
    WalkIsExact(tables, pages, limit, parse);
    NewestFirstIs(ids);
    forall x
      ensures x in Items(pages) <==> x in NewestFirst(ids)
    {
      if x in Items(pages) {
        var i := PageHolding(pages, x);
        assert x in tables[i];
      }
      if x in ids {
        assert Throughout(tables, x);
      }
    }
    DescendingIsUnique(Items(pages), NewestFirst(ids));
  }

  lemma {:induction false} PageHolding<T>(pages: seq<Page<T>>, x: T) returns (i: nat)
    requires x in Items(pages)
    ensures i < |pages| && x in pages[i].items
  {
    var n := |pages| - 1;
    if x in pages[n].items {
      i := n;
    } else {
      i := PageHolding(pages[..n], x);
    }
  }

  // --- the walk ends ---------------------------------------------------------------------

  lemma {:induction false} DescendingFits(ids: set<Id>, s: seq<Id>)
    requires Descends(s) && forall x :: x in s ==> x in ids
    ensures |s| <= |ids|
  {
    if s != [] {
      DescendingFits(ids - {s[0]}, s[1..]);
      assert s[0] in ids;
    }
  }

  lemma {:induction false} FullPages(pages: seq<Page<Id>>, n: nat, limit: nat)
    requires n <= |pages| && forall i :: 0 <= i < n ==> |pages[i].items| == limit
    ensures |Items(pages[..n])| == n * limit
  {
    if n > 0 {
      FullPages(pages, n - 1, limit);
      ItemsOfOneMore(pages, n - 1);
    }
  }

  // A page with a cursor is full.
  lemma CursorMeansFull(ids: set<Id>, cursor: Option<Id>, limit: nat)
    requires PageOf(ids, cursor, limit).next.Some?
    ensures |PageOf(ids, cursor, limit).items| == limit
  {
  }

  lemma PagesAreFull(tables: seq<set<Id>>, pages: seq<Page<Id>>, limit: nat, parse: Parser, n: nat)
    requires IsWalk(tables, pages, limit, parse) && n < |pages|
    ensures |Items(pages[..n])| == n * limit
  {
    forall i | 0 <= i < n
      ensures |pages[i].items| == limit
    {
      assert pages[i].next.Some?;
      CursorMeansFull(tables[i], Asked(pages, i, parse), limit);
    }
    FullPages(pages, n, limit);
  }

  // Every page with a cursor is full, so a walk has at most one page more than are filled by
  // the rows there ever were while it went on, however they came and went.
  lemma WalkEnds(tables: seq<set<Id>>, all: set<Id>, pages: seq<Page<Id>>, limit: nat, parse: Parser)
    requires IsWalk(tables, pages, limit, parse) && limit >= 1 && Reads(parse) && pages != []
    requires forall i :: 0 <= i < |tables| ==> tables[i] <= all
    ensures (|pages| - 1) * limit <= |all|
  {
    var n := |pages| - 1;
    PagesAreFull(tables, pages, limit, parse, n);
    WalkDescends(tables, pages, limit, parse);
    ItemsOfOneMore(pages, n);
    assert pages[..n + 1] == pages;
    var items := Items(pages[..n]);
    assert Descends(items) by {
      assert forall i :: 0 <= i < |items| ==> Items(pages)[i] == items[i];
    }
    forall x | x in items
      ensures x in all
    {
      var i := PageHolding(pages[..n], x);
      PageWithinTable(tables, pages, i, limit, parse);
    }
    DescendingFits(all, items);
  }

  // A walk told without what a page is: each page is made from what the one before asks for.
  ghost predicate IsChain(make: Option<Id> -> Page<Id>, ask: Page<Id> -> Option<Id>, pages: seq<Page<Id>>) {
    (forall i :: 0 <= i < |pages| ==> IsMade(make, ask, pages, i)) && Continues(pages)
  }

  ghost predicate IsMade(make: Option<Id> -> Page<Id>, ask: Page<Id> -> Option<Id>, pages: seq<Page<Id>>, i: nat)
    requires i < |pages|
  {
    pages[i] == make(if i == 0 then None else ask(pages[i - 1]))
  }

  // While chains have at most n pages, each can be taken to a page with no cursor.
  lemma {:induction false} ChainCompletes(
    make: Option<Id> -> Page<Id>, ask: Page<Id> -> Option<Id>, pages: seq<Page<Id>>, n: nat) returns (whole: seq<Page<Id>>)
    requires forall chain :: IsChain(make, ask, chain) ==> |chain| <= n
    requires IsChain(make, ask, pages) && (pages != [] ==> pages[|pages| - 1].next.Some?)
    ensures whole != [] && pages <= whole && whole[|whole| - 1].next.None? && IsChain(make, ask, whole)
    decreases n - |pages|
  {
    var page := make(if pages == [] then None else ask(pages[|pages| - 1]));
    var more := pages + [page];
    forall i | 0 <= i < |more|
      ensures IsMade(make, ask, more, i)
    {
      assert i < |pages| ==> IsMade(make, ask, pages, i);
    }
    assert IsChain(make, ask, more);
    whole := more;
    if page.next.Some? {
      whole := ChainCompletes(make, ask, more, n);
      assert pages <= more <= whole;
    }
  }

  ghost function Maker(ids: set<Id>, limit: nat): Option<Id> -> Page<Id> {
    cursor => PageOf(ids, cursor, limit)
  }

  function Asker(parse: Parser): Page<Id> -> Option<Id> {
    page => NextOf(page, parse)
  }

  lemma SameMaking(ids: set<Id>, pages: seq<Page<Id>>, i: nat, limit: nat, parse: Parser)
    requires i < |pages|
    ensures IsMade(Maker(ids, limit), Asker(parse), pages, i) <==> pages[i] == PageOf(ids, Asked(pages, i, parse), limit)
  {
  }

  lemma WalkIsChain(ids: set<Id>, pages: seq<Page<Id>>, limit: nat, parse: Parser)
    ensures IsWalk(seq(|pages|, _ => ids), pages, limit, parse) <==> IsChain(Maker(ids, limit), Asker(parse), pages)
  {
    forall i | 0 <= i < |pages|
      ensures IsMade(Maker(ids, limit), Asker(parse), pages, i) <==> pages[i] == PageOf(ids, Asked(pages, i, parse), limit)
    {
      SameMaking(ids, pages, i, limit, parse);
    }
  }

  // And a walk can always be taken to its end: following the cursor of a page that has one
  // comes, after finitely many pages, to a page that has none.
  lemma StillWalkCompletes(ids: set<Id>, pages: seq<Page<Id>>, limit: nat, parse: Parser)
    returns (whole: seq<Page<Id>>)
    requires IsWalk(seq(|pages|, _ => ids), pages, limit, parse) && limit >= 1 && Reads(parse)
    requires pages != [] ==> pages[|pages| - 1].next.Some?
    ensures whole != [] && pages <= whole && whole[|whole| - 1].next.None?
    ensures IsWalk(seq(|whole|, _ => ids), whole, limit, parse)
  {
    WalkIsChain(ids, pages, limit, parse);
    whole := PagesComplete(ids, pages, limit, parse);
    WalkIsChain(ids, whole, limit, parse);
  }

  lemma PagesComplete(ids: set<Id>, pages: seq<Page<Id>>, limit: nat, parse: Parser) returns (whole: seq<Page<Id>>)
    requires IsChain(Maker(ids, limit), Asker(parse), pages) && limit >= 1 && Reads(parse)
    requires pages != [] ==> pages[|pages| - 1].next.Some?
    ensures whole != [] && pages <= whole && whole[|whole| - 1].next.None?
    ensures IsChain(Maker(ids, limit), Asker(parse), whole)
  {
    ChainsAreShort(ids, limit, parse);
    whole := ChainCompletes(Maker(ids, limit), Asker(parse), pages, |ids| + 1);
  }

  lemma ChainsAreShort(ids: set<Id>, limit: nat, parse: Parser)
    requires limit >= 1 && Reads(parse)
    ensures forall chain :: IsChain(Maker(ids, limit), Asker(parse), chain) ==> |chain| <= |ids| + 1
  {
    forall chain | IsChain(Maker(ids, limit), Asker(parse), chain)
      ensures |chain| <= |ids| + 1
    {
      ChainIsShort(ids, chain, limit, parse);
    }
  }

  lemma ChainIsShort(ids: set<Id>, chain: seq<Page<Id>>, limit: nat, parse: Parser)
    requires IsChain(Maker(ids, limit), Asker(parse), chain) && limit >= 1 && Reads(parse)
    ensures |chain| <= |ids| + 1
  {
    WalkIsChain(ids, chain, limit, parse);
    if chain != [] {
      WalkEnds(seq(|chain|, _ => ids), ids, chain, limit, parse);
      AtLeast(|chain| - 1, limit);
    }
  }

  lemma AtLeast(n: nat, k: nat)
    requires k >= 1
    ensures n * k >= n
  {
  }
}
