// Message search: the index finds candidates newest first, the database decides what is
// shown, and the cursor comes from the candidates.
module Search {
  import opened Options
  import opened Keyset
  import Cursor
  import UuidText
  import opened Messages

  // What the index holds of a message, and whether the query's words all match it.
  datatype Doc = Doc(workspace: nat, channel: nat, deleted: bool, matches: bool)

  // The candidates of a query: its filters are the whole of search's authorization.
  ghost function Candidates(index: map<Id, Doc>, workspace: nat, channels: set<nat>): set<Id> {
    set id | id in index && index[id].matches && index[id].workspace == workspace && index[id].channel in channels
             && !index[id].deleted
  }

  // The index sorts and seeks by the text of the id.
  ghost predicate TextDescends(ids: seq<Id>) {
    forall i, j :: 0 <= i < j < |ids| ==> UuidText.Less(UuidText.Text(ids[j]), UuidText.Text(ids[i]))
  }

  ghost function After(ids: set<Id>, cursor: Option<Id>): set<Id> {
    set x | x in ids && (cursor.None? || UuidText.Less(UuidText.Text(x), UuidText.Text(cursor.value)))
  }

  // What the index may answer: the first hits, in descending text order, after the cursor.
  ghost predicate IsAnswer(candidates: set<Id>, cursor: Option<Id>, size: nat, hits: seq<Id>) {
    exists all: seq<Id> :: && TextDescends(all) && (forall x :: x in all <==> x in After(candidates, cursor))
                  && hits == FirstRows(all, size)
  }

  // A hit is shown if its row is still there, visible, not deleted and no reply.
  predicate Shown(rows: Table, channels: set<nat>, id: Id) {
    id in rows && rows[id].channel in channels && !rows[id].deleted && rows[id].root.None?
  }

  // What the table still shows of the hits, as the index ordered them.
  function Hydrate(rows: Table, channels: set<nat>, hits: seq<Id>): seq<Id> {
    if hits == [] then []
    else Hydrate(rows, channels, hits[..|hits| - 1])
         + (if Shown(rows, channels, hits[|hits| - 1]) then [hits[|hits| - 1]] else [])
  }

  // One page: the cursor names the last hit, shown or not. With no visible channel the
  // index is not asked.
  function SearchPage(rows: Table, channels: set<nat>, hits: seq<Id>, limit: nat): Page<Id>
    requires limit >= 1
  {
    if channels == {} then Page([], None)
    else
      var kept := FirstRows(hits, limit);
      var next := if |hits| > limit then Some(Cursor.Encode([UuidText.Text(kept[|kept| - 1])])) else None;
      Page(Hydrate(rows, channels, kept), next)
  }

  // --- the order of the text is the order of the ids -------------------------------------

  // So the index answers as the keyset query does.
  lemma AnswerIsKeysetRows(candidates: set<Id>, cursor: Option<Id>, size: nat, hits: seq<Id>)
    requires IsAnswer(candidates, cursor, size, hits)
    ensures hits == FirstRows(NewestFirst(Below(candidates, cursor)), size)
  {
    var all: seq<Id> :| && TextDescends(all) && (forall x :: x in all <==> x in After(candidates, cursor))
               && hits == FirstRows(all, size);
    forall i, j | 0 <= i < j < |all|
      ensures all[i] > all[j]
    {
      UuidText.TextKeepsOrder(all[j], all[i]);
    }
    forall x: Id
      ensures x in After(candidates, cursor) <==> x in Below(candidates, cursor)
    {
      if cursor.Some? {
        UuidText.TextKeepsOrder(x, cursor.value);
      }
    }
    NewestFirstIs(Below(candidates, cursor));
    DescendingIsUnique(all, NewestFirst(Below(candidates, cursor)));
  }

  // --- paging through a search ---------------------------------------------------------------

  // Pages over one state of the index and the database, each asked for with the cursor of
  // the one before.
  ghost predicate IsSearch(
    candidates: set<Id>, rows: Table, channels: set<nat>, answers: seq<seq<Id>>, pages: seq<Page<Id>>, limit: nat, parse: Parser)
    requires limit >= 1
  {
    && |answers| == |pages|
    && (forall i :: 0 <= i < |pages| ==>
          && IsAnswer(candidates, Asked(pages, i, parse), FetchLimit(limit), answers[i])
          && pages[i] == SearchPage(rows, channels, answers[i], limit))
    && Continues(pages)
  }

  lemma {:induction false} HydrateOfSum(rows: Table, channels: set<nat>, a: seq<Id>, b: seq<Id>)
    ensures Hydrate(rows, channels, a + b) == Hydrate(rows, channels, a) + Hydrate(rows, channels, b)
  {
    if b == [] {
      assert a + b == a;
    } else {
      assert (a + b)[..|a + b| - 1] == a + b[..|b| - 1];
      HydrateOfSum(rows, channels, a, b[..|b| - 1]);
    }
  }

  // The pages of hits behind the pages shown.
  function HitPages(answers: seq<seq<Id>>, limit: nat): seq<Page<Id>> {
    seq(|answers|, i requires 0 <= i < |answers| => BuildPage(answers[i], limit, KeyOf))
  }

  lemma SamePages(rows: Table, channels: set<nat>, hits: seq<Id>, limit: nat)
    requires limit >= 1 && channels != {}
    ensures var shown, found := SearchPage(rows, channels, hits, limit), BuildPage(hits, limit, KeyOf);
            shown.next == found.next && shown.items == Hydrate(rows, channels, found.items)
  {
  }

  // Page by page, the hits' page has the cursor of the page shown, and the items it hydrates.
  ghost predicate Behind(rows: Table, channels: set<nat>, pages: seq<Page<Id>>, found: seq<Page<Id>>) {
    && |found| == |pages|
    && forall i :: 0 <= i < |pages| ==>
         pages[i].next == found[i].next && pages[i].items == Hydrate(rows, channels, found[i].items)
  }

  lemma HitPagesAreBehind(
    candidates: set<Id>, rows: Table, channels: set<nat>, answers: seq<seq<Id>>, pages: seq<Page<Id>>, limit: nat, parse: Parser)
    requires limit >= 1 && channels != {} && IsSearch(candidates, rows, channels, answers, pages, limit, parse)
    ensures Behind(rows, channels, pages, HitPages(answers, limit))
  {
    forall i | 0 <= i < |pages|
      ensures pages[i].next == HitPages(answers, limit)[i].next
      ensures pages[i].items == Hydrate(rows, channels, HitPages(answers, limit)[i].items)
    {
      SamePages(rows, channels, answers[i], limit);
    }
  }

  lemma SameCursors(rows: Table, channels: set<nat>, pages: seq<Page<Id>>, found: seq<Page<Id>>, parse: Parser)
    requires Behind(rows, channels, pages, found)
    ensures forall i :: 0 <= i <= |pages| ==> Asked(found, i, parse) == Asked(pages, i, parse)
    ensures Continues(pages) ==> Continues(found)
  {
  }

  lemma AnswerMakesPage(candidates: set<Id>, cursor: Option<Id>, limit: nat, hits: seq<Id>)
    requires IsAnswer(candidates, cursor, FetchLimit(limit), hits)
    ensures BuildPage(hits, limit, KeyOf) == PageOf(candidates, cursor, limit)
  {
    AnswerIsKeysetRows(candidates, cursor, FetchLimit(limit), hits);
  }

  lemma HitPagesAreWalk(
    candidates: set<Id>, rows: Table, channels: set<nat>, answers: seq<seq<Id>>, pages: seq<Page<Id>>, limit: nat, parse: Parser)
    requires limit >= 1 && channels != {} && IsSearch(candidates, rows, channels, answers, pages, limit, parse)
    ensures IsWalk(seq(|pages|, _ => candidates), HitPages(answers, limit), limit, parse)
  {
    var found := HitPages(answers, limit);
    HitPagesAreBehind(candidates, rows, channels, answers, pages, limit, parse);
    SameCursors(rows, channels, pages, found, parse);
    forall i | 0 <= i < |pages|
      ensures found[i] == PageOf(candidates, Asked(found, i, parse), limit)
    {
      AnswerMakesPage(candidates, Asked(pages, i, parse), limit, answers[i]);
    }
  }

  lemma {:induction false} ShownItems(
    rows: Table, channels: set<nat>, pages: seq<Page<Id>>, found: seq<Page<Id>>)
    requires |pages| == |found|
    requires forall i :: 0 <= i < |pages| ==> pages[i].items == Hydrate(rows, channels, found[i].items)
    ensures Items(pages) == Hydrate(rows, channels, Items(found))
  {
    if pages != [] {
      var n := |pages| - 1;
      ShownItems(rows, channels, pages[..n], found[..n]);
      HydrateOfSum(rows, channels, Items(found[..n]), found[n].items);
    }
  }

  // Paged to where no cursor follows, a search shows exactly the candidates that survive,
  // in order and once each, even where whole pages show nothing.
  lemma SearchSkipsNothing(
    candidates: set<Id>, rows: Table, channels: set<nat>, answers: seq<seq<Id>>, pages: seq<Page<Id>>, limit: nat, parse: Parser)
    requires limit >= 1 && Reads(parse)
    requires IsSearch(candidates, rows, channels, answers, pages, limit, parse)
    requires pages != [] && pages[|pages| - 1].next.None?
    ensures Items(pages) == Hydrate(rows, channels, NewestFirst(candidates))
    ensures forall id :: id in Items(pages) <==> id in candidates && Shown(rows, channels, id)
  {
    HydrateKeeps(rows, channels, NewestFirst(candidates));
    NewestFirstIs(candidates);
    if channels == {} {
      NothingVisible(candidates, rows, answers, pages, limit, parse);
    } else {
      var found := HitPages(answers, limit);
      HitPagesAreWalk(candidates, rows, channels, answers, pages, limit, parse);
      HitPagesAreBehind(candidates, rows, channels, answers, pages, limit, parse);
      StillWalkIsWholeList(candidates, found, limit, parse);
      ShownItems(rows, channels, pages, found);
    }
  }

  // So over an index and a database that stand still, the pages of a search are the messages
  // the index finds for the words in the workspace's visible channels and the database still
  // shows there.
  lemma SearchShowsTheMatches(
    index: map<Id, Doc>, workspace: nat, rows: Table, channels: set<nat>, answers: seq<seq<Id>>, pages: seq<Page<Id>>,
    limit: nat, parse: Parser, id: Id)
    requires limit >= 1 && Reads(parse)
    requires IsSearch(Candidates(index, workspace, channels), rows, channels, answers, pages, limit, parse)
    requires pages != [] && pages[|pages| - 1].next.None?
    ensures id in Items(pages) <==>
              && id in index && index[id].matches && index[id].workspace == workspace && index[id].channel in channels
              && !index[id].deleted
              && id in rows && rows[id].channel in channels && !rows[id].deleted && rows[id].root.None?
    ensures Descends(Items(pages))
  {
    var candidates := Candidates(index, workspace, channels);
    SearchSkipsNothing(candidates, rows, channels, answers, pages, limit, parse);
    NewestFirstIs(candidates);
    HydrateDescends(rows, channels, NewestFirst(candidates));
  }

  lemma {:induction false} HydrateDescends(rows: Table, channels: set<nat>, hits: seq<Id>)
    requires Descends(hits)
    ensures Descends(Hydrate(rows, channels, hits))
  {
    if hits != [] {
      var n := |hits| - 1;
      var rest := Hydrate(rows, channels, hits[..n]);
      HydrateDescends(rows, channels, hits[..n]);
      HydrateKeeps(rows, channels, hits[..n]);
      forall k | 0 <= k < |rest|
        ensures rest[k] > hits[n]
      {
        assert rest[k] in hits[..n];
      }
    }
  }

  // With no visible channel there is one page, and nothing on it.
  lemma NothingVisible(
    candidates: set<Id>, rows: Table, answers: seq<seq<Id>>, pages: seq<Page<Id>>, limit: nat, parse: Parser)
    requires limit >= 1 && pages != [] && IsSearch(candidates, rows, {}, answers, pages, limit, parse)
    ensures Items(pages) == [] == Hydrate(rows, {}, NewestFirst(candidates))
  {
    assert |pages| > 1 ==> pages[0].next.Some?;
    assert pages[0] == SearchPage(rows, {}, answers[0], limit);
    assert Items(pages[..0]) == [];
    HydrateNothing(rows, NewestFirst(candidates));
  }

  lemma {:induction false} HydrateNothing(rows: Table, hits: seq<Id>)
    ensures Hydrate(rows, {}, hits) == []
  {
    if hits != [] {
      HydrateNothing(rows, hits[..|hits| - 1]);
    }
  }

  lemma {:induction false} HydrateKeeps(rows: Table, channels: set<nat>, hits: seq<Id>)
    ensures forall id :: id in Hydrate(rows, channels, hits) <==> id in hits && Shown(rows, channels, id)
  {
    if hits != [] {
      var n := |hits| - 1;
      HydrateKeeps(rows, channels, hits[..n]);
      assert hits == hits[..n] + [hits[n]];
    }
  }

  // --- while the index and the database move on ----------------------------------------------

  // Each page is asked of what the index would find then, of the table then, and for what the
  // caller can see then.
  ghost predicate IsMovingSearch(
    candidates: seq<set<Id>>, rows: seq<Table>, channels: seq<set<nat>>, answers: seq<seq<Id>>, pages: seq<Page<Id>>,
    limit: nat, parse: Parser)
    requires limit >= 1
  {
    && |candidates| == |rows| == |channels| == |answers| == |pages|
    && (forall i :: 0 <= i < |pages| ==>
          && IsAnswer(candidates[i], Asked(pages, i, parse), FetchLimit(limit), answers[i])
          && pages[i] == SearchPage(rows[i], channels[i], answers[i], limit))
    && Continues(pages)
  }

  lemma ShownPage(rows: Table, channels: set<nat>, hits: seq<Id>, limit: nat)
    requires limit >= 1
    ensures var shown, found := SearchPage(rows, channels, hits, limit), BuildPage(hits, limit, KeyOf);
            && shown.items == Hydrate(rows, channels, found.items)
            && (channels != {} || shown.next.Some? ==> shown.next == found.next)
  {
    if channels == {} {
      HydrateNothing(rows, BuildPage(hits, limit, KeyOf).items);
    } else {
      SamePages(rows, channels, hits, limit);
    }
  }

  // Page by page, what is shown is what survives of the hits.
  ghost predicate Survives(rows: seq<Table>, channels: seq<set<nat>>, pages: seq<Page<Id>>, found: seq<Page<Id>>) {
    && |rows| == |channels| == |pages| == |found|
    && forall i :: 0 <= i < |pages| ==>
         && pages[i].items == Hydrate(rows[i], channels[i], found[i].items)
         && (channels[i] != {} || pages[i].next.Some? ==> pages[i].next == found[i].next)
  }

  lemma MovingPagesSurvive(
    candidates: seq<set<Id>>, rows: seq<Table>, channels: seq<set<nat>>, answers: seq<seq<Id>>, pages: seq<Page<Id>>,
    limit: nat, parse: Parser)
    requires limit >= 1 && IsMovingSearch(candidates, rows, channels, answers, pages, limit, parse)
    ensures Survives(rows, channels, pages, HitPages(answers, limit))
  {
    forall i | 0 <= i < |pages|
      ensures pages[i].items == Hydrate(rows[i], channels[i], HitPages(answers, limit)[i].items)
      ensures channels[i] != {} || pages[i].next.Some? ==> pages[i].next == HitPages(answers, limit)[i].next
    {
      ShownPage(rows[i], channels[i], answers[i], limit);
    }
  }

  // The cursors followed are those of the hits, so the hits make a walk.
  lemma SurvivorsAsk(
    rows: seq<Table>, channels: seq<set<nat>>, pages: seq<Page<Id>>, found: seq<Page<Id>>, parse: Parser)
    requires Survives(rows, channels, pages, found) && Continues(pages)
    ensures Continues(found)
    ensures forall i :: 0 <= i < |pages| ==> Asked(found, i, parse) == Asked(pages, i, parse)
  {
    forall i | 0 <= i < |pages| - 1
      ensures found[i].next == pages[i].next
    {
      assert pages[i].next.Some?;
    }
  }

  lemma MovingHitsAreWalk(
    candidates: seq<set<Id>>, rows: seq<Table>, channels: seq<set<nat>>, answers: seq<seq<Id>>, pages: seq<Page<Id>>,
    limit: nat, parse: Parser)
    requires limit >= 1 && IsMovingSearch(candidates, rows, channels, answers, pages, limit, parse)
    ensures IsWalk(candidates, HitPages(answers, limit), limit, parse)
  {
    var found := HitPages(answers, limit);
    MovingPagesSurvive(candidates, rows, channels, answers, pages, limit, parse);
    SurvivorsAsk(rows, channels, pages, found, parse);
    forall i | 0 <= i < |pages|
      ensures found[i] == PageOf(candidates[i], Asked(found, i, parse), limit)
    {
      AnswerMakesPage(candidates[i], Asked(pages, i, parse), limit, answers[i]);
    }
  }

  lemma DescendingParts(a: seq<Id>, b: seq<Id>)
    requires Descends(a + b)
    ensures Descends(a) && Descends(b) && forall x, y :: x in a && y in b ==> x > y
  {
    assert forall i :: 0 <= i < |a| ==> (a + b)[i] == a[i];
    assert forall i :: 0 <= i < |b| ==> (a + b)[|a| + i] == b[i];
  }

  lemma DescendingSum(a: seq<Id>, b: seq<Id>)
    requires Descends(a) && Descends(b) && forall x, y :: x in a && y in b ==> x > y
    ensures Descends(a + b)
  {
    forall i, j | 0 <= i < j < |a + b|
      ensures (a + b)[i] > (a + b)[j]
    {
      if i < |a| <= j {
        assert a[i] in a && b[j - |a|] in b;
      }
    }
  }

  lemma {:induction false} SurvivorsDescend(
    rows: seq<Table>, channels: seq<set<nat>>, pages: seq<Page<Id>>, found: seq<Page<Id>>)
    requires Survives(rows, channels, pages, found) && Descends(Items(found))
    ensures Descends(Items(pages)) && forall x :: x in Items(pages) ==> x in Items(found)
    decreases |pages|
  {
    if pages != [] {
      var n := |pages| - 1;
      var last, hits := pages[n].items, found[n].items;
      DescendingParts(Items(found[..n]), hits);
      SurvivorsDescend(rows[..n], channels[..n], pages[..n], found[..n]);
      HydrateDescends(rows[n], channels[n], hits);
      HydrateKeeps(rows[n], channels[n], hits);
      DescendingSum(Items(pages[..n]), last);
    }
  }

  lemma {:induction false} PageIsInItems<T>(pages: seq<Page<T>>, i: nat, x: T)
    requires i < |pages| && x in pages[i].items
    ensures x in Items(pages)
    decreases |pages|
  {
    var n := |pages| - 1;
    if i < n {
      PageIsInItems(pages[..n], i, x);
    }
  }

  // While messages come, go and change and the index lags behind, a search taken to where no
  // cursor follows shows each result once, newest first, and each was found and could be
  // shown when its page was asked for.
  lemma MovingSearchIsSound(
    candidates: seq<set<Id>>, rows: seq<Table>, channels: seq<set<nat>>, answers: seq<seq<Id>>, pages: seq<Page<Id>>,
    limit: nat, parse: Parser)
    requires limit >= 1 && Reads(parse) && IsMovingSearch(candidates, rows, channels, answers, pages, limit, parse)
    ensures Descends(Items(pages))
    ensures forall i, x :: 0 <= i < |pages| && x in pages[i].items ==>
              && x in candidates[i] && x in rows[i] && rows[i][x].channel in channels[i]
              && !rows[i][x].deleted && rows[i][x].root.None?
  {
    if pages != [] {
      var found := HitPages(answers, limit);
      MovingHitsAreWalk(candidates, rows, channels, answers, pages, limit, parse);
      MovingPagesSurvive(candidates, rows, channels, answers, pages, limit, parse);
      WalkDescends(candidates, found, limit, parse);
      SurvivorsDescend(rows, channels, pages, found);
      forall i, x | 0 <= i < |pages| && x in pages[i].items
        ensures x in candidates[i] && Shown(rows[i], channels[i], x)
      {
        PageWithinTable(candidates, found, i, limit, parse);
        HydrateKeeps(rows[i], channels[i], found[i].items);
      }
    }
  }

  ghost predicate ShownThroughout(candidates: seq<set<Id>>, rows: seq<Table>, channels: seq<set<nat>>, id: Id)
    requires |candidates| == |rows| == |channels|
  {
    forall i :: 0 <= i < |rows| ==>
      id in candidates[i] && Shown(rows[i], channels[i], id)
  }

  // And it misses nothing that could be found and shown all the while.
  lemma MovingSearchSkipsNothing(
    candidates: seq<set<Id>>, rows: seq<Table>, channels: seq<set<nat>>, answers: seq<seq<Id>>, pages: seq<Page<Id>>,
    limit: nat, parse: Parser, id: Id)
    requires limit >= 1 && Reads(parse) && IsMovingSearch(candidates, rows, channels, answers, pages, limit, parse)
    requires pages != [] && pages[|pages| - 1].next.None? && ShownThroughout(candidates, rows, channels, id)
    ensures id in Items(pages)
  {
    var found := HitPages(answers, limit);
    MovingHitsAreWalk(candidates, rows, channels, answers, pages, limit, parse);
    MovingPagesSurvive(candidates, rows, channels, answers, pages, limit, parse);
    assert channels[|pages| - 1] != {};
    WalkIsExact(candidates, found, limit, parse);
    assert Throughout(candidates, id);
    var i := PageHolding(found, id);
    HydrateKeeps(rows[i], channels[i], found[i].items);
    PageIsInItems(pages, i, id);
  }

  // Whatever the index says, nothing is shown that is not a live top-level message of a
  // channel the caller can see.
  lemma OnlyVisibleIsShown(rows: Table, channels: set<nat>, hits: seq<Id>, limit: nat)
    requires limit >= 1
    ensures forall id :: id in SearchPage(rows, channels, hits, limit).items ==>
              id in hits && id in rows && rows[id].channel in channels && !rows[id].deleted && rows[id].root.None?
    ensures |hits| <= limit ==> forall id ::
              (id in hits && id in rows && rows[id].channel in channels && !rows[id].deleted && rows[id].root.None?
               ==> id in SearchPage(rows, channels, hits, limit).items)
  {
    HydrateKeeps(rows, channels, FirstRows(hits, limit));
  }
}
