// When the workspace directory is fetched again for ids it could not name: the tracker of
// one workspace, and any order its renders and fetches can come in.
module Directory {
  import opened Options
  import opened Sets

  type Id = string

  datatype Tracker = Tracker(
    pending: map<Id, nat>, // ids no render could name, and when each was first seen
    departed: set<Id>, // ids a later fetch landed without
    otherMarked: bool,
    clock: nat)

  // A fetch under way.
  datatype Load = Load(own: bool, startedAt: nat, hadData: bool)

  const FRESH := Tracker(map[], {}, false, 0)

  function Seen(t: Tracker, ids: seq<Id>): (s: Tracker)
    ensures |s.pending| >= |t.pending|
  {
    if ids == [] then t
    else
      var s, id := Seen(t, ids[..|ids| - 1]), ids[|ids| - 1];
      if id in s.departed || id in s.pending then s
      else s.(pending := s.pending[id := s.clock], clock := s.clock + 1)
  }

  predicate Names(named: Option<set<Id>>, id: Id) {
    named.Some? && id in named.value
  }

  function Leaving(t: Tracker, startedAt: nat, named: Option<set<Id>>): set<Id> {
    set id | id in t.pending && t.pending[id] < startedAt && !Names(named, id)
  }

  function Staying(t: Tracker, startedAt: nat, named: Option<set<Id>>): set<Id> {
    set id | id in t.pending && t.pending[id] >= startedAt && !Names(named, id)
  }

  // Every pending id the fetch could have had leaves: named, or departed.
  function DepartedBefore(t: Tracker, startedAt: nat, named: Option<set<Id>>): Tracker {
    t.(pending := map id | id in Staying(t, startedAt, named) :: t.pending[id],
       departed := t.departed + Leaving(t, startedAt, named))
  }

  // Part of the way there: the ids still to do are as they were.
  ghost predicate Settling(was: Tracker, t: Tracker, todo: set<Id>, startedAt: nat, named: Option<set<Id>>) {
    && todo <= was.pending.Keys
    && t.pending == (map id | id in todo + Staying(was, startedAt, named) :: was.pending[id])
    && t == was.(pending := t.pending, departed := was.departed + (Leaving(was, startedAt, named) - todo))
  }

  // One id settled.
  function Settled(t: Tracker, id: Id, startedAt: nat, named: Option<set<Id>>): Tracker {
    if Names(named, id) then t.(pending := t.pending - {id})
    else if id in t.pending && t.pending[id] < startedAt then t.(pending := t.pending - {id}, departed := t.departed + {id})
    else t
  }

  lemma SettleOne(was: Tracker, t: Tracker, todo: set<Id>, startedAt: nat, named: Option<set<Id>>, id: Id)
    requires Settling(was, t, todo, startedAt, named) && id in todo
    ensures id in t.pending && Settling(was, Settled(t, id, startedAt, named), todo - {id}, startedAt, named)
  {
    var s := Settled(t, id, startedAt, named);
    assert s.departed == was.departed + (Leaving(was, startedAt, named) - (todo - {id}));
  }

  predicate Clears(t: Tracker, load: Load) {
    !load.own || t.otherMarked
  }

  function Landed(t: Tracker, load: Load, named: set<Id>): Tracker {
    var s := if Clears(t, load) then t.(departed := {}, otherMarked := false) else t;
    if load.hadData then DepartedBefore(s, load.startedAt, Some(named))
    else s.(pending := Without(s.pending, named))
  }

  function Without(pending: map<Id, nat>, named: set<Id>): map<Id, nat> {
    map id | id in pending && id !in named :: pending[id]
  }

  function Failed(t: Tracker, load: Load): Tracker {
    if load.hadData then DepartedBefore(t, load.startedAt, None) else t
  }

  class Workspace {
    var pending: map<Id, nat>
    var departed: set<Id>
    var ownStarting: bool
    var otherMarked: bool
    var clock: nat

    ghost function View(): Tracker
      reads this
    {
      Tracker(pending, departed, otherMarked, clock)
    }

    constructor ()
      ensures View() == FRESH && !ownStarting
    {
      pending, departed, ownStarting, otherMarked, clock := map[], {}, false, false, 0;
    }

    method OtherReason()
      modifies this`otherMarked
      ensures View() == old(View()).(otherMarked := true)
    {
      otherMarked := true;
    }

    method DepartSeenBefore(startedAt: nat, named: Option<set<Id>>)
      modifies this`pending, this`departed
      ensures View() == DepartedBefore(old(View()), startedAt, named)
    {
      ghost var was := View();
      var todo := pending.Keys;
      while todo != {}
        invariant Settling(was, View(), todo, startedAt, named)
        decreases todo
      {
        var id :| id in todo;
        SettleOne(was, View(), todo, startedAt, named, id);
        todo := todo - {id};
        if Names(named, id) {
          pending := pending - {id};
        } else if pending[id] < startedAt {
          pending := pending - {id};
          departed := departed + {id};
        }
      }
    }

    // The part of a fetch that runs at once: it is ours if a render of ours is starting it.
    method BeginLoad(hadData: bool) returns (load: Load)
      modifies this`ownStarting, this`clock
      ensures load == Load(old(ownStarting), old(clock), hadData)
      ensures clock == old(clock) + 1 && !ownStarting
    {
      load := Load(ownStarting, clock, hadData);
      ownStarting := false;
      clock := clock + 1;
    }

    // The ids a render could not name. At most one fetch starts, and only when the
    // directory has data and none is in flight; `runs` is whether the query then runs.
    method Saw(ids: seq<Id>, hasData: bool, idle: bool, runs: bool) returns (started: Option<Load>)
      requires !ownStarting
      modifies this
      ensures var seen := Seen(old(View()), ids);
              if seen.pending != map[] && hasData && idle && runs
              then View() == seen.(clock := seen.clock + 1) && started == Some(Load(true, seen.clock, true))
              else View() == seen && started == None
      ensures !ownStarting
    {
      for i := 0 to |ids|
        invariant View() == Seen(old(View()), ids[..i]) && !ownStarting
      {
        assert ids[..i + 1][..i] == ids[..i];
        if ids[i] !in departed && ids[i] !in pending {
          pending := pending[ids[i] := clock];
          clock := clock + 1;
        }
      }
      assert ids[..|ids|] == ids;
      started := None;
      if pending == map[] || !hasData || !idle {
        return;
      }
      ownStarting := true;
      if runs {
        var load := BeginLoad(true);
        started := Some(load);
      }
      ownStarting := false;
    }

    method LoadFailed(load: Load)
      modifies this`pending, this`departed
      ensures View() == Failed(old(View()), load)
    {
      if load.hadData {
        DepartSeenBefore(load.startedAt, None);
      }
    }

    method LoadLanded(load: Load, named: set<Id>)
      modifies this`pending, this`departed, this`otherMarked
      ensures View() == Landed(old(View()), load, named)
    {
      if !load.own || otherMarked {
        departed := {};
        otherMarked := false;
      }
      if load.hadData {
        DepartSeenBefore(load.startedAt, Some(named));
      } else {
        DropNamed(named);
      }
    }

    method DropNamed(named: set<Id>)
      modifies this`pending
      ensures pending == Without(old(pending), named)
    {
      ghost var was := pending;
      var todo := pending.Keys;
      while todo != {}
        invariant todo <= pending.Keys <= was.Keys
        invariant forall id :: id in pending ==> pending[id] == was[id]
        invariant forall id :: id in was && id !in todo ==> (id in pending <==> id !in named)
        decreases todo
      {
        var id :| id in todo;
        todo := todo - {id};
        if id in named {
          pending := pending - {id};
        }
      }
    }
  }

  // --- runs ---------------------------------------------------------------------------

  // A load in flight, and whether the fetch it belongs to is one this tracker started. The
  // tracker itself takes only the first load of such a fetch for its own, and not even that
  // one when it was held back.
  datatype Flight = Flight(load: Load, ours: bool)

  // The fetch the query waits for: who started it, the load of it in flight, if any, whether
  // there was data when it started, and how many of its loads have failed. It has no load in
  // flight while it is held back for want of a network, and between a try and the next.
  datatype Fetching = Fetching(ours: bool, at: Option<nat>, hadData: bool, failures: nat)

  // How often a failed fetch is tried again.
  const RETRIES := 1

  // The tracker, every load in flight by when it started, the fetch the query waits for, and
  // what has been counted. A load the query no longer waits for goes on.
  datatype World = World(
    tracker: Tracker,
    flights: map<nat, Flight>,
    fetching: Option<Fetching>,
    insertions: nat,
    ownFetches: nat)

  const START := World(FRESH, map[], None, 0, 0)

  datatype Event =
    | See(ids: seq<Id>, hasData: bool, runs: bool) // a render; whether a refetch would run at once
    | StartOther(hadData: bool, runs: bool) // a fetch for another reason, in place of any under way
    | Continue(hadData: bool) // the next try, or the first one held back
    | MarkOther
    | Land(at: nat, named: set<Id>)
    | Fail(at: nat, again: bool) // `again`: the fetch is to be tried once more
    | OtherWorkspace // the clock is shared

  predicate IsCurrent(w: World, at: nat) {
    w.fetching.Some? && w.fetching.value.at == Some(at)
  }

  // The query waits for a fetch that had data when it started.
  predicate Refetching(w: World) {
    w.fetching.Some? && w.fetching.value.hadData
  }

  // A query never loses its data while it waits for a fetch; only a load in flight ends; and
  // only the load the query waits for is tried again, no more often than allowed.
  predicate Enabled(w: World, e: Event) {
    match e
    case StartOther(hadData, _) => Refetching(w) ==> hadData
    case Continue(hadData) => w.fetching.Some? && w.fetching.value.at.None? && (Refetching(w) ==> hadData)
    case Land(at, _) => at in w.flights
    case Fail(at, again) => at in w.flights && (again ==> IsCurrent(w, at) && w.fetching.value.failures < RETRIES)
    case _ => true
  }

  // The query is idle, so a render that cannot name an id starts a fetch of our own.
  predicate StartsOwn(w: World, e: Event) {
    e.See? && Seen(w.tracker, e.ids).pending != map[] && e.hasData && w.fetching.None?
  }

  // A load of this fetch starts, now.
  function Loading(w: World, f: Fetching, own: bool, hadData: bool): World {
    var now := w.tracker.clock;
    w.(tracker := w.tracker.(clock := now + 1),
       flights := w.flights[now := Flight(Load(own, now, hadData), f.ours)],
       fetching := Some(f.(at := Some(now))))
  }

  // A fetch starts, with its first load or held back.
  function Started(w: World, f: Fetching, runs: bool): World {
    if runs then Loading(w, f, f.ours, f.hadData) else w.(fetching := Some(f))
  }

  function Ended(w: World, at: nat, s: Tracker, again: bool): World {
    w.(tracker := s,
       flights := w.flights - {at},
       fetching := if !IsCurrent(w, at) then w.fetching
                   else if again then Some(w.fetching.value.(at := None, failures := w.fetching.value.failures + 1))
                   else None)
  }

  function Next(w: World, e: Event): World
    requires Enabled(w, e)
  {
    match e
    case See(ids, _, runs) =>
      var seen := Seen(w.tracker, ids);
      var counted := w.(tracker := seen, insertions := w.insertions + (|seen.pending| - |w.tracker.pending|));
      if StartsOwn(w, e) then Started(counted, Fetching(true, None, true, 0), runs).(ownFetches := w.ownFetches + 1)
      else counted
    case StartOther(hadData, runs) => Started(w, Fetching(false, None, hadData, 0), runs)
    case Continue(hadData) => Loading(w, w.fetching.value, false, hadData)
    case MarkOther => w.(tracker := w.tracker.(otherMarked := true))
    case Land(at, named) => Ended(w, at, Landed(w.tracker, w.flights[at].load, named), false)
    case Fail(at, again) => Ended(w, at, Failed(w.tracker, w.flights[at].load), again)
    case OtherWorkspace => w.(tracker := w.tracker.(clock := w.tracker.clock + 1))
  }

  // --- what every order of events keeps ------------------------------------------------

  // The ids first seen at this time or later.
  ghost function Since(pending: map<Id, nat>, at: nat): set<Id> {
    set id | id in pending && pending[id] >= at
  }

  ghost predicate Timed(w: World) {
    && w.tracker.pending.Keys !! w.tracker.departed
    && (forall id :: id in w.tracker.pending ==> w.tracker.pending[id] < w.tracker.clock)
    && (forall at :: at in w.flights ==> w.flights[at].load.startedAt == at < w.tracker.clock)
    && (forall id, at :: id in w.tracker.pending && at in w.flights ==> w.tracker.pending[id] != at)
    && (forall at :: at in w.flights && w.flights[at].load.own ==> w.flights[at].ours)
    && (w.fetching.Some? && w.fetching.value.at.Some? ==> IsUnderWay(w, w.fetching.value))
  }

  predicate IsUnderWay(w: World, f: Fetching)
    requires f.at.Some?
  {
    && f.at.value in w.flights
    && w.flights[f.at.value].ours == f.ours
    && (f.hadData ==> w.flights[f.at.value].load.hadData)
  }

  // The ids the fetch under way will not settle: those first seen since its load started;
  // none while its next load is still to start; all, if none is under way or there was no
  // data when it started.
  ghost function Unsettled(w: World): set<Id> {
    if !Refetching(w) then w.tracker.pending.Keys
    else if w.fetching.value.at.Some? then Since(w.tracker.pending, w.fetching.value.at.value)
    else {}
  }

  // Each fetch of our own is paid for by an insertion of an id it settles or has settled.
  ghost predicate Paid(w: World) {
    w.ownFetches + |Unsettled(w)| <= w.insertions
  }

  // Seeing ids only adds pending ones, stamped no earlier than now.
  lemma {:induction false} SeenAdds(t: Tracker, ids: seq<Id>)
    requires t.pending.Keys !! t.departed && forall id :: id in t.pending ==> t.pending[id] < t.clock
    ensures var s := Seen(t, ids);
            && s.departed == t.departed && s.otherMarked == t.otherMarked && s.clock >= t.clock
            && s.pending.Keys !! s.departed
            && (forall id :: id in t.pending ==> id in s.pending && s.pending[id] == t.pending[id])
            && (forall id :: id in s.pending ==> s.pending[id] < s.clock && (id in t.pending || s.pending[id] >= t.clock))
            && (forall id :: id in s.pending && id !in t.pending ==> id in ids)
            && (forall id :: id in ids ==> id in s.pending || id in s.departed)
  {
    if ids != [] {
      SeenAdds(t, ids[..|ids| - 1]);
    }
  }

  // A later set of pending ids that extends an earlier one grew as much since any time that
  // had passed.
  lemma SinceGrows(pending: map<Id, nat>, pending': map<Id, nat>, at: nat)
    requires forall id :: id in pending ==> id in pending' && pending'[id] == pending[id]
    requires forall id :: id in pending' && id !in pending ==> pending'[id] >= at
    ensures |Since(pending', at)| - |Since(pending, at)| == |pending'| - |pending|
  {
    var more := pending'.Keys - pending.Keys;
    DisjointSize(pending.Keys, more);
    DisjointSize(Since(pending, at), more);
    assert Since(pending', at) == Since(pending, at) + more;
    assert pending'.Keys == pending.Keys + more;
    KeysSize(pending);
    KeysSize(pending');
  }

  lemma KeysSize(m: map<Id, nat>)
    ensures |m| == |m.Keys|
  {
  }

  lemma SeeKeepsTimed(w: World, e: Event)
    requires Timed(w) && e.See? && Enabled(w, e)
    ensures Timed(Next(w, e))
  {
    SeenAdds(w.tracker, e.ids);
  }

  lemma SeeKeepsPaid(w: World, e: Event)
    requires Timed(w) && Paid(w) && e.See? && Enabled(w, e)
    ensures Paid(Next(w, e))
  {
    SeenAdds(w.tracker, e.ids);
    var seen := Seen(w.tracker, e.ids);
    KeysSize(w.tracker.pending);
    KeysSize(seen.pending);
    if StartsOwn(w, e) {
      assert Unsettled(Next(w, e)) == {};
      assert |seen.pending| >= 1;
    } else if Refetching(w) && w.fetching.value.at.Some? {
      SinceGrows(w.tracker.pending, seen.pending, w.fetching.value.at.value);
    }
  }

  // A fetch that replaces another, and another load of the same, settle whatever was to be.
  lemma LoadKeepsSound(w: World, e: Event)
    requires Timed(w) && Paid(w) && (e.StartOther? || e.Continue?) && Enabled(w, e)
    ensures Timed(Next(w, e)) && Paid(Next(w, e))
  {
    SubsetSize(Unsettled(Next(w, e)), Unsettled(w));
  }

  // What a load leaves pending when it ends was pending before, and was seen since it
  // started if it had data.
  lemma EndShrinks(t: Tracker, load: Load, named: set<Id>)
    requires t.pending.Keys !! t.departed
    ensures forall s :: s in {Landed(t, load, named), Failed(t, load)} ==>
              && s.clock == t.clock && s.pending.Keys !! s.departed
              && (forall id :: id in s.pending ==> id in t.pending && s.pending[id] == t.pending[id])
              && (load.hadData ==> forall id :: id in s.pending ==> t.pending[id] >= load.startedAt)
  {
  }

  lemma EndKeepsSound(w: World, at: nat, s: Tracker, again: bool)
    requires Timed(w) && Paid(w) && at in w.flights
    requires s.clock == w.tracker.clock && s.pending.Keys !! s.departed
    requires forall id :: id in s.pending ==> id in w.tracker.pending && s.pending[id] == w.tracker.pending[id]
    requires w.flights[at].load.hadData ==> forall id :: id in s.pending ==> w.tracker.pending[id] >= at
    ensures Timed(Ended(w, at, s, again)) && Paid(Ended(w, at, s, again))
  {
    SubsetSize(Unsettled(Ended(w, at, s, again)), Unsettled(w));
  }

  lemma StepKeepsSound(w: World, e: Event)
    requires Timed(w) && Paid(w) && Enabled(w, e)
    ensures Timed(Next(w, e)) && Paid(Next(w, e))
  {
    match e
    case See(_, _, _) =>
      SeeKeepsTimed(w, e);
      SeeKeepsPaid(w, e);
    case StartOther(_, _) => LoadKeepsSound(w, e);
    case Continue(_) => LoadKeepsSound(w, e);
    case MarkOther =>
    case OtherWorkspace =>
    case Land(at, named) =>
      EndShrinks(w.tracker, w.flights[at].load, named);
      EndKeepsSound(w, at, Landed(w.tracker, w.flights[at].load, named), false);
    case Fail(at, again) =>
      EndShrinks(w.tracker, w.flights[at].load, {});
      EndKeepsSound(w, at, Failed(w.tracker, w.flights[at].load), again);
  }

  ghost predicate CanRun(w: World, events: seq<Event>)
    decreases |events|
  {
    events == [] || (Enabled(w, events[0]) && CanRun(Next(w, events[0]), events[1..]))
  }

  ghost function After(w: World, events: seq<Event>): World
    requires CanRun(w, events)
    decreases |events|
  {
    if events == [] then w else After(Next(w, events[0]), events[1..])
  }

  lemma {:induction false} RunsKeepSound(w: World, events: seq<Event>)
    requires Timed(w) && Paid(w) && CanRun(w, events)
    ensures Timed(After(w, events)) && Paid(After(w, events))
    decreases |events|
  {
    if events != [] {
      StepKeepsSound(w, events[0]);
      RunsKeepSound(Next(w, events[0]), events[1..]);
    }
  }

  // In every order of renders, fetches, retries, replacements and late loads the tracker's own
  // refetches are no more than the times it added an id to its pending ones, and no id is
  // both pending and departed.
  lemma OwnFetchesAreBounded(events: seq<Event>)
    requires CanRun(START, events)
    ensures var w := After(START, events);
            w.ownFetches <= w.insertions && w.tracker.pending.Keys !! w.tracker.departed
  {
    RunsKeepSound(START, events);
  }

  // An id first seen after a load started is not departed by it, and one it names never is.
  lemma OnlyEarlierIdsDepart(events: seq<Event>, e: Event, id: Id)
    requires CanRun(START, events) && (e.Land? || e.Fail?) && Enabled(After(START, events), e)
    ensures var w := After(START, events);
            var t := Next(w, e);
            id in t.tracker.departed && id !in w.tracker.departed ==>
              && id in w.tracker.pending && w.tracker.pending[id] < e.at
              && (e.Land? ==> id !in e.named)
    ensures var w := After(START, events);
            var t := Next(w, e);
            id in w.tracker.pending && w.tracker.pending[id] > e.at && !(e.Land? && id in e.named) ==> id in t.tracker.pending
  {
    RunsKeepSound(START, events);
    EndDepartsEarlier(After(START, events), e, id);
  }

  lemma EndDepartsEarlier(w: World, e: Event, id: Id)
    requires Timed(w) && (e.Land? || e.Fail?) && Enabled(w, e)
    ensures var t := Next(w, e);
            id in t.tracker.departed && id !in w.tracker.departed ==>
              && id in w.tracker.pending && w.tracker.pending[id] < e.at
              && (e.Land? ==> id !in e.named)
    ensures var t := Next(w, e);
            id in w.tracker.pending && w.tracker.pending[id] > e.at && !(e.Land? && id in e.named) ==> id in t.tracker.pending
  {
  }

  // What a render leaves pending: what was, and the ids it could not name that have not
  // departed, those seen from now on. A fetch is started exactly when something is pending, the
  // directory has data and no fetch is waited for.
  lemma SeeSettles(w: World, e: Event, id: Id)
    requires Timed(w) && e.See?
    ensures var s, t := w.tracker, Next(w, e).tracker;
            && (id in t.pending <==> id in s.pending || (id in e.ids && id !in s.departed))
            && (id in s.pending ==> t.pending[id] == s.pending[id])
            && (id in t.pending && id !in s.pending ==> s.clock <= t.pending[id] < t.clock)
            && t.departed == s.departed && t.otherMarked == s.otherMarked
    ensures Next(w, e).ownFetches == w.ownFetches + One(e.hasData && w.fetching.None? && Next(w, e).tracker.pending != map[])
    ensures Next(w, e).ownFetches > w.ownFetches ==> Refetching(Next(w, e)) && Next(w, e).fetching.value.ours
    ensures Next(w, e).ownFetches == w.ownFetches ==> Next(w, e).fetching == w.fetching
  {
    SeenAdds(w.tracker, e.ids);
    SeenIds(w.tracker, e.ids, id);
  }

  lemma {:induction false} SeenIds(t: Tracker, ids: seq<Id>, id: Id)
    ensures id in Seen(t, ids).pending <==> id in t.pending || (id in ids && id !in t.departed)
    ensures Seen(t, ids).departed == t.departed && Seen(t, ids).otherMarked == t.otherMarked
    ensures Seen(t, ids).clock >= t.clock
    ensures id in t.pending ==> Seen(t, ids).pending[id] == t.pending[id]
    ensures id in Seen(t, ids).pending && id !in t.pending ==> t.clock <= Seen(t, ids).pending[id] < Seen(t, ids).clock
  {
    if ids != [] {
      SeenIds(t, ids[..|ids| - 1], id);
    }
  }

  // What a landing leaves: an id it names goes; of the others, where there was data when it
  // started, those seen before it have departed. What had departed comes back exactly when the
  // fetch was not this tracker's own or was marked, and no mark outlasts a landing.
  lemma LandSettles(w: World, e: Event, id: Id)
    requires Timed(w) && e.Land? && Enabled(w, e)
    ensures var s, t, load := w.tracker, Next(w, e).tracker, w.flights[e.at].load;
            && (id in t.pending <==> id in s.pending && id !in e.named && (load.hadData ==> s.pending[id] > e.at))
            && (id in t.pending ==> t.pending[id] == s.pending[id])
            && (id in t.departed <==>
                  || (id in s.departed && load.own && !s.otherMarked)
                  || (load.hadData && id in s.pending && id !in e.named && s.pending[id] < e.at))
            && !t.otherMarked && t.clock == s.clock
  {
  }

  // A failure names nothing and clears nothing; where there was data when the load started, the
  // ids seen before it depart all the same.
  lemma FailSettles(w: World, e: Event, id: Id)
    requires Timed(w) && e.Fail? && Enabled(w, e)
    ensures var s, t, load := w.tracker, Next(w, e).tracker, w.flights[e.at].load;
            && (id in t.pending <==> id in s.pending && (load.hadData ==> s.pending[id] > e.at))
            && (id in t.pending ==> t.pending[id] == s.pending[id])
            && (id in t.departed <==> id in s.departed || (load.hadData && id in s.pending && s.pending[id] < e.at))
            && t.otherMarked == s.otherMarked && t.clock == s.clock
  {
  }

  // --- an id no fetch names ---------------------------------------------------------------

  // The landing empties the departed ids.
  predicate ClearsAt(w: World, e: Event)
    requires Enabled(w, e)
  {
    e.Land? && Clears(w.tracker, w.flights[e.at].load)
  }

  // What lands was fetched for another reason, or is marked as if it were.
  predicate LandsForAnother(w: World, e: Event)
    requires Enabled(w, e)
  {
    e.Land? && (w.tracker.otherMarked || !w.flights[e.at].ours)
  }

  // What lands is a later try of an own fetch, or its first one held back.
  predicate LandsContinued(w: World, e: Event)
    requires Enabled(w, e)
  {
    e.Land? && !w.tracker.otherMarked && w.flights[e.at].ours && !w.flights[e.at].load.own
  }

  // A departed id stays departed exactly until a landing clears; and a landing clears exactly
  // when it is for another reason or continues a fetch of our own.
  lemma DepartedUntilCleared(w: World, e: Event, id: Id)
    requires Timed(w) && Enabled(w, e) && id in w.tracker.departed
    ensures id in Next(w, e).tracker.departed <==> !ClearsAt(w, e)
    ensures ClearsAt(w, e) <==> LandsForAnother(w, e) || LandsContinued(w, e)
  {
    match e
    case See(ids, _, _) => SeenAdds(w.tracker, ids);
    case _ =>
  }

  // No landing of the run names the id.
  ghost predicate Unnamed(w: World, events: seq<Event>, id: Id)
    requires CanRun(w, events)
    decreases |events|
  {
    events == [] || ((events[0].Land? ==> id !in events[0].named) && Unnamed(Next(w, events[0]), events[1..], id))
  }

  // An own refetch starts while this id is pending.
  predicate StartsFor(w: World, e: Event, id: Id) {
    StartsOwn(w, e) && id in Seen(w.tracker, e.ids).pending
  }

  function One(happens: bool): nat {
    if happens then 1 else 0
  }

  ghost function StartCount(w: World, events: seq<Event>, id: Id): nat
    requires CanRun(w, events)
    decreases |events|
  {
    if events == [] then 0 else One(StartsFor(w, events[0], id)) + StartCount(Next(w, events[0]), events[1..], id)
  }

  ghost function OtherCount(w: World, events: seq<Event>): nat
    requires CanRun(w, events)
    decreases |events|
  {
    if events == [] then 0 else One(LandsForAnother(w, events[0])) + OtherCount(Next(w, events[0]), events[1..])
  }

  ghost function ContinuedCount(w: World, events: seq<Event>): nat
    requires CanRun(w, events)
    decreases |events|
  {
    if events == [] then 0 else One(LandsContinued(w, events[0])) + ContinuedCount(Next(w, events[0]), events[1..])
  }

  // The id has departed, or the fetch under way, which had data when it started, has a load
  // that started since the id was seen or is still to start.
  predicate Served(w: World, id: Id) {
    || id in w.tracker.departed
    || (Refetching(w) && id in w.tracker.pending
        && (w.fetching.value.at.None? || w.tracker.pending[id] < w.fetching.value.at.value))
  }

  // While nothing clears and nothing names it, a served id stays served and starts nothing;
  // and an own refetch serves every pending id.
  lemma ServedStep(w: World, e: Event, id: Id)
    requires Timed(w) && Enabled(w, e) && (e.Land? ==> id !in e.named)
    ensures Timed(Next(w, e))
    ensures Served(w, id) ==> !StartsFor(w, e, id) && (ClearsAt(w, e) || Served(Next(w, e), id))
    ensures StartsFor(w, e, id) ==> Served(Next(w, e), id)
  {
    match e
    case See(ids, _, _) => SeenAdds(w.tracker, ids);
    case Land(at, named) => EndShrinks(w.tracker, w.flights[at].load, named);
    case Fail(at, _) => EndShrinks(w.tracker, w.flights[at].load, {});
    case _ =>
  }

  // An id that no landing names costs at most one own refetch, none once served, and one more
  // for each landing that was for another reason or that continued a fetch of our own.
  lemma {:induction false} UnnamedIdsCostOneFetchEach(w: World, events: seq<Event>, id: Id)
    requires Timed(w) && CanRun(w, events) && Unnamed(w, events, id)
    ensures StartCount(w, events, id) <= One(!Served(w, id)) + OtherCount(w, events) + ContinuedCount(w, events)
    decreases |events|
  {
    if events != [] {
      ServedStep(w, events[0], id);
      UnnamedIdsCostOneFetchEach(Next(w, events[0]), events[1..], id);
    }
  }

  lemma StepKeepsTimed(w: World, e: Event)
    requires Timed(w) && Enabled(w, e)
    ensures Timed(Next(w, e))
  {
    match e
    case See(_, _, _) => SeeKeepsTimed(w, e);
    case Land(at, named) => EndShrinks(w.tracker, w.flights[at].load, named);
    case Fail(at, _) => EndShrinks(w.tracker, w.flights[at].load, {});
    case _ =>
  }

  // --- with no retry and nothing held back ------------------------------------------------

  // Every load in flight of a fetch of our own is its first, started at once.
  ghost predicate Uncontinued(w: World) {
    forall at :: at in w.flights && w.flights[at].ours ==> w.flights[at].load.own
  }

  // No fetch of our own is tried again or taken up later.
  ghost predicate NeverContinues(w: World, events: seq<Event>)
    requires CanRun(w, events)
    decreases |events|
  {
    events == []
    || ((events[0].Continue? ==> !w.fetching.value.ours) && NeverContinues(Next(w, events[0]), events[1..]))
  }

  lemma {:induction false} NothingContinued(w: World, events: seq<Event>)
    requires Timed(w) && Uncontinued(w) && CanRun(w, events) && NeverContinues(w, events)
    ensures ContinuedCount(w, events) == 0
    decreases |events|
  {
    if events != [] {
      StepKeepsTimed(w, events[0]);
      NothingContinued(Next(w, events[0]), events[1..]);
    }
  }

  // So where own fetches are never tried again or held back the promise holds: one own
  // refetch, until a fetch for another reason lands.
  lemma WithoutRetriesOneFetchIsEnough(w: World, events: seq<Event>, id: Id)
    requires Timed(w) && Uncontinued(w) && CanRun(w, events) && NeverContinues(w, events) && Unnamed(w, events, id)
    ensures StartCount(w, events, id) <= One(!Served(w, id)) + OtherCount(w, events)
  {
    UnnamedIdsCostOneFetchEach(w, events, id);
    NothingContinued(w, events);
  }

  // --- with retries ---------------------------------------------------------------------------

  // Nothing under way, nothing pending, nothing marked, and the id not departed.
  ghost predicate AtRest(w: World, id: Id) {
    Timed(w) && w.fetching.None? && w.flights == map[] && w.tracker.pending == map[] && !w.tracker.otherMarked
    && id !in w.tracker.departed
  }

  // A render cannot name the id and starts a refetch; its first try fails; the retry starts;
  // and it lands without the id.
  function Asking(w: World, id: Id): World {
    var c := w.tracker.clock;
    World(w.tracker.(pending := map[id := c], clock := c + 2),
          map[c + 1 := Flight(Load(true, c + 1, true), true)],
          Some(Fetching(true, Some(c + 1), true, 0)), w.insertions + 1, w.ownFetches + 1)
  }

  function Failing(w: World, id: Id): World {
    World(w.tracker.(departed := w.tracker.departed + {id}, clock := w.tracker.clock + 2),
          map[], Some(Fetching(true, None, true, 1)), w.insertions + 1, w.ownFetches + 1)
  }

  function Retrying(w: World, id: Id): World {
    var c := w.tracker.clock;
    World(w.tracker.(departed := w.tracker.departed + {id}, clock := c + 3),
          map[c + 2 := Flight(Load(false, c + 2, true), true)],
          Some(Fetching(true, Some(c + 2), true, 1)), w.insertions + 1, w.ownFetches + 1)
  }

  function Rested(w: World): World {
    World(w.tracker.(departed := {}, clock := w.tracker.clock + 3), map[], None, w.insertions + 1, w.ownFetches + 1)
  }

  lemma AsksFirst(w: World, id: Id)
    requires AtRest(w, id)
    ensures Next(w, See([id], true, true)) == Asking(w, id) && StartsFor(w, See([id], true, true), id)
  {
    assert Seen(w.tracker, [id][..0]) == w.tracker;
    assert Seen(w.tracker, [id]) == w.tracker.(pending := map[id := w.tracker.clock], clock := w.tracker.clock + 1);
  }

  lemma FailsNext(w: World, id: Id)
    requires AtRest(w, id)
    ensures var e := Fail(w.tracker.clock + 1, true); Enabled(Asking(w, id), e) && Next(Asking(w, id), e) == Failing(w, id)
  {
    var t := Next(Asking(w, id), Fail(w.tracker.clock + 1, true));
    assert t.tracker.pending == map[] && t.flights == map[];
    assert t.tracker.departed == w.tracker.departed + {id};
  }

  lemma RetriesThen(w: World, id: Id)
    requires AtRest(w, id)
    ensures Enabled(Failing(w, id), Continue(true)) && Next(Failing(w, id), Continue(true)) == Retrying(w, id)
  {
  }

  lemma LandsLast(w: World, id: Id)
    requires AtRest(w, id)
    ensures var e := Land(w.tracker.clock + 2, {});
            && Enabled(Retrying(w, id), e) && Next(Retrying(w, id), e) == Rested(w)
            && LandsContinued(Retrying(w, id), e) && !LandsForAnother(Retrying(w, id), e)
  {
    var t := Next(Retrying(w, id), Land(w.tracker.clock + 2, {}));
    assert t.tracker.pending == map[] && t.flights == map[] && t.tracker.departed == {};
  }

  // The run leads from one world to the other, names the id nowhere, and has so many landings
  // for another reason and so many own refetches for the id.
  ghost predicate Costs(w: World, events: seq<Event>, t: World, id: Id, others: nat, starts: nat) {
    && CanRun(w, events) && After(w, events) == t && Unnamed(w, events, id)
    && OtherCount(w, events) == others && StartCount(w, events, id) == starts
  }

  lemma CostsOneMore(w: World, e: Event, rest: seq<Event>, t: World, id: Id, others: nat, starts: nat)
    requires Enabled(w, e) && (e.Land? ==> id !in e.named) && Costs(Next(w, e), rest, t, id, others, starts)
    ensures Costs(w, [e] + rest, t, id, One(LandsForAnother(w, e)) + others, One(StartsFor(w, e, id)) + starts)
  {
    assert ([e] + rest)[1..] == rest;
  }

  lemma {:induction false} CostsAdd(
    w: World, a: seq<Event>, v: World, b: seq<Event>, t: World, id: Id, others: nat, starts: nat, others': nat, starts': nat)
    requires Costs(w, a, v, id, others, starts) && Costs(v, b, t, id, others', starts')
    ensures Costs(w, a + b, t, id, others + others', starts + starts')
    decreases |a|
  {
    if a == [] {
      assert a + b == b;
    } else {
      var e, rest := a[0], a[1..];
      var o, n := One(LandsForAnother(w, e)), One(StartsFor(w, e, id));
      CostsAdd(Next(w, e), rest, v, b, t, id, others - o, starts - n, others', starts');
      CostsOneMore(w, e, rest + b, t, id, others - o + others', starts - n + starts');
      assert a + b == [e] + (rest + b);
    }
  }

  lemma RetryCosts(w: World, id: Id) returns (events: seq<Event>)
    requires AtRest(w, id)
    ensures Costs(Failing(w, id), events, Rested(w), id, 0, 0)
  {
    RetriesThen(w, id);
    LandsLast(w, id);
    var landing := [Land(w.tracker.clock + 2, {})] + [];
    CostsOneMore(Retrying(w, id), Land(w.tracker.clock + 2, {}), [], Rested(w), id, 0, 0);
    CostsOneMore(Failing(w, id), Continue(true), landing, Rested(w), id, 0, 0);
    events := [Continue(true)] + landing;
  }

  lemma FailingFetchCosts(w: World, id: Id) returns (events: seq<Event>)
    requires AtRest(w, id)
    ensures Costs(w, events, Rested(w), id, 0, 1) && AtRest(Rested(w), id)
  {
    var retry := RetryCosts(w, id);
    AsksFirst(w, id);
    FailsNext(w, id);
    var fail := Fail(w.tracker.clock + 1, true);
    CostsOneMore(Asking(w, id), fail, retry, Rested(w), id, 0, 0);
    CostsOneMore(w, See([id], true, true), [fail] + retry, Rested(w), id, 0, 0);
    events := [See([id], true, true)] + ([fail] + retry);
  }

  // The promise fails where own fetches are retried: however many times, an id that nothing
  // names costs another own refetch, though nothing is fetched for another reason, each time
  // the first try fails and its one retry lands.
  lemma {:induction false} RetriesLoop(w: World, id: Id, n: nat) returns (events: seq<Event>, t: World)
    requires AtRest(w, id)
    ensures Costs(w, events, t, id, 0, n) && AtRest(t, id)
    decreases n
  {
    if n == 0 {
      events, t := [], w;
    } else {
      var one := FailingFetchCosts(w, id);
      var more, v := RetriesLoop(Rested(w), id, n - 1);
      CostsAdd(w, one, Rested(w), more, v, id, 0, 1, 0, n - 1);
      events, t := one + more, v;
    }
  }

  // From the very start, then.
  lemma AnUnnamedIdCanCostAnyNumber(id: Id, n: nat)
    ensures exists events :: CanRun(START, events) && Unnamed(START, events, id) && OtherCount(START, events) == 0
                             && StartCount(START, events, id) == n
  {
    var events, t := RetriesLoop(START, id, n);
    assert Costs(START, events, t, id, 0, n);
  }
}
