// The cache of verification keys: when it fetches, how often at most, and what it holds.
module Jwks {
  import opened Options

  type Key = nat

  // A published key set: its keys in order, each with its id if it has one.
  datatype Published = Published(kid: Option<string>, key: Key)

  // How a fetch ends: with keys, with one of the errors that are caught, or cut short by a
  // cancelled call or an error that is not, which leaves no trace of the fetch.
  datatype Fetch = Fetched(keys: seq<Published>) | FetchFailed | CutShort

  datatype Cause = Scheduled | KidMiss

  datatype Limits = Limits(hardRefresh: real, minRefresh: real)

  datatype Cache = Cache(
    keys: map<string, Key>,
    fetchedAt: Option<real>,
    missRefreshedAt: real,
    retryAt: real,
    lastFetchFailed: bool)

  // One pass through the lock: when it is checked, when a fetch would start and end, and
  // what the fetch would bring.
  datatype Attempt = Attempt(cause: Cause, checked: real, start: real, done: real, fetch: Fetch)

  // The keys by id; a key without an id is left out, and the last of two with one id wins.
  function ById(keys: seq<Published>): map<string, Key> {
    if keys == [] then map[]
    else
      var rest, last := ById(keys[..|keys| - 1]), keys[|keys| - 1];
      if last.kid.Some? && last.kid.value != "" then rest[last.kid.value := last.key] else rest
  }

  predicate IsStale(c: Cache, now: real, limits: Limits) {
    now >= c.retryAt && (c.fetchedAt.None? || now - c.fetchedAt.value >= limits.hardRefresh)
  }

  // Whether an attempt goes through to a fetch.
  predicate Goes(c: Cache, a: Attempt, limits: Limits) {
    match a.cause
    case Scheduled => IsStale(c, a.checked, limits)
    case KidMiss => !(c.missRefreshedAt != 0.0 && a.checked - c.missRefreshedAt < limits.minRefresh)
  }

  function Attempted(c: Cache, a: Attempt, limits: Limits): Cache {
    if !Goes(c, a, limits) then c
    else
      var marked := if a.cause == KidMiss then c.(missRefreshedAt := a.start) else c;
      match a.fetch
      case Fetched(keys) => marked.(keys := ById(keys), fetchedAt := Some(a.done), lastFetchFailed := false, retryAt := 0.0)
      case FetchFailed => marked.(lastFetchFailed := true, retryAt := a.done + limits.minRefresh)
      case CutShort => marked
  }

  const EMPTY := Cache(map[], None, 0.0, 0.0, false)

  datatype Answer = Found(key: Key) | SourceUnavailable | UnknownKey | Raised

  function Lookup(c: Cache, kid: Option<string>): Answer {
    if kid.Some? && kid.value in c.keys then Found(c.keys[kid.value])
    else if c.lastFetchFailed then SourceUnavailable
    else UnknownKey
  }

  class Client {
    var keys: map<string, Key>
    var fetchedAt: Option<real>
    var missRefreshedAt: real
    var retryAt: real
    var lastFetchFailed: bool
    const limits: Limits

    ghost function View(): Cache
      reads this
    {
      Cache(keys, fetchedAt, missRefreshedAt, retryAt, lastFetchFailed)
    }

    constructor (limits: Limits)
      ensures View() == EMPTY && this.limits == limits
    {
      keys, fetchedAt, missRefreshedAt, retryAt, lastFetchFailed := map[], None, 0.0, 0.0, false;
      this.limits := limits;
    }

    method Stale(now: real) returns (stale: bool)
      ensures stale == IsStale(View(), now, limits)
    {
      if now < retryAt {
        return false;
      }
      return fetchedAt.None? || now - fetchedAt.value >= limits.hardRefresh;
    }

    // Under the lock. A failed fetch keeps the keys held and says when to try again.
    method Refresh(a: Attempt) returns (raised: bool)
      modifies this
      ensures View() == Attempted(old(View()), a, limits)
      ensures raised <==> Goes(old(View()), a, limits) && a.fetch.CutShort?
    {
      raised := false;
      if a.cause == Scheduled {
        var stale := Stale(a.checked);
        if !stale {
          return;
        }
      }
      if a.cause == KidMiss {
        var sinceMiss := a.checked - missRefreshedAt;
        if missRefreshedAt != 0.0 && sinceMiss < limits.minRefresh {
          return;
        }
        missRefreshedAt := a.start;
      }
      match a.fetch
      case FetchFailed =>
        lastFetchFailed := true;
        retryAt := a.done + limits.minRefresh;
      case Fetched(published) =>
        keys := Index(published);
        fetchedAt := Some(a.done);
        lastFetchFailed := false;
        retryAt := 0.0;
      case CutShort =>
        raised := true;
    }

    static method Index(published: seq<Published>) returns (keys: map<string, Key>)
      ensures keys == ById(published)
    {
      keys := map[];
      for i := 0 to |published|
        invariant keys == ById(published[..i])
      {
        assert published[..i + 1][..i] == published[..i];
        if published[i].kid.Some? && published[i].kid.value != "" {
          keys := keys[published[i].kid.value := published[i].key];
        }
      }
      assert published[..|published|] == published;
    }

    // The key for an id, after at most one fetch; `asked` is when the call came, and the
    // other times are those of the fetch, should one be due.
    method KeyFor(kid: Option<string>, asked: real, checked: real, start: real, done: real, fetch: Fetch)
      returns (answer: Answer)
      modifies this
      ensures var c := old(View());
              var a := Attempt(if IsStale(c, asked, limits) then Scheduled else KidMiss, checked, start, done, fetch);
              if !IsStale(c, asked, limits) && Lookup(c, kid).Found? then View() == c && answer == Lookup(c, kid)
              else
                && View() == Attempted(c, a, limits)
                && answer == if Goes(c, a, limits) && fetch.CutShort? then Raised else Lookup(View(), kid)
    {
      var stale := Stale(asked);
      var raised := false;
      if stale {
        raised := Refresh(Attempt(Scheduled, checked, start, done, fetch));
      } else if !(kid.Some? && kid.value in keys) {
        raised := Refresh(Attempt(KidMiss, checked, start, done, fetch));
      }
      if raised {
        return Raised;
      }
      if kid.Some? && kid.value in keys {
        return Found(keys[kid.value]);
      }
      return if lastFetchFailed then SourceUnavailable else UnknownKey;
    }
  }

  // --- runs: any callers, one at a time through the lock -----------------------------------

  // Times of one attempt are in order, and attempts follow one another.
  predicate InOrder(attempts: seq<Attempt>) {
    && (forall i :: 0 <= i < |attempts| ==> attempts[i].checked <= attempts[i].start <= attempts[i].done)
    && (forall i, j :: 0 <= i < j < |attempts| ==> attempts[i].done <= attempts[j].checked)
  }

  // The cache before the attempt with this index.
  function Before(c: Cache, attempts: seq<Attempt>, i: nat, limits: Limits): Cache
    requires i <= |attempts|
  {
    if i == 0 then c else Attempted(Before(c, attempts, i - 1, limits), attempts[i - 1], limits)
  }

  predicate GoesAt(c: Cache, attempts: seq<Attempt>, i: nat, limits: Limits)
    requires i < |attempts|
  {
    Goes(Before(c, attempts, i, limits), attempts[i], limits)
  }

  // It goes through, and the fetch is not cut short.
  predicate EndsAt(c: Cache, attempts: seq<Attempt>, i: nat, limits: Limits)
    requires i < |attempts|
  {
    GoesAt(c, attempts, i, limits) && !attempts[i].fetch.CutShort?
  }

  function Least(a: real, b: real): real {
    if a <= b then a else b
  }

  // A fetch that ended at `done` holds off scheduled ones for the least of the two limits.
  predicate HeldOff(c: Cache, done: real, limits: Limits) {
    c.retryAt >= done + limits.minRefresh || (c.fetchedAt.Some? && c.fetchedAt.value >= done)
  }

  lemma {:induction false} FetchHoldsOff(c: Cache, attempts: seq<Attempt>, i: nat, j: nat, limits: Limits)
    requires InOrder(attempts) && i < j <= |attempts| && EndsAt(c, attempts, i, limits)
    ensures HeldOff(Before(c, attempts, j, limits), attempts[i].done, limits)
    decreases j
  {
    if i < j - 1 {
      FetchHoldsOff(c, attempts, i, j - 1, limits);
      assert attempts[i].done <= attempts[j - 1].checked <= attempts[j - 1].done;
    }
  }

  // A scheduled fetch starts no sooner after any earlier fetch ended than the least of the
  // two limits: at least the minimum, where the hard refresh is no shorter.
  lemma ScheduledFetchesAreApart(c: Cache, attempts: seq<Attempt>, i: nat, j: nat, limits: Limits)
    requires InOrder(attempts) && i < j < |attempts|
    requires EndsAt(c, attempts, i, limits) && GoesAt(c, attempts, j, limits) && attempts[j].cause == Scheduled
    ensures attempts[j].start >= attempts[i].done + Least(limits.hardRefresh, limits.minRefresh)
  {
    FetchHoldsOff(c, attempts, i, j, limits);
  }

  // That fails exactly after a fetch cut short: of two scheduled attempts, the first of which
  // goes through, the second goes through within the limits if and only if the first was cut
  // short.
  lemma SpacingFailsOnlyAfterACut(c: Cache, first: Attempt, second: Attempt, limits: Limits)
    requires first.cause == Scheduled && second.cause == Scheduled && InOrder([first, second])
    requires Goes(c, first, limits) && second.checked < first.done + Least(limits.hardRefresh, limits.minRefresh)
    ensures Goes(Attempted(c, first, limits), second, limits) <==> first.fetch.CutShort?
  {
    assert [first, second][0] == first && [first, second][1] == second;
  }

  // And nothing bounds how many follow at once: while scheduled fetches are cut short, every
  // call's goes through.
  lemma {:induction false} EveryFetchAfterACutGoes(c: Cache, attempts: seq<Attempt>, i: nat, limits: Limits)
    requires InOrder(attempts) && i < |attempts| && IsStale(c, attempts[0].checked, limits)
    requires forall k :: 0 <= k < |attempts| ==> attempts[k].cause == Scheduled
    requires forall k :: 0 <= k < i ==> attempts[k].fetch.CutShort?
    ensures GoesAt(c, attempts, i, limits) && Before(c, attempts, i, limits) == c
  {
    if i > 0 {
      EveryFetchAfterACutGoes(c, attempts, i - 1, limits);
      assert attempts[0].checked <= attempts[0].done;
    }
  }

  lemma {:induction false} MissMarkStays(c: Cache, attempts: seq<Attempt>, i: nat, j: nat, limits: Limits)
    requires InOrder(attempts) && i < j <= |attempts| && GoesAt(c, attempts, i, limits) && attempts[i].cause == KidMiss
    ensures Before(c, attempts, j, limits).missRefreshedAt >= attempts[i].start
    decreases j
  {
    if i < j - 1 {
      MissMarkStays(c, attempts, i, j - 1, limits);
      assert attempts[i].start <= attempts[i].done <= attempts[j - 1].checked <= attempts[j - 1].start;
    }
  }

  // Fetches for an unknown key id start at least the minimum apart, on a clock above zero.
  lemma MissFetchesAreApart(c: Cache, attempts: seq<Attempt>, i: nat, j: nat, limits: Limits)
    requires InOrder(attempts) && i < j < |attempts| && attempts[i].start > 0.0
    requires GoesAt(c, attempts, i, limits) && attempts[i].cause == KidMiss
    requires GoesAt(c, attempts, j, limits) && attempts[j].cause == KidMiss
    ensures attempts[j].start >= attempts[i].start + limits.minRefresh
  {
    MissMarkStays(c, attempts, i, j, limits);
  }

  // The mark of a fetch at time zero reads as no mark at all, so there the next one may
  // follow at once: exactly then, from any cache, for a fetch and one within the minimum of
  // it.
  lemma MissFloorFailsOnlyAtZero(c: Cache, first: Attempt, second: Attempt, limits: Limits)
    requires first.cause == KidMiss && second.cause == KidMiss && InOrder([first, second])
    requires Goes(c, first, limits) && second.checked - first.start < limits.minRefresh
    ensures Goes(Attempted(c, first, limits), second, limits) <==> first.start == 0.0
  {
    assert [first, second][0] == first && [first, second][1] == second;
  }

  // --- how many fetches in a stretch of time -------------------------------------------------

  // The fetches whose spacing is kept: those for an unknown key id, cut short or not, and
  // the scheduled ones that are not cut short.
  predicate CountsAt(c: Cache, attempts: seq<Attempt>, i: nat, cause: Cause, limits: Limits)
    requires i < |attempts|
  {
    attempts[i].cause == cause && (if cause == KidMiss then GoesAt(c, attempts, i, limits) else EndsAt(c, attempts, i, limits))
  }

  // When the fetches of one cause start.
  function Starts(c: Cache, attempts: seq<Attempt>, n: nat, cause: Cause, limits: Limits): seq<real>
    requires n <= |attempts|
  {
    if n == 0 then []
    else
      Starts(c, attempts, n - 1, cause, limits)
      + (if CountsAt(c, attempts, n - 1, cause, limits) then [attempts[n - 1].start] else [])
  }

  // How many of the first n attempts fetch, and how many of those are scheduled and cut short.
  function FetchCount(c: Cache, attempts: seq<Attempt>, n: nat, limits: Limits): nat
    requires n <= |attempts|
  {
    if n == 0 then 0
    else FetchCount(c, attempts, n - 1, limits) + (if GoesAt(c, attempts, n - 1, limits) then 1 else 0)
  }

  function CutCount(c: Cache, attempts: seq<Attempt>, n: nat, limits: Limits): nat
    requires n <= |attempts|
  {
    if n == 0 then 0
    else
      CutCount(c, attempts, n - 1, limits)
      + (if GoesAt(c, attempts, n - 1, limits) && attempts[n - 1].cause == Scheduled && attempts[n - 1].fetch.CutShort?
         then 1 else 0)
  }

  lemma {:induction false} FetchesAreOfThreeKinds(c: Cache, attempts: seq<Attempt>, n: nat, limits: Limits)
    requires n <= |attempts|
    ensures FetchCount(c, attempts, n, limits)
            == |Starts(c, attempts, n, Scheduled, limits)| + |Starts(c, attempts, n, KidMiss, limits)|
               + CutCount(c, attempts, n, limits)
  {
    if n > 0 {
      FetchesAreOfThreeKinds(c, attempts, n - 1, limits);
    }
  }

  predicate Apart(times: seq<real>, gap: real) {
    forall k :: 0 < k < |times| ==> times[k] >= times[k - 1] + gap
  }

  lemma {:induction false} StartIsOfAttempt(c: Cache, attempts: seq<Attempt>, n: nat, cause: Cause, limits: Limits)
    returns (i: nat)
    requires n <= |attempts| && Starts(c, attempts, n, cause, limits) != []
    ensures i < n && CountsAt(c, attempts, i, cause, limits)
    ensures var starts := Starts(c, attempts, n, cause, limits); starts[|starts| - 1] == attempts[i].start
  {
    if CountsAt(c, attempts, n - 1, cause, limits) {
      i := n - 1;
    } else {
      i := StartIsOfAttempt(c, attempts, n - 1, cause, limits);
    }
  }

  lemma {:induction false} StartsAreApart(c: Cache, attempts: seq<Attempt>, n: nat, cause: Cause, limits: Limits)
    requires InOrder(attempts) && n <= |attempts|
    requires forall i :: 0 <= i < |attempts| ==> attempts[i].checked > 0.0
    requires limits.hardRefresh >= limits.minRefresh
    ensures Apart(Starts(c, attempts, n, cause, limits), limits.minRefresh)
  {
    if n > 0 {
      StartsAreApart(c, attempts, n - 1, cause, limits);
      var earlier := Starts(c, attempts, n - 1, cause, limits);
      if CountsAt(c, attempts, n - 1, cause, limits) && earlier != [] {
        var i := StartIsOfAttempt(c, attempts, n - 1, cause, limits);
        if cause == Scheduled {
          ScheduledFetchesAreApart(c, attempts, i, n - 1, limits);
          assert attempts[i].start <= attempts[i].done;
        } else {
          MissFetchesAreApart(c, attempts, i, n - 1, limits);
        }
      }
    }
  }

  lemma {:induction false} StartsAreWithin(
    c: Cache, attempts: seq<Attempt>, n: nat, cause: Cause, limits: Limits, from: real, to: real)
    requires n <= |attempts| && forall i :: 0 <= i < |attempts| ==> from <= attempts[i].start <= to
    ensures forall k :: 0 <= k < |Starts(c, attempts, n, cause, limits)| ==>
              from <= Starts(c, attempts, n, cause, limits)[k] <= to
  {
    if n > 0 {
      StartsAreWithin(c, attempts, n - 1, cause, limits, from, to);
    }
  }

  lemma {:induction false} ApartIsSpread(times: seq<real>, gap: real)
    requires times != [] && Apart(times, gap)
    ensures times[|times| - 1] >= times[0] + (|times| - 1) as real * gap
  {
    var n := |times| - 1;
    if n > 0 {
      ApartIsSpread(times[..n], gap);
      assert times[..n][n - 1] == times[n - 1];
      assert n as real * gap == (n - 1) as real * gap + gap;
    }
  }

  lemma ApartIsFew(times: seq<real>, gap: real, from: real, to: real)
    requires gap > 0.0 && from <= to && Apart(times, gap)
    requires forall k :: 0 <= k < |times| ==> from <= times[k] <= to
    ensures |times| <= ((to - from) / gap).Floor + 1
  {
    if times != [] {
      ApartIsSpread(times, gap);
      var n := |times| - 1;
      assert n as real * gap <= to - from;
      QuotientBound(n as real, to - from, gap);
    }
  }

  lemma QuotientBound(n: real, x: real, gap: real)
    requires gap > 0.0 && n * gap <= x
    ensures n <= x / gap
  {
    var q := x / gap;
    assert q * gap == x;
    if q < n {
      MulLess(q, n, gap);
    }
  }

  lemma MulLess(a: real, b: real, c: real)
    requires a < b && c > 0.0
    ensures a * c < b * c
  {
  }

  // In any stretch of time, whoever calls, at most two fetches for each minimum refresh in
  // it and two more, besides the scheduled fetches cut short.
  lemma FetchesAreFew(c: Cache, attempts: seq<Attempt>, limits: Limits, from: real, to: real)
    requires InOrder(attempts) && limits.hardRefresh >= limits.minRefresh > 0.0
    requires from <= to && forall i :: 0 <= i < |attempts| ==> attempts[i].checked > 0.0 && from <= attempts[i].start <= to
    ensures FetchCount(c, attempts, |attempts|, limits)
            <= 2 * (((to - from) / limits.minRefresh).Floor + 1) + CutCount(c, attempts, |attempts|, limits)
  {
    forall cause: Cause
      ensures |Starts(c, attempts, |attempts|, cause, limits)| <= ((to - from) / limits.minRefresh).Floor + 1
    {
      StartsAreApart(c, attempts, |attempts|, cause, limits);
      StartsAreWithin(c, attempts, |attempts|, cause, limits, from, to);
      ApartIsFew(Starts(c, attempts, |attempts|, cause, limits), limits.minRefresh, from, to);
    }
    FetchesAreOfThreeKinds(c, attempts, |attempts|, limits);
  }

  // --- what is held ---------------------------------------------------------------------------

  // The attempt fetched a usable key set.
  predicate SucceedsAt(c: Cache, attempts: seq<Attempt>, i: nat, limits: Limits)
    requires i < |attempts|
  {
    GoesAt(c, attempts, i, limits) && attempts[i].fetch.Fetched?
  }

  // The keys held are those of the latest successful fetch, so no failure drops a key.
  lemma {:induction false} HeldKeysAreTheLatest(c: Cache, attempts: seq<Attempt>, i: nat, j: nat, limits: Limits)
    requires i < j <= |attempts| && SucceedsAt(c, attempts, i, limits)
    requires forall k :: i < k < j ==> !SucceedsAt(c, attempts, k, limits)
    ensures Before(c, attempts, j, limits).keys == ById(attempts[i].fetch.keys)
    decreases j
  {
    if i < j - 1 {
      HeldKeysAreTheLatest(c, attempts, i, j - 1, limits);
      assert !SucceedsAt(c, attempts, j - 1, limits);
    }
  }

  // --- when a fetch goes, exactly ---------------------------------------------------------------

  // Nothing but a fetch that ended moves the times a scheduled one waits for.
  lemma {:induction false} WaitStays(c: Cache, attempts: seq<Attempt>, i: nat, j: nat, limits: Limits)
    requires i <= j <= |attempts| && forall k :: i <= k < j ==> !EndsAt(c, attempts, k, limits)
    ensures Before(c, attempts, j, limits).retryAt == Before(c, attempts, i, limits).retryAt
    ensures Before(c, attempts, j, limits).fetchedAt == Before(c, attempts, i, limits).fetchedAt
    decreases j
  {
    if i < j {
      WaitStays(c, attempts, i, j - 1, limits);
      assert !EndsAt(c, attempts, j - 1, limits);
    }
  }

  lemma {:induction false} FetchedAtIs(c: Cache, attempts: seq<Attempt>, i: nat, j: nat, limits: Limits)
    requires i < j <= |attempts| && SucceedsAt(c, attempts, i, limits)
    requires forall k :: i < k < j ==> !SucceedsAt(c, attempts, k, limits)
    ensures Before(c, attempts, j, limits).fetchedAt == Some(attempts[i].done)
    decreases j
  {
    if i < j - 1 {
      FetchedAtIs(c, attempts, i, j - 1, limits);
      assert !SucceedsAt(c, attempts, j - 1, limits);
    }
  }

  // After a success a scheduled fetch goes exactly when the hard refresh has passed since.
  lemma GoesAfterSuccess(c: Cache, attempts: seq<Attempt>, i: nat, j: nat, limits: Limits)
    requires i < j < |attempts| && SucceedsAt(c, attempts, i, limits) && attempts[j].cause == Scheduled
    requires forall k :: i < k < j ==> !EndsAt(c, attempts, k, limits)
    ensures GoesAt(c, attempts, j, limits) <==>
              attempts[j].checked >= 0.0 && attempts[j].checked - attempts[i].done >= limits.hardRefresh
  {
    WaitStays(c, attempts, i + 1, j, limits);
  }

  // After a failure it goes exactly when the minimum has passed since, and the hard refresh
  // since the latest success before.
  lemma GoesAfterFailure(c: Cache, attempts: seq<Attempt>, m: nat, i: nat, j: nat, limits: Limits)
    requires m < i < j < |attempts| && attempts[j].cause == Scheduled
    requires SucceedsAt(c, attempts, m, limits) && forall k :: m < k < i ==> !SucceedsAt(c, attempts, k, limits)
    requires EndsAt(c, attempts, i, limits) && attempts[i].fetch.FetchFailed?
    requires forall k :: i < k < j ==> !EndsAt(c, attempts, k, limits)
    ensures GoesAt(c, attempts, j, limits) <==>
              && attempts[j].checked >= attempts[i].done + limits.minRefresh
              && attempts[j].checked - attempts[m].done >= limits.hardRefresh
  {
    FetchedAtIs(c, attempts, m, i, limits);
    WaitStays(c, attempts, i + 1, j, limits);
  }

  // Where nothing has succeeded yet, it goes exactly when the minimum has passed since the
  // latest failure, and at once where there is none.
  lemma {:induction false} NothingFetchedYet(attempts: seq<Attempt>, j: nat, limits: Limits)
    requires j <= |attempts| && forall k :: 0 <= k < j ==> !SucceedsAt(EMPTY, attempts, k, limits)
    ensures Before(EMPTY, attempts, j, limits).fetchedAt.None? && Before(EMPTY, attempts, j, limits).keys == map[]
    decreases j
  {
    if j > 0 {
      NothingFetchedYet(attempts, j - 1, limits);
      assert !SucceedsAt(EMPTY, attempts, j - 1, limits);
    }
  }

  lemma GoesBeforeAnySuccess(attempts: seq<Attempt>, i: nat, j: nat, limits: Limits)
    requires i <= j < |attempts| && attempts[j].cause == Scheduled
    requires forall k :: 0 <= k < j ==> !SucceedsAt(EMPTY, attempts, k, limits)
    requires forall k :: i <= k < j ==> !EndsAt(EMPTY, attempts, k, limits)
    requires i == 0 || EndsAt(EMPTY, attempts, i - 1, limits)
    ensures GoesAt(EMPTY, attempts, j, limits) <==>
              attempts[j].checked >= if i == 0 then 0.0 else attempts[i - 1].done + limits.minRefresh
  {
    NothingFetchedYet(attempts, j, limits);
    WaitStays(EMPTY, attempts, i, j, limits);
    assert i > 0 ==> !SucceedsAt(EMPTY, attempts, i - 1, limits);
  }

  // A fetch for an unknown key id goes exactly when the minimum has passed since the latest one
  // started, where that was not at time zero.
  lemma {:induction false} MissMarkIs(c: Cache, attempts: seq<Attempt>, i: nat, j: nat, limits: Limits)
    requires i < j <= |attempts| && GoesAt(c, attempts, i, limits) && attempts[i].cause == KidMiss
    requires forall k :: i < k < j ==> !(GoesAt(c, attempts, k, limits) && attempts[k].cause == KidMiss)
    ensures Before(c, attempts, j, limits).missRefreshedAt == attempts[i].start
    decreases j
  {
    if i < j - 1 {
      MissMarkIs(c, attempts, i, j - 1, limits);
      assert !(GoesAt(c, attempts, j - 1, limits) && attempts[j - 1].cause == KidMiss);
    }
  }

  lemma MissGoesExactly(c: Cache, attempts: seq<Attempt>, i: nat, j: nat, limits: Limits)
    requires i < j < |attempts| && GoesAt(c, attempts, i, limits)
    requires attempts[i].cause == KidMiss && attempts[j].cause == KidMiss
    requires forall k :: i < k < j ==> !(GoesAt(c, attempts, k, limits) && attempts[k].cause == KidMiss)
    ensures GoesAt(c, attempts, j, limits) <==>
              attempts[i].start == 0.0 || attempts[j].checked - attempts[i].start >= limits.minRefresh
  {
    MissMarkIs(c, attempts, i, j, limits);
  }

  lemma FirstMissGoes(attempts: seq<Attempt>, j: nat, limits: Limits)
    requires j < |attempts| && attempts[j].cause == KidMiss
    requires forall k :: 0 <= k < j ==> !(GoesAt(EMPTY, attempts, k, limits) && attempts[k].cause == KidMiss)
    ensures GoesAt(EMPTY, attempts, j, limits)
  {
    NoMissYet(attempts, j, limits);
  }

  lemma {:induction false} NoMissYet(attempts: seq<Attempt>, j: nat, limits: Limits)
    requires j <= |attempts|
    requires forall k :: 0 <= k < j ==> !(GoesAt(EMPTY, attempts, k, limits) && attempts[k].cause == KidMiss)
    ensures Before(EMPTY, attempts, j, limits).missRefreshedAt == 0.0
    decreases j
  {
    if j > 0 {
      NoMissYet(attempts, j - 1, limits);
      assert !(GoesAt(EMPTY, attempts, j - 1, limits) && attempts[j - 1].cause == KidMiss);
    }
  }

  // --- what a caller is answered ------------------------------------------------------------------

  // The key under an id is the last one published with it; one published without an id is
  // under none.
  ghost predicate IsPublished(keys: seq<Published>, kid: string, key: Key) {
    exists i :: 0 <= i < |keys| && kid != "" && keys[i] == Published(Some(kid), key)
                && forall j :: i < j < |keys| ==> keys[j].kid != Some(kid)
  }

  lemma {:induction false} KeysAreThePublished(keys: seq<Published>, kid: string, key: Key)
    ensures kid in ById(keys) && ById(keys)[kid] == key <==> IsPublished(keys, kid, key)
  {
    if keys != [] {
      var n := |keys| - 1;
      KeysAreThePublished(keys[..n], kid, key);
      if keys[n].kid != Some(kid) {
        if IsPublished(keys[..n], kid, key) {
          var i :| 0 <= i < n && keys[..n][i] == Published(Some(kid), key)
                   && forall j :: i < j < n ==> keys[..n][j].kid != Some(kid);
          assert forall j :: i < j < n ==> keys[j] == keys[..n][j];
          assert keys[i] == Published(Some(kid), key);
        }
        if IsPublished(keys, kid, key) {
          var i :| 0 <= i < |keys| && keys[i] == Published(Some(kid), key)
                   && forall j :: i < j < |keys| ==> keys[j].kid != Some(kid);
          assert keys[..n][i] == Published(Some(kid), key);
        }
      }
    }
  }

  // Some fetch failed after the latest success.
  ghost predicate FailedSince(c: Cache, attempts: seq<Attempt>, i: nat, j: nat, limits: Limits)
    requires i <= j <= |attempts|
  {
    exists k :: i <= k < j && GoesAt(c, attempts, k, limits) && attempts[k].fetch.FetchFailed?
  }

  lemma {:induction false} FailureIsRemembered(c: Cache, attempts: seq<Attempt>, i: nat, j: nat, limits: Limits)
    requires i <= j <= |attempts| && !Before(c, attempts, i, limits).lastFetchFailed
    requires forall k :: i <= k < j ==> !SucceedsAt(c, attempts, k, limits)
    ensures Before(c, attempts, j, limits).lastFetchFailed <==> FailedSince(c, attempts, i, j, limits)
    decreases j
  {
    if i < j {
      FailureIsRemembered(c, attempts, i, j - 1, limits);
      assert !SucceedsAt(c, attempts, j - 1, limits);
      if GoesAt(c, attempts, j - 1, limits) && attempts[j - 1].fetch.FetchFailed? {
        assert FailedSince(c, attempts, i, j, limits);
      }
    }
  }

  // A key is answered exactly if the latest successful fetch published it under the id. An id
  // it did not publish is unknown, unless a fetch has failed since: then nobody could look.
  lemma AnsweredExactly(
    c: Cache, attempts: seq<Attempt>, i: nat, j: nat, limits: Limits, kid: Option<string>, key: Key)
    requires i < j <= |attempts| && SucceedsAt(c, attempts, i, limits)
    requires forall k :: i < k < j ==> !SucceedsAt(c, attempts, k, limits)
    ensures var answer, keys := Lookup(Before(c, attempts, j, limits), kid), attempts[i].fetch.keys;
            && (answer == Found(key) <==> kid.Some? && IsPublished(keys, kid.value, key))
            && (answer.Found? || answer == UnknownKey || answer == SourceUnavailable)
            && (answer == SourceUnavailable <==> !answer.Found? && FailedSince(c, attempts, i + 1, j, limits))
  {
    HeldKeysAreTheLatest(c, attempts, i, j, limits);
    FailureIsRemembered(c, attempts, i + 1, j, limits);
    if kid.Some? {
      KeysAreThePublished(attempts[i].fetch.keys, kid.value, key);
    }
  }

  // Before any fetch has succeeded every id is unknown, or out of reach once one has failed.
  lemma AnsweredBeforeAnySuccess(attempts: seq<Attempt>, j: nat, limits: Limits, kid: Option<string>)
    requires j <= |attempts| && forall k :: 0 <= k < j ==> !SucceedsAt(EMPTY, attempts, k, limits)
    ensures Lookup(Before(EMPTY, attempts, j, limits), kid)
            == if FailedSince(EMPTY, attempts, 0, j, limits) then SourceUnavailable else UnknownKey
  {
    NothingFetchedYet(attempts, j, limits);
    FailureIsRemembered(EMPTY, attempts, 0, j, limits);
  }
}
