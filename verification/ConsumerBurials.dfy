// Two families of runs in which a job is dead-lettered for its attempts without having been
// delivered too often: a page of counts with no room for it, and one that comes too late.
module ConsumerBurials {
  import opened Options
  import opened Consumer
  import opened ConsumerRuns

  // Some run of events leads from one world to another.
  ghost predicate Leads(w: World, t: World, config: Config) {
    exists events: seq<Event> :: CanRun(w, events, config) && After(w, events, config) == t
  }

  lemma NoEvents(w: World, config: Config)
    ensures Leads(w, w, config)
  {
    assert CanRun(w, [], config) && After(w, [], config) == w;
  }

  lemma OneMore(w: World, e: Event, t: World, config: Config)
    requires Enabled(w, e, config) && Leads(Next(w, e, config), t, config)
    ensures Leads(w, t, config)
  {
    var events :| CanRun(Next(w, e, config), events, config) && After(Next(w, e, config), events, config) == t;
    assert ([e] + events)[1..] == events;
    assert CanRun(w, [e] + events, config) && After(w, [e] + events, config) == t;
  }

  // Whatever leads on from the second world leads on from the first.
  ghost predicate Onward(w: World, t: World, config: Config) {
    forall v :: Leads(t, v, config) ==> Leads(w, v, config)
  }

  lemma OnwardByOne(w: World, e: Event, config: Config)
    requires Enabled(w, e, config)
    ensures Onward(w, Next(w, e, config), config)
  {
    forall v | Leads(Next(w, e, config), v, config)
      ensures Leads(w, v, config)
    {
      OneMore(w, e, v, config);
    }
  }

  lemma OnwardOn(w: World, t: World, v: World, config: Config)
    requires Onward(w, t, config) && Onward(t, v, config)
    ensures Onward(w, v, config)
  {
  }

  lemma OnwardLeads(w: World, t: World, config: Config)
    requires Onward(w, t, config)
    ensures Leads(w, t, config)
  {
    NoEvents(t, config);
  }

  // --- a crowded page ----------------------------------------------------------------------

  // A claim of two entries with a third pending between them.
  ghost predicate Crowded(w: World, who: Name, first: Id, other: Id, last: Id, config: Config) {
    && Consistent(w) && LocalOf(w, who) == IDLE && config.batchSize >= 2
    && first < other < last && first in w.pending && other in w.pending && last in w.pending
    && Decoded(w.stream[last], config).Some?
  }

  // The entry's own history has moved on by one delivery to someone, and not otherwise.
  ghost predicate DeliveredOnce(w: World, t: World, id: Id) {
    && id in w.log && id in t.log
    && t.log[id].delivered == w.log[id].delivered + 1
    && t.log[id].runs == w.log[id].runs && t.log[id].returned == w.log[id].returned
  }

  ghost predicate Queues(w: World, who: Name, first: Id, last: Id)
    requires last in w.stream
  {
    var queue := LocalOf(w, who).queue;
    |queue| == 2 && queue[0].id == first && queue[1].id == last && queue[1].fields == w.stream[last]
  }

  lemma CrowdedClaim(w: World, who: Name, first: Id, other: Id, last: Id, config: Config)
    requires Crowded(w, who, first, other, last, config)
    ensures Enabled(w, Claim(who, [first, last]), config)
    ensures var t := Next(w, Claim(who, [first, last]), config);
            && Consistent(t) && LocalOf(t, who).phase == Counting && last in t.stream && Queues(t, who, first, last)
            && t.stream == w.stream && t.dead == w.dead && t.pending.Keys == w.pending.Keys && DeliveredOnce(w, t, last)
  {
    var ids := [first, last];
    assert forall id: Id :: id in ids ==> id == first || id == last;
    assert Enabled(w, Claim(who, ids), config);
    ClaimIsConsistent(w, who, ids, config);
    assert ids[1] in ids;
    assert Next(w, Claim(who, ids), config).pending.Keys == w.pending.Keys;
  }

  // The last entry has no place on the page, so it is counted as past the limit.
  lemma CrowdedCount(w: World, who: Name, first: Id, other: Id, last: Id, config: Config)
    requires Consistent(w) && LocalOf(w, who).phase == Counting && last in w.stream && Queues(w, who, first, last)
    requires first < other < last && first in w.pending && other in w.pending && last in w.pending
    ensures var t := Next(w, Count(who), config);
            && Consistent(t) && LocalOf(t, who).phase == Ready && t.stream == w.stream && t.log == w.log && t.dead == w.dead
            && Queues(t, who, first, last) && LocalOf(t, who).queue[1].deliveries == config.maxAttempts + 1
  {
    StepIsConsistent(w, Count(who), config);
    var queue := LocalOf(w, who).queue;
    assert IdsOf(queue) == {first, last};
    PageCanMissTheLast(w.pending, queue, other);
  }

  // Taking up the first entry, and its handler failing if it is run, leaves the last in hand.
  lemma FirstIsHandled(w: World, who: Name, first: Id, last: Id, config: Config) returns (t: World)
    requires Consistent(w) && LocalOf(w, who).phase == Ready && first != last && last in w.stream && Queues(w, who, first, last)
    ensures LocalOf(t, who) == Local(Ready, [LocalOf(w, who).queue[1]])
    ensures Consistent(t) && last in t.log && last in w.log && t.log[last] == w.log[last]
    ensures Onward(w, t, config)
  {
    var h := LocalOf(w, who).queue[0];
    assert LocalOf(w, who).queue[1..] == [LocalOf(w, who).queue[1]];
    t := Next(w, Begin(who), config);
    StepIsConsistent(w, Begin(who), config);
    OnwardByOne(w, Begin(who), config);
    if Triage(h.fields, h.deliveries, config).Run? {
      var begun := t;
      t := Next(begun, HandlerFails(who), config);
      StepIsConsistent(begun, HandlerFails(who), config);
      OnwardByOne(begun, HandlerFails(who), config);
    }
  }

  lemma LastIsBuried(w: World, who: Name, h: Held, config: Config)
    requires Consistent(w) && LocalOf(w, who) == Local(Ready, [h]) && h.id in w.log
    requires Decoded(h.fields, config).Some? && h.deliveries > config.maxAttempts
    ensures var t := Next(w, Begin(who), config);
            && t.dead == w.dead + [Dead(h.id, h.fields.data.GetOr(""), MaxAttempts, h.deliveries)]
            && h.id !in t.stream && t.log == w.log
  {
  }

  lemma CrowdedCounts(w: World, who: Name, first: Id, other: Id, last: Id, config: Config) returns (t: World)
    requires Crowded(w, who, first, other, last, config)
    ensures Onward(w, t, config) && Consistent(t) && LocalOf(t, who).phase == Ready && t.stream == w.stream
    ensures Queues(t, who, first, last) && LocalOf(t, who).queue[1].deliveries == config.maxAttempts + 1
    ensures DeliveredOnce(w, t, last)
  {
    var claimed := Next(w, Claim(who, [first, last]), config);
    CrowdedClaim(w, who, first, other, last, config);
    OnwardByOne(w, Claim(who, [first, last]), config);
    t := Next(claimed, Count(who), config);
    CrowdedCount(claimed, who, first, other, last, config);
    OnwardByOne(claimed, Count(who), config);
  }

  // Wherever two pending entries can be claimed with a third pending between them, the next
  // steps of that one consumer can dead-letter the last of them for its attempts, however
  // few they are and without starting its handler.
  lemma CrowdedPageBuries(w: World, who: Name, first: Id, other: Id, last: Id, config: Config) returns (t: World)
    requires Crowded(w, who, first, other, last, config)
    ensures Onward(w, t, config) && DeliveredOnce(w, t, last) && last !in t.stream
    ensures t.dead != [] && t.dead[|t.dead| - 1] == Dead(last, w.stream[last].data.GetOr(""), MaxAttempts, config.maxAttempts + 1)
  {
    var counted := CrowdedCounts(w, who, first, other, last, config);
    var left := FirstIsHandled(counted, who, first, last, config);
    OnwardOn(w, counted, left, config);
    LastIsBuried(left, who, LocalOf(counted, who).queue[1], config);
    t := Next(left, Begin(who), config);
    OnwardByOne(left, Begin(who), config);
  }

  // --- such a world is reached -----------------------------------------------------------------

  const JOB := Fields(Some("{}"))
  const FIVE := Config(_ => Some(Envelope("job", "index")), {"index"}, 5, 2)

  // Everything read, and consumer 1 with nothing in hand.
  ghost predicate AllRead(w: World) {
    Consistent(w) && w.lastRead == w.nextId && LocalOf(w, 1) == IDLE && LocalOf(w, 2) == IDLE && w.dead == []
  }

  ghost predicate IsWaiting(w: World, id: Id, times: nat) {
    id in w.pending && id in w.stream && id in w.log && w.stream[id] == JOB && w.log[id].delivered == times
    && w.log[id].runs == 0 && !w.log[id].returned
  }

  ghost predicate StillWaiting(w: World, t: World) {
    forall id: Id, times: nat :: IsWaiting(w, id, times) ==> IsWaiting(t, id, times)
  }

  lemma JobIsAdded(w: World)
    requires AllRead(w)
    ensures var n, t := w.nextId, Next(w, Add(JOB), FIVE);
            && Consistent(t) && t.nextId == n + 1 && t.lastRead == n && t.locals == w.locals && t.dead == []
            && n in t.stream && t.stream[n] == JOB && t.log[n] == History(JOB, 0, map[], {}, 0, false)
            && StillWaiting(w, t) && Onward(w, t, FIVE)
  {
    StepIsConsistent(w, Add(JOB), FIVE);
    OnwardByOne(w, Add(JOB), FIVE);
  }

  lemma JobIsRead(w: World, n: nat)
    requires Consistent(w) && w.nextId == n + 1 && w.lastRead == n && LocalOf(w, 1) == IDLE && w.dead == []
    requires n in w.stream && w.stream[n] == JOB && w.log[n] == History(JOB, 0, map[], {}, 0, false)
    ensures Enabled(w, Read(1, [n]), FIVE)
    ensures var t := Next(w, Read(1, [n]), FIVE);
            && Consistent(t) && t.nextId == t.lastRead == n + 1 && LocalOf(t, 2) == LocalOf(w, 2) && t.dead == []
            && IsWaiting(t, n, 1) && StillWaiting(w, t) && Onward(w, t, FIVE)
  {
    assert [n][0] == n && forall id: Id :: id in [n] ==> id == n;
    assert Enabled(w, Read(1, [n]), FIVE);
    StepIsConsistent(w, Read(1, [n]), FIVE);
    OnwardByOne(w, Read(1, [n]), FIVE);
  }

  lemma ConsumerIsGone(w: World)
    requires Consistent(w)
    ensures var t := Next(w, Abandon(1), FIVE);
            && Consistent(t) && t == w.(locals := w.locals[1 := IDLE]) && StillWaiting(w, t) && Onward(w, t, FIVE)
  {
    StepIsConsistent(w, Abandon(1), FIVE);
    OnwardByOne(w, Abandon(1), FIVE);
  }

  // A job is added, read by a consumer that then crashes, and left pending.
  lemma JobIsLeft(w: World) returns (t: World)
    requires AllRead(w)
    ensures AllRead(t) && Onward(w, t, FIVE) && t.nextId == w.nextId + 1 && IsWaiting(t, w.nextId, 1) && StillWaiting(w, t)
  {
    var added := Next(w, Add(JOB), FIVE);
    JobIsAdded(w);
    var read := Next(added, Read(1, [w.nextId]), FIVE);
    JobIsRead(added, w.nextId);
    OnwardOn(w, added, read, FIVE);
    t := Next(read, Abandon(1), FIVE);
    ConsumerIsGone(read);
    OnwardOn(w, read, t, FIVE);
  }

  // A waiting job is reclaimed by a consumer that then crashes.
  lemma JobIsReclaimed(w: World, id: Id, times: nat) returns (t: World)
    requires AllRead(w) && IsWaiting(w, id, times)
    ensures AllRead(t) && Onward(w, t, FIVE) && IsWaiting(t, id, times + 1)
    ensures forall other: Id, n: nat :: other != id && IsWaiting(w, other, n) ==> IsWaiting(t, other, n)
  {
    assert [id][0] == id && forall x: Id :: x in [id] ==> x == id;
    assert Enabled(w, Claim(1, [id]), FIVE);
    var claimed := Next(w, Claim(1, [id]), FIVE);
    StepIsConsistent(w, Claim(1, [id]), FIVE);
    OnwardByOne(w, Claim(1, [id]), FIVE);
    t := Next(claimed, Abandon(1), FIVE);
    ConsumerIsGone(claimed);
    OnwardOn(w, claimed, t, FIVE);
  }

  lemma ThreeAreLeft() returns (w: World)
    ensures AllRead(w) && Onward(EMPTY, w, FIVE) && IsWaiting(w, 0, 1) && IsWaiting(w, 1, 1) && IsWaiting(w, 2, 1)
  {
    var one := JobIsLeft(EMPTY);
    var two := JobIsLeft(one);
    w := JobIsLeft(two);
  }

  lemma TwoAreReclaimed(w: World) returns (t: World)
    requires AllRead(w) && IsWaiting(w, 0, 1) && IsWaiting(w, 1, 1) && IsWaiting(w, 2, 1)
    ensures AllRead(t) && Onward(w, t, FIVE) && IsWaiting(t, 0, 2) && IsWaiting(t, 1, 2) && IsWaiting(t, 2, 1)
  {
    var again := JobIsReclaimed(w, 0, 1);
    t := JobIsReclaimed(again, 1, 1);
  }

  lemma WaitingIsCrowded(w: World)
    requires AllRead(w) && IsWaiting(w, 0, 2) && IsWaiting(w, 1, 2) && IsWaiting(w, 2, 1)
    ensures Crowded(w, 2, 0, 1, 2, FIVE)
  {
  }

  // An entry buried unfinished on its second delivery of five.
  ghost predicate BuriedEarly(w: World, id: Id) {
    && w.dead != [] && w.dead[|w.dead| - 1] == Dead(id, "{}", MaxAttempts, 6) && id !in w.stream
    && id in w.log && w.log[id].delivered == 2 && w.log[id].runs == 0 && !w.log[id].returned
  }

  // Three jobs are left by crashed consumers; the first two are reclaimed once more, one
  // after the other; then the first and the third are reclaimed while the second is not yet
  // idle. The third is dead-lettered for its attempts on its second delivery of five, and
  // its handler was never started.
  lemma AnUnfinishedJobCanBeBuried()
    ensures FIVE.maxAttempts == 5 && exists w :: Leads(EMPTY, w, FIVE) && BuriedEarly(w, 2)
  {
    var left := ThreeAreLeft();
    var again := TwoAreReclaimed(left);
    WaitingIsCrowded(again);
    var t := CrowdedPageBuries(again, 2, 0, 1, 2, FIVE);
    OnwardLeads(again, t, FIVE);
    assert Leads(EMPTY, t, FIVE) && BuriedEarly(t, 2);
  }

  // --- a count that comes too late ----------------------------------------------------------------

  function One(lastRead: Id, pending: map<Id, nat>, locals: map<Name, Local>, history: History): World {
    World(1, map[0 := JOB], lastRead, pending, [], locals, map[0 := history])
  }

  const ADDED := One(0, map[], map[], History(JOB, 0, map[], {}, 0, false))
  const READ := One(1, map[0 := 1], map[1 := Local(Ready, [Held(0, JOB, 1, 1)])], History(JOB, 1, map[1 := 1], {}, 0, false))
  const RUNNING := One(1, map[0 := 1], map[1 := Local(Running(Held(0, JOB, 1, 1)), [])], History(JOB, 1, map[1 := 1], {1}, 1, false))
  const CLAIMED := One(
    1, map[0 := 2],
    map[1 := Local(Running(Held(0, JOB, 1, 1)), []), 2 := Local(Counting, [Held(0, JOB, 2, 0)])],
    History(JOB, 2, map[1 := 1, 2 := 2], {1}, 1, false))
  const COMPLETED := World(
    1, map[], 1, map[], [],
    map[1 := IDLE, 2 := Local(Counting, [Held(0, JOB, 2, 0)])],
    map[0 := History(JOB, 2, map[1 := 1, 2 := 2], {1}, 1, true)])

  lemma IsAdded()
    ensures Next(EMPTY, Add(JOB), FIVE) == ADDED
  {
  }

  lemma IsRead()
    ensures Enabled(ADDED, Read(1, [0]), FIVE) && Next(ADDED, Read(1, [0]), FIVE) == READ
  {
    var t := Next(ADDED, Read(1, [0]), FIVE);
    assert t.pending == READ.pending && t.log == READ.log;
    assert t.locals[1].queue == READ.locals[1].queue;
  }

  lemma IsBegun()
    ensures Enabled(READ, Begin(1), FIVE) && Next(READ, Begin(1), FIVE) == RUNNING
  {
    assert [Held(0, JOB, 1, 1)][1..] == [];
    assert {} + {1} == {1};
  }

  lemma IsClaimed()
    ensures Enabled(RUNNING, Claim(2, [0]), FIVE) && Next(RUNNING, Claim(2, [0]), FIVE) == CLAIMED
  {
    var t := Next(RUNNING, Claim(2, [0]), FIVE);
    assert t.pending == CLAIMED.pending && t.log == CLAIMED.log;
    assert t.locals[2].queue == CLAIMED.locals[2].queue;
    assert t.locals == CLAIMED.locals;
  }

  lemma IsCompleted()
    ensures Enabled(CLAIMED, HandlerReturns(1), FIVE)
    ensures var t := Next(CLAIMED, HandlerReturns(1), FIVE);
            Enabled(t, Complete(1), FIVE) && Next(t, Complete(1), FIVE) == COMPLETED
  {
    var t := Next(Next(CLAIMED, HandlerReturns(1), FIVE), Complete(1), FIVE);
    assert t.stream == map[] && t.pending == map[];
    assert t.locals == COMPLETED.locals && t.log == COMPLETED.log;
  }

  lemma IsBuried()
    ensures Enabled(COMPLETED, Count(2), FIVE)
    ensures var t := Next(COMPLETED, Count(2), FIVE);
            && Enabled(t, Begin(2), FIVE)
            && Next(t, Begin(2), FIVE).dead == [Dead(0, "{}", MaxAttempts, 6)]
            && Next(t, Begin(2), FIVE).log == COMPLETED.log
  {
    var t := Next(COMPLETED, Count(2), FIVE);
    assert LocalOf(t, 2).queue == [Held(0, JOB, 2, 6)];
  }

  lemma ClaimedIsBuried(t: World)
    requires t == Next(Next(COMPLETED, Count(2), FIVE), Begin(2), FIVE)
    ensures Leads(CLAIMED, t, FIVE)
  {
    IsBuried();
    IsCompleted();
    NoEvents(t, FIVE);
    OneMore(Next(COMPLETED, Count(2), FIVE), Begin(2), t, FIVE);
    OneMore(COMPLETED, Count(2), t, FIVE);
    OneMore(Next(CLAIMED, HandlerReturns(1), FIVE), Complete(1), t, FIVE);
    OneMore(CLAIMED, HandlerReturns(1), t, FIVE);
  }

  // So the promise that only a job delivered too often is dead-lettered for its attempts
  // fails: a slow consumer finishes a job just after another has reclaimed it, and the
  // second, finding no count, dead-letters the finished job on its second delivery of five.
  lemma AFinishedJobCanBeBuried()
    ensures exists w :: && Leads(EMPTY, w, FIVE) && w.dead == [Dead(0, "{}", MaxAttempts, 6)]
                        && HistoryOf(w, 0).delivered == 2 && HistoryOf(w, 0).returned && FIVE.maxAttempts == 5
  {
    var t := Next(Next(COMPLETED, Count(2), FIVE), Begin(2), FIVE);
    ClaimedIsBuried(t);
    IsAdded();
    IsRead();
    IsBegun();
    IsClaimed();
    IsBuried();
    OneMore(RUNNING, Claim(2, [0]), t, FIVE);
    OneMore(READ, Begin(1), t, FIVE);
    OneMore(ADDED, Read(1, [0]), t, FIVE);
    OneMore(EMPTY, Add(JOB), t, FIVE);
  }
}
