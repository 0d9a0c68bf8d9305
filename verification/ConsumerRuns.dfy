// What every interleaving of producers, consumers, handler outcomes and crashes keeps.
module ConsumerRuns {
  import opened Options
  import opened Consumer
  import opened Sets

  // --- no job is lost ------------------------------------------------------------------

  // Histories and the dead stream only grow.
  lemma HistoryGrows(w: World, e: Event, config: Config)
    requires Consistent(w) && Enabled(w, e, config)
    ensures var t := Next(w, e, config);
            && w.dead <= t.dead
            && (forall id: Id :: id in w.log ==>
                  && id in t.log && t.log[id].fields == w.log[id].fields
                  && (w.log[id].returned ==> t.log[id].returned))
  {
    if e.Begin? {
      var h := LocalOf(w, e.who).queue[0];
      assert HoldsLogged(w, LocalOf(w, e.who));
      assert Triage(h.fields, h.deliveries, config).DeadLetter? || Triage(h.fields, h.deliveries, config).Run?;
    }
  }

  lemma DeadStays(w: World, t: World, id: Id)
    requires w.dead <= t.dead && id in w.log && id in t.log && t.log[id].fields == w.log[id].fields
    requires IsDead(w, id)
    ensures IsDead(t, id)
  {
    var k :| 0 <= k < |w.dead| && w.dead[k].source == id && w.dead[k].data == HistoryOf(w, id).fields.data.GetOr("");
    assert t.dead[k] == w.dead[k];
  }

  lemma StepKeepsFinishing(w: World, e: Event, config: Config)
    requires Consistent(w) && Enabled(w, e, config) && FinishingReturned(w)
    ensures FinishingReturned(Next(w, e, config))
  {
    HistoryGrows(w, e, config);
    var t := Next(w, e, config);
    forall who | who in t.locals && t.locals[who].phase.Finishing?
      ensures HistoryOf(t, t.locals[who].phase.current.id).returned
    {
      if !(e.HandlerReturns? && e.who == who) {
        assert who in w.locals && w.locals[who].phase == t.locals[who].phase;
        assert HoldsLogged(w, w.locals[who]);
      }
    }
  }

  // Only a burial and an acknowledgement take an entry out of the stream.
  lemma StepWithdraws(w: World, e: Event, config: Config, id: Id)
    requires Consistent(w) && Enabled(w, e, config) && id in w.stream && id !in Next(w, e, config).stream
    ensures e.Begin? || e.Bury? || e.Complete?
    ensures id == (if e.Begin? then LocalOf(w, e.who).queue[0] else LocalOf(w, e.who).phase.current).id
    ensures e.Begin? || e.Bury? ==> |Next(w, e, config).dead| == |w.dead| + 1
  {
  }

  lemma BurialIsRecorded(w: World, e: Event, config: Config)
    requires Consistent(w) && Enabled(w, e, config) && (e.Begin? || e.Bury?)
    requires |Next(w, e, config).dead| == |w.dead| + 1
    ensures IsDead(Next(w, e, config), (if e.Begin? then LocalOf(w, e.who).queue[0] else LocalOf(w, e.who).phase.current).id)
  {
    HeldIsLogged(w, e.who);
    var h := if e.Begin? then LocalOf(w, e.who).queue[0] else LocalOf(w, e.who).phase.current;
    var t := Next(w, e, config);
    assert t.log == w.log && HistoryOf(t, h.id).fields == h.fields;
    assert t.dead[|w.dead|].source == h.id && t.dead[|w.dead|].data == h.fields.data.GetOr("");
  }

  // The entry a step takes out of the stream was returned on, or goes to the dead stream.
  lemma StepAccountsFor(w: World, e: Event, config: Config, id: Id)
    requires Consistent(w) && Enabled(w, e, config) && FinishingReturned(w)
    requires id in w.stream && id !in Next(w, e, config).stream
    ensures w.log[id].returned || IsDead(Next(w, e, config), id)
  {
    StepWithdraws(w, e, config, id);
    if e.Complete? {
      assert HistoryOf(w, id).returned;
    } else {
      BurialIsRecorded(w, e, config);
    }
  }

  lemma StepLosesNothing(w: World, e: Event, config: Config)
    requires Consistent(w) && Enabled(w, e, config) && FinishingReturned(w) && NothingLost(w)
    ensures NothingLost(Next(w, e, config))
  {
    StepIsConsistent(w, e, config);
    HistoryGrows(w, e, config);
    var t := Next(w, e, config);
    forall id: Id | id in t.log
      ensures (id in t.stream && (id >= t.lastRead || id in t.pending)) || HistoryOf(t, id).returned || IsDead(t, id)
    {
      if id !in t.stream {
        if id in w.stream {
          StepAccountsFor(w, e, config, id);
        } else if id in w.log && IsDead(w, id) {
          DeadStays(w, t, id);
        }
      }
    }
  }

  // --- how often a handler runs ----------------------------------------------------------

  // Handlers start at most once a delivery, and only on a delivery within the limit.
  ghost predicate HistorySound(h: History, config: Config) {
    && h.runs == |h.begun|
    && (forall t :: t in h.begun ==> 1 <= t <= h.delivered && t <= config.maxAttempts)
    && (forall t :: t in h.owners ==> 1 <= t <= h.delivered)
  }

  // An entry in hand is a delivery made to this consumer and not yet begun, and the count
  // given to triage never makes a delivery past the limit look like one within it.
  ghost predicate HeldSound(w: World, who: Name, h: Held, counted: bool, config: Config) {
    && h.id in w.log
    && var history := w.log[h.id];
       && 1 <= h.ticket <= history.delivered
       && h.ticket in history.owners && history.owners[h.ticket] == who
       && h.ticket !in history.begun
       && (counted && h.deliveries <= config.maxAttempts ==> h.ticket <= h.deliveries)
  }

  ghost predicate QueueSound(w: World, who: Name, local: Local, config: Config) {
    && (forall k :: 0 <= k < |local.queue| ==> HeldSound(w, who, local.queue[k], local.phase != Counting, config))
    && (forall i, j :: 0 <= i < j < |local.queue| ==> local.queue[i].id < local.queue[j].id)
  }

  ghost predicate Sound(w: World, config: Config) {
    && (forall id: Id :: id in w.log ==> HistorySound(w.log[id], config))
    && (forall who :: who in w.locals ==> QueueSound(w, who, w.locals[who], config))
  }

  lemma LocalIsSound(w: World, who: Name, local: Local, config: Config)
    requires Sound(w, config) && QueueSound(w, who, local, config)
    ensures Sound(WithLocal(w, who, local), config)
  {
    var t := WithLocal(w, who, local);
    forall other | other in t.locals
      ensures QueueSound(t, other, t.locals[other], config)
    {
      assert other != who ==> QueueSound(w, other, w.locals[other], config);
      SameLogSameQueue(w, t, other, t.locals[other], config);
    }
  }

  lemma SameLogSameQueue(w: World, t: World, who: Name, local: Local, config: Config)
    requires QueueSound(w, who, local, config) && t.log == w.log
    ensures QueueSound(t, who, local, config)
  {
    forall k | 0 <= k < |local.queue|
      ensures HeldSound(t, who, local.queue[k], local.phase != Counting, config)
    {
      assert HeldSound(w, who, local.queue[k], local.phase != Counting, config);
    }
  }

  lemma SameLogIsSound(w: World, t: World, config: Config)
    requires Sound(w, config) && t.log == w.log && t.locals == w.locals
    ensures Sound(t, config)
  {
    forall who | who in t.locals
      ensures QueueSound(t, who, t.locals[who], config)
    {
      SameLogSameQueue(w, t, who, t.locals[who], config);
    }
  }

  // A delivery is a new ticket, so what others hold is as it was.
  lemma DeliveredKeepsHeld(
    w: World, who: Name, ids: seq<Id>, phase: Phase, count: nat, other: Name, h: Held, counted: bool, config: Config)
    requires Consistent(w) && HeldSound(w, other, h, counted, config) && HistorySound(w.log[h.id], config)
    requires forall id: Id :: id in ids ==> id in w.stream
    ensures HeldSound(Delivered(w, who, ids, phase, count), other, h, counted, config)
  {
  }

  lemma DeliveredIsSound(w: World, who: Name, ids: seq<Id>, phase: Phase, count: nat, config: Config)
    requires Consistent(w) && Sound(w, config) && Ascending(ids)
    requires forall id: Id :: id in ids ==> id in w.stream
    requires phase == Counting || (phase == Ready && forall id: Id :: id in ids ==> w.log[id].delivered == 0 && count == 1)
    ensures Sound(Delivered(w, who, ids, phase, count), config)
  {
    var t := Delivered(w, who, ids, phase, count);
    forall id: Id | id in t.log
      ensures HistorySound(t.log[id], config)
    {
      assert HistorySound(w.log[id], config);
    }
    forall other | other in t.locals
      ensures QueueSound(t, other, t.locals[other], config)
    {
      if other == who {
        DeliveredQueue(w, who, ids, phase, count, config);
      } else {
        var local := w.locals[other];
        assert QueueSound(w, other, local, config);
        forall k | 0 <= k < |local.queue|
          ensures HeldSound(t, other, local.queue[k], local.phase != Counting, config)
        {
          assert HeldSound(w, other, local.queue[k], local.phase != Counting, config);
          DeliveredKeepsHeld(w, who, ids, phase, count, other, local.queue[k], local.phase != Counting, config);
        }
      }
    }
  }

  // The delivery just made is new, and on a first delivery the count given is the true one.
  lemma DeliveredHolds(w: World, who: Name, ids: seq<Id>, phase: Phase, count: nat, k: nat, config: Config)
    requires k < |ids| && (forall id: Id :: id in ids ==> id in w.stream)
    requires ids[k] in w.log && HistorySound(w.log[ids[k]], config)
    requires phase == Counting || (w.log[ids[k]].delivered == 0 && count == 1)
    ensures HeldSound(Delivered(w, who, ids, phase, count), who, Delivered(w, who, ids, phase, count).locals[who].queue[k],
                      phase != Counting, config)
  {
    assert ids[k] in ids;
  }

  lemma DeliveredQueue(w: World, who: Name, ids: seq<Id>, phase: Phase, count: nat, config: Config)
    requires Consistent(w) && Sound(w, config) && Ascending(ids)
    requires forall id: Id :: id in ids ==> id in w.stream
    requires phase == Counting || (phase == Ready && forall id: Id :: id in ids ==> w.log[id].delivered == 0 && count == 1)
    ensures QueueSound(Delivered(w, who, ids, phase, count), who, Delivered(w, who, ids, phase, count).locals[who], config)
  {
    var queue := Delivered(w, who, ids, phase, count).locals[who].queue;
    forall k | 0 <= k < |queue|
      ensures HeldSound(Delivered(w, who, ids, phase, count), who, queue[k], phase != Counting, config)
    {
      assert ids[k] in ids && ids[k] in w.stream;
      DeliveredHolds(w, who, ids, phase, count, k, config);
    }
  }

  // The counts read are the true ones or one past the limit; either way no lower than the
  // delivery in hand.
  lemma CountedIsSound(w: World, who: Name, config: Config)
    requires Consistent(w) && Sound(w, config)
    ensures QueueSound(w, who, Local(Ready, Counted(w, LocalOf(w, who).queue, config)), config)
  {
    var queue := LocalOf(w, who).queue;
    var counted := Counted(w, queue, config);
    assert QueueSound(w, who, LocalOf(w, who), config);
    forall k | 0 <= k < |counted|
      ensures HeldSound(w, who, counted[k], true, config)
    {
      assert HeldSound(w, who, queue[k], LocalOf(w, who).phase != Counting, config);
    }
  }

  lemma StartedKeepsHeld(w: World, h: Held, who: Name, other: Held, counted: bool, config: Config)
    requires HeldSound(w, who, other, counted, config) && h.id in w.log && (other.id != h.id || other.ticket != h.ticket)
    ensures HeldSound(Started(w, h), who, other, counted, config)
  {
  }

  lemma StartedKeepsQueue(w: World, h: Held, who: Name, local: Local, config: Config)
    requires QueueSound(w, who, local, config) && h.id in w.log
    requires forall k :: 0 <= k < |local.queue| ==> local.queue[k].id != h.id || local.queue[k].ticket != h.ticket
    ensures QueueSound(Started(w, h), who, local, config)
  {
    forall k | 0 <= k < |local.queue|
      ensures HeldSound(Started(w, h), who, local.queue[k], local.phase != Counting, config)
    {
      StartedKeepsHeld(w, h, who, local.queue[k], local.phase != Counting, config);
    }
  }

  // Another consumer holds other deliveries.
  lemma OthersHoldOthers(w: World, h: Held, who: Name, other: Name, local: Local, config: Config)
    requires QueueSound(w, other, local, config) && HeldSound(w, who, h, true, config) && other != who
    ensures forall k :: 0 <= k < |local.queue| ==> local.queue[k].id != h.id || local.queue[k].ticket != h.ticket
  {
    forall k | 0 <= k < |local.queue| && local.queue[k].id == h.id
      ensures local.queue[k].ticket != h.ticket
    {
      assert HeldSound(w, other, local.queue[k], local.phase != Counting, config);
    }
  }

  // Starting a handler uses up its delivery; whatever else is in hand is another one.
  lemma StartedIsSound(w: World, who: Name, config: Config)
    requires Sound(w, config) && Enabled(w, Begin(who), config)
    requires LocalOf(w, who).queue[0].deliveries <= config.maxAttempts
    ensures var h := LocalOf(w, who).queue[0];
            Sound(WithLocal(Started(w, h), who, Local(Running(h), LocalOf(w, who).queue[1..])), config)
  {
    var local := LocalOf(w, who);
    var h := local.queue[0];
    var started, rest := Started(w, h), Local(Running(h), local.queue[1..]);
    assert QueueSound(w, who, local, config) && HeldSound(w, who, h, true, config);
    TailIsSound(w, who, local, Running(h), 1, config);
    StartedKeepsQueue(w, h, who, rest, config);
    forall other | other in w.locals && other != who
      ensures QueueSound(started, other, w.locals[other], config)
    {
      OthersHoldOthers(w, h, who, other, w.locals[other], config);
      StartedKeepsQueue(w, h, other, w.locals[other], config);
    }
    StartedHistories(w, h, who, config);
    StartedLocals(w, started, who, rest, config);
  }

  lemma StartedHistories(w: World, h: Held, who: Name, config: Config)
    requires HeldSound(w, who, h, true, config) && h.deliveries <= config.maxAttempts
    requires forall id: Id :: id in w.log ==> HistorySound(w.log[id], config)
    ensures forall id: Id :: id in Started(w, h).log ==> HistorySound(Started(w, h).log[id], config)
  {
    assert HistorySound(w.log[h.id], config);
  }

  lemma StartedLocals(w: World, started: World, who: Name, local: Local, config: Config)
    requires started.locals == w.locals && QueueSound(started, who, local, config)
    requires forall id: Id :: id in started.log ==> HistorySound(started.log[id], config)
    requires forall other :: other in w.locals && other != who ==> QueueSound(started, other, w.locals[other], config)
    ensures Sound(WithLocal(started, who, local), config)
  {
    var t := WithLocal(started, who, local);
    forall other | other in t.locals
      ensures QueueSound(t, other, t.locals[other], config)
    {
      SameLogSameQueue(started, t, other, t.locals[other], config);
    }
  }

  // The rest of a queue, under any phase once counted, is sound where the queue was.
  lemma TailIsSound(w: World, who: Name, local: Local, phase: Phase, from: nat, config: Config)
    requires QueueSound(w, who, local, config) && from <= |local.queue|
    requires local.phase != Counting || local.queue == []
    ensures QueueSound(w, who, Local(phase, local.queue[from..]), config)
  {
    forall k | 0 <= k < |local.queue[from..]|
      ensures HeldSound(w, who, local.queue[from..][k], phase != Counting, config)
    {
      assert HeldSound(w, who, local.queue[from + k], local.phase != Counting, config);
    }
  }

  lemma StepIsSound(w: World, e: Event, config: Config)
    requires Consistent(w) && Enabled(w, e, config) && Sound(w, config)
    ensures Sound(Next(w, e, config), config)
  {
    match e
    case Add(fields) => AddIsSound(w, fields, config);
    case Read(who, ids) =>
      DeliveredIsSound(w, who, ids, Ready, 1, config);
      if ids != [] {
        SameLogIsSound(Delivered(w, who, ids, Ready, 1), Next(w, e, config), config);
      }
    case Claim(who, ids) => DeliveredIsSound(w, who, ids, if ids == [] then Ready else Counting, 0, config);
    case Count(who) =>
      CountedIsSound(w, who, config);
      LocalIsSound(w, who, Local(Ready, Counted(w, LocalOf(w, who).queue, config)), config);
    case Begin(who) => BeginIsSound(w, who, config);
    case Abandon(who) => LocalIsSound(w, who, IDLE, config);
    case _ => HandlingIsSound(w, e, config);
  }

  lemma AddIsSound(w: World, fields: Fields, config: Config)
    requires Consistent(w) && Sound(w, config)
    ensures Sound(Next(w, Add(fields), config), config)
  {
    var t := Next(w, Add(fields), config);
    assert forall id: Id :: id in t.log ==> id == w.nextId || HistorySound(w.log[id], config);
    forall who | who in t.locals
      ensures QueueSound(t, who, t.locals[who], config)
    {
      var local := w.locals[who];
      assert QueueSound(w, who, local, config);
      forall k | 0 <= k < |local.queue|
        ensures HeldSound(t, who, local.queue[k], local.phase != Counting, config)
      {
        assert HeldSound(w, who, local.queue[k], local.phase != Counting, config);
      }
    }
  }

  lemma BeginIsSound(w: World, who: Name, config: Config)
    requires Consistent(w) && Sound(w, config) && Enabled(w, Begin(who), config)
    ensures Sound(Next(w, Begin(who), config), config)
  {
    var local := LocalOf(w, who);
    var h := local.queue[0];
    assert QueueSound(w, who, local, config);
    if Triage(h.fields, h.deliveries, config).DeadLetter? {
      var t := Buried(w, h, Triage(h.fields, h.deliveries, config).reason);
      SameLogIsSound(w, t, config);
      TailIsSound(w, who, local, Ready, 1, config);
      SameLogSameQueue(w, t, who, Local(Ready, local.queue[1..]), config);
      LocalIsSound(t, who, Local(Ready, local.queue[1..]), config);
    } else {
      StartedIsSound(w, who, config);
    }
  }

  // A world whose log tells the same of every delivery.
  ghost predicate SameDeliveries(w: World, t: World) {
    && t.locals == w.locals && t.log.Keys == w.log.Keys
    && forall id: Id :: id in w.log ==> t.log[id] == w.log[id] || t.log[id] == w.log[id].(returned := true)
  }

  lemma SameDeliveriesSameQueue(w: World, t: World, who: Name, local: Local, config: Config)
    requires QueueSound(w, who, local, config) && SameDeliveries(w, t)
    ensures QueueSound(t, who, local, config)
  {
    forall k | 0 <= k < |local.queue|
      ensures HeldSound(t, who, local.queue[k], local.phase != Counting, config)
    {
      assert HeldSound(w, who, local.queue[k], local.phase != Counting, config);
    }
  }

  lemma SameDeliveriesIsSound(w: World, t: World, who: Name, phase: Phase, config: Config)
    requires Sound(w, config) && SameDeliveries(w, t) && LocalOf(w, who).phase != Counting
    ensures Sound(WithLocal(t, who, LocalOf(w, who).(phase := phase)), config)
  {
    var local := LocalOf(w, who);
    assert forall id: Id :: id in t.log ==> HistorySound(w.log[id], config);
    forall other | other in t.locals
      ensures QueueSound(t, other, t.locals[other], config)
    {
      SameDeliveriesSameQueue(w, t, other, w.locals[other], config);
    }
    assert QueueSound(w, who, local, config);
    SameDeliveriesSameQueue(w, t, who, local, config);
    TailIsSound(t, who, local, phase, 0, config);
    assert local.queue[0..] == local.queue;
    LocalIsSound(t, who, local.(phase := phase), config);
  }

  // A handler's outcome, its acknowledgement and a burial change no delivery.
  lemma HandlingIsSound(w: World, e: Event, config: Config)
    requires Consistent(w) && Sound(w, config) && Enabled(w, e, config)
    requires e.HandlerReturns? || e.HandlerFails? || e.HandlerRefuses? || e.Complete? || e.Bury?
    ensures Sound(Next(w, e, config), config)
  {
    var local := LocalOf(w, e.who);
    HeldIsLogged(w, e.who);
    match e
    case HandlerReturns(who) =>
      var h := local.phase.current;
      SameDeliveriesIsSound(w, w.(log := w.log[h.id := w.log[h.id].(returned := true)]), who, Finishing(h), config);
    case HandlerFails(who) => SameDeliveriesIsSound(w, w, who, Ready, config);
    case HandlerRefuses(who, why) => SameDeliveriesIsSound(w, w, who, Burying(local.phase.current, why), config);
    case Complete(who) => SameDeliveriesIsSound(w, Removed(w, local.phase.current.id), who, Ready, config);
    case Bury(who) =>
      SameDeliveriesIsSound(w, Buried(w, local.phase.current, Permanent(local.phase.why)), who, Ready, config);
  }

  // --- whole runs --------------------------------------------------------------------------

  // The events can happen one after another from here.
  ghost predicate CanRun(w: World, events: seq<Event>, config: Config)
    decreases |events|
  {
    events == [] || (Enabled(w, events[0], config) && CanRun(Next(w, events[0], config), events[1..], config))
  }

  ghost function After(w: World, events: seq<Event>, config: Config): World
    requires CanRun(w, events, config)
    decreases |events|
  {
    if events == [] then w else After(Next(w, events[0], config), events[1..], config)
  }

  ghost predicate Safe(w: World, config: Config) {
    Consistent(w) && FinishingReturned(w) && NothingLost(w) && Sound(w, config)
  }

  lemma StepIsSafe(w: World, e: Event, config: Config)
    requires Safe(w, config) && Enabled(w, e, config)
    ensures Safe(Next(w, e, config), config)
  {
    StepIsConsistent(w, e, config);
    StepKeepsFinishing(w, e, config);
    StepLosesNothing(w, e, config);
    StepIsSound(w, e, config);
  }

  lemma {:induction false} RunsAreSafe(w: World, events: seq<Event>, config: Config)
    requires Safe(w, config) && CanRun(w, events, config)
    ensures Safe(After(w, events, config), config)
    decreases |events|
  {
    if events != [] {
      StepIsSafe(w, events[0], config);
      RunsAreSafe(Next(w, events[0], config), events[1..], config);
    }
  }

  // Whatever happens, every entry ever added is in the stream, unread or pending, or its
  // handler returned normally, or it is in the dead stream with its own data.
  lemma NoJobIsLost(events: seq<Event>, config: Config, id: Id)
    requires CanRun(EMPTY, events, config)
    ensures var w := After(EMPTY, events, config);
            id in w.log ==>
              || (id in w.stream && w.stream[id] == w.log[id].fields && (id >= w.lastRead || id in w.pending))
              || w.log[id].returned
              || IsDead(w, id)
  {
    RunsAreSafe(EMPTY, events, config);
  }

  // The handler starts of one entry, counted over the events themselves.
  ghost predicate Starts(w: World, e: Event, config: Config, id: Id) {
    && e.Begin? && Enabled(w, e, config) && LocalOf(w, e.who).queue[0].id == id
    && LocalOf(Next(w, e, config), e.who).phase.Running?
  }

  ghost function StartCount(w: World, events: seq<Event>, config: Config, id: Id): nat
    requires CanRun(w, events, config)
    decreases |events|
  {
    if events == [] then 0
    else (if Starts(w, events[0], config, id) then 1 else 0) + StartCount(Next(w, events[0], config), events[1..], config, id)
  }

  lemma StepCountsRuns(w: World, e: Event, config: Config, id: Id)
    requires Consistent(w) && Enabled(w, e, config)
    ensures HistoryOf(Next(w, e, config), id).runs == HistoryOf(w, id).runs + (if Starts(w, e, config, id) then 1 else 0)
  {
    if e.Begin? {
      var h := LocalOf(w, e.who).queue[0];
      assert Triage(h.fields, h.deliveries, config).DeadLetter? || Triage(h.fields, h.deliveries, config).Run?;
    }
  }

  lemma {:induction false} RunsAreCounted(w: World, events: seq<Event>, config: Config, id: Id)
    requires Safe(w, config) && CanRun(w, events, config)
    ensures HistoryOf(After(w, events, config), id).runs == HistoryOf(w, id).runs + StartCount(w, events, config, id)
    decreases |events|
  {
    if events != [] {
      StepIsSafe(w, events[0], config);
      StepCountsRuns(w, events[0], config, id);
      RunsAreCounted(Next(w, events[0], config), events[1..], config, id);
    }
  }

  // Across all consumers, an entry's handler is started at most max_attempts times.
  lemma HandlerStartsAreBounded(events: seq<Event>, config: Config, id: Id)
    requires CanRun(EMPTY, events, config)
    ensures StartCount(EMPTY, events, config, id) <= config.maxAttempts
  {
    RunsAreSafe(EMPTY, events, config);
    RunsAreCounted(EMPTY, events, config, id);
    var h := HistoryOf(After(EMPTY, events, config), id);
    if id in After(EMPTY, events, config).log {
      assert HistorySound(h, config);
      BoundedSet(h.begun, config.maxAttempts);
    }
  }

  // A delivery past the limit is never run: the consumer that takes it up dead-letters it,
  // with its data, and takes it out of the stream.
  lemma PastTheLimitIsBuried(events: seq<Event>, config: Config, who: Name)
    requires CanRun(EMPTY, events, config)
    requires Enabled(After(EMPTY, events, config), Begin(who), config)
    requires LocalOf(After(EMPTY, events, config), who).queue[0].ticket > config.maxAttempts
    ensures var w := After(EMPTY, events, config);
            var h := LocalOf(w, who).queue[0];
            var t := Next(w, Begin(who), config);
            && h.id !in t.stream && h.id !in t.pending && IsDead(t, h.id)
            && |t.dead| == |w.dead| + 1
            && t.dead[|w.dead|].reason == if Decoded(h.fields, config).None? then MalformedEnvelope else MaxAttempts
  {
    var w := After(EMPTY, events, config);
    RunsAreSafe(EMPTY, events, config);
    var local := LocalOf(w, who);
    var h := local.queue[0];
    assert QueueSound(w, who, local, config) && HeldSound(w, who, h, true, config);
    assert HoldsLogged(w, local);
    var t := Next(w, Begin(who), config);
    assert t.dead[|w.dead|].source == h.id;
  }

  // --- when the count given to triage is the true one -----------------------------------------

  // A reclaimed job is dead-lettered for its attempts exactly when it has really been
  // delivered too often, or is missing from the page of counts.
  lemma AttemptsAreJudgedByThePage(w: World, who: Name, config: Config, k: nat)
    requires Consistent(w) && Enabled(w, Count(who), config) && k < |LocalOf(w, who).queue|
    requires Decoded(LocalOf(w, who).queue[k].fields, config).Some?
    ensures var queue := LocalOf(w, who).queue;
            var counted := LocalOf(Next(w, Count(who), config), who).queue[k];
            Triage(counted.fields, counted.deliveries, config) == DeadLetter(MaxAttempts)
            <==> !OnPage(w.pending, queue, queue[k].id) || HistoryOf(w, queue[k].id).delivered > config.maxAttempts
  {
  }

  ghost predicate QueueAscends(queue: seq<Held>) {
    forall i, j :: 0 <= i < j < |queue| ==> queue[i].id < queue[j].id
  }

  ghost function IdsOf(queue: seq<Held>): set<Id> {
    set k | 0 <= k < |queue| :: queue[k].id
  }

  lemma {:induction false} DistinctIds(queue: seq<Held>)
    requires QueueAscends(queue)
    ensures |IdsOf(queue)| == |queue|
  {
    if queue != [] {
      var rest := queue[..|queue| - 1];
      DistinctIds(rest);
      assert IdsOf(queue) == IdsOf(rest) + {queue[|queue| - 1].id};
    }
  }

  lemma RankGrows(pending: map<Id, nat>, low: Id, a: Id, b: Id)
    requires a <= b
    ensures Rank(pending, low, a) <= Rank(pending, low, b)
  {
    SubsetSize(set x: Id | x in pending && low <= x < a, set x: Id | x in pending && low <= x < b);
  }

  // The pending entries of the range a claim spans, which is what is asked for.
  ghost function InRange(pending: map<Id, nat>, queue: seq<Held>): set<Id>
    requires queue != []
  {
    set x: Id | x in pending && queue[0].id <= x <= queue[|queue| - 1].id
  }

  ghost predicate AllPending(pending: map<Id, nat>, queue: seq<Held>) {
    forall k :: 0 <= k < |queue| ==> queue[k].id in pending
  }

  ghost predicate AllOnPage(pending: map<Id, nat>, queue: seq<Held>) {
    forall k :: 0 <= k < |queue| ==> OnPage(pending, queue, queue[k].id)
  }

  // How far down the page the last claimed entry comes.
  lemma LastRank(pending: map<Id, nat>, queue: seq<Held>)
    requires queue != [] && QueueAscends(queue) && AllPending(pending, queue)
    ensures Rank(pending, queue[0].id, queue[|queue| - 1].id) + 1 == |InRange(pending, queue)|
    ensures IdsOf(queue) <= InRange(pending, queue) && |IdsOf(queue)| == |queue|
  {
    var low, high := queue[0].id, queue[|queue| - 1].id;
    var before := set x: Id | x in pending && low <= x < high;
    assert InRange(pending, queue) == before + {high};
    assert |before| == Rank(pending, low, high);
    DistinctIds(queue);
  }

  // The page holds every claimed entry exactly when all of them are still pending and no
  // other entry is pending in the range they span.
  lemma PageCoversExactly(pending: map<Id, nat>, queue: seq<Held>)
    requires queue != [] && QueueAscends(queue)
    ensures AllOnPage(pending, queue) <==> AllPending(pending, queue) && InRange(pending, queue) == IdsOf(queue)
  {
    if AllPending(pending, queue) {
      LastRank(pending, queue);
      SubsetSize(IdsOf(queue), InRange(pending, queue));
      if InRange(pending, queue) == IdsOf(queue) {
        forall k | 0 <= k < |queue|
          ensures OnPage(pending, queue, queue[k].id)
        {
          RankGrows(pending, queue[0].id, queue[k].id, queue[|queue| - 1].id);
        }
      } else {
        assert !OnPage(pending, queue, queue[|queue| - 1].id);
      }
    } else {
      var k :| 0 <= k < |queue| && queue[k].id !in pending;
      assert !OnPage(pending, queue, queue[k].id);
    }
  }

  // No count in this run misses a claimed entry.
  ghost predicate PagesCover(w: World, events: seq<Event>, config: Config)
    requires CanRun(w, events, config)
    decreases |events|
  {
    events == []
    || (&& (events[0].Count? ==> AllOnPage(w.pending, LocalOf(w, events[0].who).queue))
        && PagesCover(Next(w, events[0], config), events[1..], config))
  }

  // Counts in hand are no more than the deliveries made, and whatever is dead for its
  // attempts was delivered more often than the limit.
  ghost predicate Honest(w: World, config: Config) {
    && (forall k :: 0 <= k < |w.dead| && w.dead[k].reason == MaxAttempts ==>
          HistoryOf(w, w.dead[k].source).delivered > config.maxAttempts)
    && (forall who :: who in w.locals ==> QueueHonest(w, w.locals[who]))
  }

  ghost predicate QueueHonest(w: World, local: Local) {
    forall k :: 0 <= k < |local.queue| ==> local.queue[k].deliveries <= HistoryOf(w, local.queue[k].id).delivered
  }

  lemma DeliveriesGrow(w: World, e: Event, config: Config, id: Id)
    requires Consistent(w) && Enabled(w, e, config)
    ensures HistoryOf(w, id).delivered <= HistoryOf(Next(w, e, config), id).delivered
  {
    if e.Begin? {
      var h := LocalOf(w, e.who).queue[0];
      assert Triage(h.fields, h.deliveries, config).DeadLetter? || Triage(h.fields, h.deliveries, config).Run?;
    }
  }

  lemma DeliveredIsHonest(w: World, who: Name, ids: seq<Id>, phase: Phase, count: nat)
    requires Consistent(w) && count <= 1 && forall id: Id :: id in ids ==> id in w.stream
    ensures QueueHonest(Delivered(w, who, ids, phase, count), LocalOf(Delivered(w, who, ids, phase, count), who))
  {
    forall k | 0 <= k < |ids|
      ensures HistoryOf(Delivered(w, who, ids, phase, count), ids[k]).delivered >= 1
    {
      assert ids[k] in ids && ids[k] in w.stream;
    }
  }

  lemma CountIsHonest(w: World, who: Name, config: Config)
    requires Consistent(w) && AllOnPage(w.pending, LocalOf(w, who).queue)
    ensures QueueHonest(w, Local(Ready, Counted(w, LocalOf(w, who).queue, config)))
  {
  }

  // Any other command leaves a consumer with its queue, or with the rest of it.
  lemma OtherQueues(w: World, e: Event, config: Config, who: Name)
    requires Enabled(w, e, config) && ((e.Read? || e.Claim? || e.Count?) ==> e.who != who)
    ensures var was, now := LocalOf(w, who).queue, LocalOf(Next(w, e, config), who).queue;
            now == was || (was != [] && now == was[1..]) || now == []
  {
  }

  lemma StepKeepsQueuesHonest(w: World, e: Event, config: Config, who: Name)
    requires Consistent(w) && Enabled(w, e, config) && Honest(w, config)
    requires e.Count? ==> AllOnPage(w.pending, LocalOf(w, e.who).queue)
    ensures QueueHonest(Next(w, e, config), LocalOf(Next(w, e, config), who))
  {
    if e.Read? && e.who == who {
      DeliveredIsHonest(w, who, e.ids, Ready, 1);
    } else if e.Claim? && e.who == who {
      DeliveredIsHonest(w, who, e.ids, if e.ids == [] then Ready else Counting, 0);
    } else if e.Count? && e.who == who {
      CountIsHonest(w, who, config);
    } else {
      OtherQueues(w, e, config, who);
      assert QueueHonest(w, LocalOf(w, who));
      var now := LocalOf(Next(w, e, config), who).queue;
      forall k | 0 <= k < |now|
        ensures now[k].deliveries <= HistoryOf(Next(w, e, config), now[k].id).delivered
      {
        DeliveriesGrow(w, e, config, now[k].id);
      }
    }
  }

  lemma StepBuriesHonestly(w: World, e: Event, config: Config, k: nat)
    requires Consistent(w) && Enabled(w, e, config) && Honest(w, config)
    requires k < |Next(w, e, config).dead| && Next(w, e, config).dead[k].reason == MaxAttempts
    ensures HistoryOf(Next(w, e, config), Next(w, e, config).dead[k].source).delivered > config.maxAttempts
  {
    var t := Next(w, e, config);
    DeliveriesGrow(w, e, config, t.dead[k].source);
    HistoryGrows(w, e, config);
    if k < |w.dead| {
      assert t.dead[k] == w.dead[k];
    } else {
      assert e.Begin?;
      assert QueueHonest(w, LocalOf(w, e.who));
      assert t.dead[k].source == LocalOf(w, e.who).queue[0].id;
    }
  }

  lemma StepIsHonest(w: World, e: Event, config: Config)
    requires Consistent(w) && Enabled(w, e, config) && Honest(w, config)
    requires e.Count? ==> AllOnPage(w.pending, LocalOf(w, e.who).queue)
    ensures Honest(Next(w, e, config), config)
  {
    var t := Next(w, e, config);
    forall k | 0 <= k < |t.dead| && t.dead[k].reason == MaxAttempts
      ensures HistoryOf(t, t.dead[k].source).delivered > config.maxAttempts
    {
      StepBuriesHonestly(w, e, config, k);
    }
    forall who | who in t.locals
      ensures QueueHonest(t, t.locals[who])
    {
      StepKeepsQueuesHonest(w, e, config, who);
      assert LocalOf(t, who) == t.locals[who];
    }
  }

  // In a run whose pages cover what was claimed, dead-lettered for its attempts means
  // delivered more than max_attempts times.
  lemma {:induction false} CoveredRunsAreHonest(w: World, events: seq<Event>, config: Config)
    requires Safe(w, config) && Honest(w, config) && CanRun(w, events, config) && PagesCover(w, events, config)
    ensures Honest(After(w, events, config), config)
    decreases |events|
  {
    if events != [] {
      var t := Next(w, events[0], config);
      StepIsSafe(w, events[0], config);
      StepIsHonest(w, events[0], config);
      CoveredRunsAreHonest(t, events[1..], config);
    }
  }

  // Two ways a count goes missing. Any other entry pending in the range takes the last claimed
  // one's place on the page; and an entry acknowledged since it was claimed has none at all.
  lemma PageCanMissTheLast(pending: map<Id, nat>, queue: seq<Held>, other: Id)
    requires queue != [] && QueueAscends(queue) && AllPending(pending, queue)
    requires other in pending && queue[0].id <= other <= queue[|queue| - 1].id && other !in IdsOf(queue)
    ensures !OnPage(pending, queue, queue[|queue| - 1].id)
  {
    LastRank(pending, queue);
    SubsetSize(IdsOf(queue) + {other}, InRange(pending, queue));
  }

  // --- when a job is run ----------------------------------------------------------------------

  // The next entry in hand is run exactly when it is a job, has deliveries left, and has a
  // handler; otherwise it is buried, for the first of these that fails.
  lemma BeginRunsExactly(w: World, who: Name, config: Config)
    requires Consistent(w) && Enabled(w, Begin(who), config)
    ensures var h, t := LocalOf(w, who).queue[0], Next(w, Begin(who), config);
            var job := Decoded(h.fields, config);
            && (LocalOf(t, who).phase == Running(h)
                <==> job.Some? && h.deliveries <= config.maxAttempts && job.value.jobType in config.handlers)
            && (BuriesFor(w, t, h, MalformedEnvelope) <==> job.None?)
            && (BuriesFor(w, t, h, MaxAttempts) <==> job.Some? && h.deliveries > config.maxAttempts)
            && (BuriesFor(w, t, h, UnknownType)
                <==> job.Some? && h.deliveries <= config.maxAttempts && job.value.jobType !in config.handlers)
  {
  }

  // An entry is a job when it has a data field and that field decodes.
  lemma JobsDecode(fields: Fields, config: Config)
    ensures Decoded(fields, config).Some? <==> fields.data.Some? && config.decode(fields.data.value).Some?
    ensures Decoded(fields, config).Some? ==> Decoded(fields, config) == config.decode(fields.data.value)
  {
  }

  ghost predicate BuriesFor(w: World, t: World, h: Held, reason: Reason) {
    |t.dead| == |w.dead| + 1 && w.dead <= t.dead
    && t.dead[|w.dead|] == Dead(h.id, h.fields.data.GetOr(""), reason, h.deliveries) && h.id !in t.stream
  }

  // So in a run whose pages cover what was claimed, a job of a handled type is started
  // whenever it is taken up on one of its first max_attempts deliveries.
  lemma CoveredJobIsStarted(events: seq<Event>, config: Config, who: Name)
    requires CanRun(EMPTY, events, config) && PagesCover(EMPTY, events, config)
    requires Enabled(After(EMPTY, events, config), Begin(who), config)
    requires var w := After(EMPTY, events, config);
             var h := LocalOf(w, who).queue[0];
             && Decoded(h.fields, config).Some? && Decoded(h.fields, config).value.jobType in config.handlers
             && HistoryOf(w, h.id).delivered <= config.maxAttempts
    ensures var w := After(EMPTY, events, config);
            LocalOf(Next(w, Begin(who), config), who).phase == Running(LocalOf(w, who).queue[0])
  {
    var w := After(EMPTY, events, config);
    RunsAreSafe(EMPTY, events, config);
    CoveredRunsAreHonest(EMPTY, events, config);
    assert QueueHonest(w, LocalOf(w, who));
    BeginRunsExactly(w, who, config);
  }

  // A handler's failure leaves its entry pending, to be reclaimed: nothing changes but the
  // consumer's own phase.
  lemma FailureLeavesPending(w: World, who: Name, config: Config)
    requires Consistent(w) && Enabled(w, HandlerFails(who), config)
    ensures var t := Next(w, HandlerFails(who), config);
            && t.stream == w.stream && t.pending == w.pending && t.dead == w.dead && t.log == w.log
            && LocalOf(t, who) == Local(Ready, LocalOf(w, who).queue)
  {
  }

  // A handler's refusal buries its entry with the reason it gave; a return takes the entry out
  // of the stream and the pending list, and buries nothing.
  lemma EndingsAre(w: World, who: Name, config: Config)
    requires Consistent(w)
    ensures Enabled(w, Bury(who), config) ==>
              var h, t := LocalOf(w, who).phase.current, Next(w, Bury(who), config);
              && BuriesFor(w, t, h, Permanent(LocalOf(w, who).phase.why)) && h.id !in t.pending
              && LocalOf(t, who) == Local(Ready, LocalOf(w, who).queue)
    ensures Enabled(w, Complete(who), config) ==>
              var h, t := LocalOf(w, who).phase.current, Next(w, Complete(who), config);
              && t.stream == w.stream - {h.id} && t.pending == w.pending - {h.id} && t.dead == w.dead
              && LocalOf(t, who) == Local(Ready, LocalOf(w, who).queue)
  {
  }

  // --- what the dead letters say ---------------------------------------------------------------

  ghost predicate IsJob(fields: Fields, config: Config) {
    fields.data.Some? && config.decode(fields.data.value).Some?
  }

  // Of a job only: it has a handler.
  ghost predicate IsHandled(fields: Fields, config: Config)
    requires IsJob(fields, config)
  {
    config.decode(fields.data.value).value.jobType in config.handlers
  }

  // A handler only ever has a job of a type it handles.
  ghost predicate HandlesJobs(w: World, config: Config) {
    forall who :: who in w.locals && HasCurrent(w.locals[who].phase) ==>
      IsJob(w.locals[who].phase.current.fields, config) && IsHandled(w.locals[who].phase.current.fields, config)
  }

  // A dead letter carries its entry's data, and gives the first reason there is: the entry is no
  // job, its count is past the limit, its type has no handler, or else its handler refused it.
  ghost predicate Tells(w: World, d: Dead, config: Config) {
    && d.source in w.log && d.data == w.log[d.source].fields.data.GetOr("")
    && var fields := w.log[d.source].fields;
       match d.reason
       case MalformedEnvelope => !IsJob(fields, config)
       case MaxAttempts => IsJob(fields, config) && d.deliveries > config.maxAttempts
       case UnknownType => IsJob(fields, config) && d.deliveries <= config.maxAttempts && !IsHandled(fields, config)
       case Permanent(_) => IsJob(fields, config) && IsHandled(fields, config)
  }

  ghost predicate DeadTell(w: World, config: Config) {
    forall k :: 0 <= k < |w.dead| ==> Tells(w, w.dead[k], config)
  }

  lemma StepHandlesJobs(w: World, e: Event, config: Config)
    requires Consistent(w) && Enabled(w, e, config) && HandlesJobs(w, config)
    ensures HandlesJobs(Next(w, e, config), config)
  {
    var t := Next(w, e, config);
    forall who | who in t.locals && HasCurrent(t.locals[who].phase)
      ensures IsJob(t.locals[who].phase.current.fields, config) && IsHandled(t.locals[who].phase.current.fields, config)
    {
      if e.Begin? && e.who == who {
        BeginRunsExactly(w, who, config);
        assert LocalOf(t, who) == t.locals[who];
      } else if !e.Add? && e.who == who {
        assert who in w.locals && w.locals[who].phase.current == t.locals[who].phase.current;
      } else {
        assert w.locals[who] == t.locals[who];
      }
    }
  }

  lemma StepTellsDead(w: World, e: Event, config: Config)
    requires Consistent(w) && Enabled(w, e, config) && HandlesJobs(w, config) && DeadTell(w, config)
    ensures DeadTell(Next(w, e, config), config)
  {
    var t := Next(w, e, config);
    HistoryGrows(w, e, config);
    forall k | 0 <= k < |t.dead|
      ensures Tells(t, t.dead[k], config)
    {
      if k < |w.dead| {
        assert t.dead[k] == w.dead[k] && Tells(w, w.dead[k], config);
      } else {
        HeldIsLogged(w, e.who);
      }
    }
  }

  lemma {:induction false} RunsTell(w: World, events: seq<Event>, config: Config)
    requires Safe(w, config) && HandlesJobs(w, config) && DeadTell(w, config) && CanRun(w, events, config)
    ensures DeadTell(After(w, events, config), config) && HandlesJobs(After(w, events, config), config)
    decreases |events|
  {
    if events != [] {
      StepIsSafe(w, events[0], config);
      StepHandlesJobs(w, events[0], config);
      StepTellsDead(w, events[0], config);
      RunsTell(Next(w, events[0], config), events[1..], config);
    }
  }

  // In every run each dead letter says so much.
  lemma DeadLettersTell(events: seq<Event>, config: Config)
    requires CanRun(EMPTY, events, config)
    ensures DeadTell(After(EMPTY, events, config), config)
  {
    RunsTell(EMPTY, events, config);
  }
}
