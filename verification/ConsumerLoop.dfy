// The consumer's own loops, command by command, with anything the other consumers and the
// producers do in between: whatever they do is a run of the protocol.
module ConsumerLoop {
  import opened Options
  import opened Consumer
  import opened ConsumerRuns

  // How a handler ends: normally, with an error worth retrying, or with a refusal.
  datatype Outcome = Returns | Fails | Refuses(why: string)

  // What the loops do not decide: what others do before this consumer's next command, what
  // Redis replies, how the handler ends on a delivery, and when a stop or a reclaim is due.
  // Each is asked by the number of commands sent so far.
  datatype Chance = Chance(
    meanwhile: nat -> seq<Event>,
    reply: nat -> seq<Id>,
    outcome: Held -> Outcome,
    stop: nat -> bool,
    due: nat -> bool)

  // --- what later commands leave alone ---------------------------------------------------

  ghost predicate Keeps(w: World, t: World) {
    && w.dead <= t.dead
    && forall id: Id :: id in w.log ==>
         && id in t.log && w.log[id].begun <= t.log[id].begun && (w.log[id].returned ==> t.log[id].returned)
         && (id !in w.stream ==> id !in t.stream)
  }

  lemma StepKeeps(w: World, e: Event, config: Config)
    requires Consistent(w) && Enabled(w, e, config)
    ensures Keeps(w, Next(w, e, config))
  {
    HistoryGrows(w, e, config);
    if e.Begin? {
      var h := LocalOf(w, e.who).queue[0];
      assert Triage(h.fields, h.deliveries, config).DeadLetter? || Triage(h.fields, h.deliveries, config).Run?;
    }
  }

  lemma KeepsOn(w: World, t: World, v: World)
    requires Keeps(w, t) && Keeps(t, v)
    ensures Keeps(w, v)
  {
  }

  // The entry is in the dead stream for this reason, and out of the stream.
  ghost predicate IsBuriedFor(w: World, h: Held, reason: Reason) {
    h.id in w.log && h.id !in w.stream && Dead(h.id, h.fields.data.GetOr(""), reason, h.deliveries) in w.dead
  }

  // What processing a delivery comes to.
  ghost predicate Handled(w: World, h: Held, outcome: Outcome, config: Config) {
    match Triage(h.fields, h.deliveries, config)
    case DeadLetter(reason) => IsBuriedFor(w, h, reason)
    case Run(_) =>
      && WasBegun(w, h)
      && match outcome
         case Returns => h.id in w.log && w.log[h.id].returned && h.id !in w.stream
         case Refuses(why) => IsBuriedFor(w, h, Permanent(why))
         case Fails => true
  }

  lemma HandledStays(w: World, t: World, h: Held, outcome: Outcome, config: Config)
    requires Handled(w, h, outcome, config) && Keeps(w, t)
    ensures Handled(t, h, outcome, config)
  {
    assert forall d :: d in w.dead ==> d in t.dead;
  }

  ghost predicate AllHandled(w: World, handled: seq<Held>, chance: Chance, config: Config) {
    forall k :: 0 <= k < |handled| ==> Handled(w, handled[k], chance.outcome(handled[k]), config)
  }

  lemma AllHandledStays(w: World, t: World, handled: seq<Held>, chance: Chance, config: Config)
    requires AllHandled(w, handled, chance, config) && Keeps(w, t)
    ensures AllHandled(t, handled, chance, config)
  {
    forall k | 0 <= k < |handled|
      ensures Handled(t, handled[k], chance.outcome(handled[k]), config)
    {
      HandledStays(w, t, handled[k], chance.outcome(handled[k]), config);
    }
  }

  ghost predicate WasBegun(w: World, h: Held) {
    h.id in w.log && h.ticket in w.log[h.id].begun
  }

  // Triage either dead-letters the next entry in hand or starts its handler.
  lemma BeginHandles(w: World, who: Name, config: Config)
    requires Consistent(w) && Enabled(w, Begin(who), config)
    ensures var h, t := LocalOf(w, who).queue[0], Next(w, Begin(who), config);
            match Triage(h.fields, h.deliveries, config)
            case DeadLetter(reason) => LocalOf(t, who) == Local(Ready, LocalOf(w, who).queue[1..]) && IsBuriedFor(t, h, reason)
            case Run(_) => LocalOf(t, who) == Local(Running(h), LocalOf(w, who).queue[1..]) && WasBegun(t, h)
  {
    HeldIsLogged(w, who);
  }

  lemma CompleteHandles(w: World, who: Name, config: Config)
    requires Consistent(w) && FinishingReturned(w) && Enabled(w, Complete(who), config)
    ensures var h, t := LocalOf(w, who).phase.current, Next(w, Complete(who), config);
            h.id in t.log && t.log[h.id].returned && h.id !in t.stream
  {
    HeldIsLogged(w, who);
  }

  lemma BuryHandles(w: World, who: Name, config: Config)
    requires Consistent(w) && Enabled(w, Bury(who), config)
    ensures IsBuriedFor(Next(w, Bury(who), config), LocalOf(w, who).phase.current, Permanent(LocalOf(w, who).phase.why))
  {
    HeldIsLogged(w, who);
    var h := LocalOf(w, who).phase.current;
    var t := Next(w, Bury(who), config);
    assert t.dead[|w.dead|] == Dead(h.id, h.fields.data.GetOr(""), Permanent(LocalOf(w, who).phase.why), h.deliveries);
  }

  // What is read new is on its first delivery.
  lemma FirstDeliveries(w: World, who: Name, ids: seq<Id>, config: Config)
    requires Consistent(w) && Enabled(w, Read(who, ids), config)
    ensures var queue := LocalOf(Next(w, Read(who, ids), config), who).queue;
            |queue| == |ids| && forall k :: 0 <= k < |queue| ==> queue[k].id == ids[k] && queue[k].ticket == queue[k].deliveries == 1
  {
    var queue := LocalOf(Next(w, Read(who, ids), config), who).queue;
    forall k | 0 <= k < |queue|
      ensures queue[k].ticket == 1
    {
      assert ids[k] in ids;
    }
  }

  // --- runs grow by one event --------------------------------------------------------------

  lemma {:induction false} RunGoesOn(w: World, events: seq<Event>, e: Event, config: Config)
    requires CanRun(w, events, config) && Enabled(After(w, events, config), e, config)
    ensures CanRun(w, events + [e], config)
    ensures After(w, events + [e], config) == Next(After(w, events, config), e, config)
    decreases |events|
  {
    if events == [] {
      assert events + [e] == [e] && [e][1..] == [];
    } else {
      RunGoesOn(Next(w, events[0], config), events[1..], e, config);
      assert (events + [e])[1..] == events[1..] + [e];
    }
  }

  // Redis's reply to a read and to a claim: any it may give, and nothing otherwise.
  function ReadReply(w: World, reply: seq<Id>, config: Config): seq<Id> {
    if IsNextBatch(w, reply, config) then reply else []
  }

  function ClaimReply(w: World, reply: seq<Id>, config: Config): seq<Id> {
    if IsClaimable(w, reply, config) then reply else []
  }

  predicate IsBy(e: Event, who: Name) {
    !e.Add? && e.who == who
  }

  lemma OthersLeaveLocal(w: World, e: Event, who: Name, config: Config)
    requires Enabled(w, e, config) && !IsBy(e, who)
    ensures LocalOf(Next(w, e, config), who) == LocalOf(w, who)
  {
  }

  // --- what one consumer sends ---------------------------------------------------------------

  // Its own events, in order.
  ghost function Mine(events: seq<Event>, who: Name): seq<Event> {
    if events == [] then []
    else Mine(events[..|events| - 1], who) + (if IsBy(events[|events| - 1], who) then [events[|events| - 1]] else [])
  }

  lemma MineOfOneMore(events: seq<Event>, e: Event, who: Name)
    ensures Mine(events + [e], who) == Mine(events, who) + (if IsBy(e, who) then [e] else [])
  {
    assert (events + [e])[..|events|] == events;
  }

  // What is sent for the way a handler ends.
  function Ending(outcome: Outcome, who: Name): seq<Event> {
    match outcome
    case Returns => [HandlerReturns(who), Complete(who)]
    case Fails => [HandlerFails(who)]
    case Refuses(why) => [HandlerRefuses(who, why), Bury(who)]
  }

  // What is sent for one entry: its triage, and its handler's ending if it is run.
  function Commands(h: Held, outcome: Outcome, who: Name, config: Config): seq<Event> {
    [Begin(who)] + (if Triage(h.fields, h.deliveries, config).Run? then Ending(outcome, who) else [])
  }

  function AllCommands(queue: seq<Held>, chance: Chance, who: Name, config: Config): seq<Event> {
    if queue == [] then []
    else
      var n := |queue| - 1;
      AllCommands(queue[..n], chance, who, config) + Commands(queue[n], chance.outcome(queue[n]), who, config)
  }

  lemma AllCommandsOfOneMore(queue: seq<Held>, n: nat, chance: Chance, who: Name, config: Config)
    requires n < |queue|
    ensures AllCommands(queue[..n + 1], chance, who, config)
            == AllCommands(queue[..n], chance, who, config) + Commands(queue[n], chance.outcome(queue[n]), who, config)
  {
    assert queue[..n + 1][..n] == queue[..n];
  }

  // A page of a reclaim: the claim, the counts if anything was claimed, and each entry.
  function PageCommands(ids: seq<Id>, claimed: seq<Held>, chance: Chance, who: Name, config: Config): seq<Event> {
    [Claim(who, ids)] + (if ids == [] then [] else [Count(who)]) + AllCommands(claimed, chance, who, config)
  }

  function ReadsIn(events: seq<Event>): nat {
    if events == [] then 0 else ReadsIn(events[..|events| - 1]) + (if events[|events| - 1].Read? then 1 else 0)
  }

  function ClaimsIn(events: seq<Event>): nat {
    if events == [] then 0 else ClaimsIn(events[..|events| - 1]) + (if events[|events| - 1].Claim? then 1 else 0)
  }

  lemma {:induction false} CountsAdd(a: seq<Event>, b: seq<Event>)
    ensures ReadsIn(a + b) == ReadsIn(a) + ReadsIn(b) && ClaimsIn(a + b) == ClaimsIn(a) + ClaimsIn(b)
  {
    if b == [] {
      assert a + b == a;
    } else {
      assert (a + b)[..|a + b| - 1] == a + b[..|b| - 1];
      CountsAdd(a, b[..|b| - 1]);
    }
  }

  lemma EndingAsksNothing(outcome: Outcome, who: Name)
    ensures ReadsIn(Ending(outcome, who)) == 0 && ClaimsIn(Ending(outcome, who)) == 0
  {
    match outcome
    case Fails => assert [HandlerFails(who)][..0] == [];
    case Returns => OfTwo(HandlerReturns(who), Complete(who));
    case Refuses(why) => OfTwo(HandlerRefuses(who, why), Bury(who));
  }

  lemma OfTwo(a: Event, b: Event)
    requires !a.Read? && !a.Claim? && !b.Read? && !b.Claim?
    ensures ReadsIn([a, b]) == 0 && ClaimsIn([a, b]) == 0
  {
    assert [a, b] == [a] + [b] && [a][..0] == [] && [b][..0] == [];
    CountsAdd([a], [b]);
  }

  lemma {:induction false} CommandsAskNothing(queue: seq<Held>, chance: Chance, who: Name, config: Config)
    ensures ReadsIn(AllCommands(queue, chance, who, config)) == 0 && ClaimsIn(AllCommands(queue, chance, who, config)) == 0
  {
    if queue != [] {
      var n := |queue| - 1;
      var h := queue[n];
      CommandsAskNothing(queue[..n], chance, who, config);
      EndingAsksNothing(chance.outcome(h), who);
      var ending := if Triage(h.fields, h.deliveries, config).Run? then Ending(chance.outcome(h), who) else [];
      CountsAdd([Begin(who)], ending);
      CountsAdd(AllCommands(queue[..n], chance, who, config), Commands(h, chance.outcome(h), who, config));
      assert [Begin(who)][..0] == [];
    }
  }

  lemma PageCounts(before: seq<Event>, ids: seq<Id>, claimed: seq<Held>, chance: Chance, who: Name, config: Config)
    ensures var after := before + PageCommands(ids, claimed, chance, who, config);
            ReadsIn(after) == ReadsIn(before) && ClaimsIn(after) == ClaimsIn(before) + 1
  {
    var count := if ids == [] then [] else [Count(who)];
    CommandsAskNothing(claimed, chance, who, config);
    CountsAdd([Claim(who, ids)], count);
    CountsAdd([Claim(who, ids)] + count, AllCommands(claimed, chance, who, config));
    CountsAdd(before, PageCommands(ids, claimed, chance, who, config));
    assert [Claim(who, ids)][..0] == [] && [Count(who)][..0] == [];
  }

  // What a read sends: itself, and the commands for the entries it gets to.
  function ReadCommands(ids: seq<Id>, read: seq<Held>, done: nat, chance: Chance, who: Name, config: Config): seq<Event>
    requires done <= |read|
  {
    [Read(who, ids)] + AllCommands(read[..done], chance, who, config) + (if done < |read| then [Abandon(who)] else [])
  }

  lemma ReadCounts(before: seq<Event>, ids: seq<Id>, read: seq<Held>, done: nat, chance: Chance, who: Name, config: Config)
    requires done <= |read|
    ensures var after := before + ReadCommands(ids, read, done, chance, who, config);
            ReadsIn(after) == ReadsIn(before) + 1 && ClaimsIn(after) == ClaimsIn(before)
  {
    var rest := if done < |read| then [Abandon(who)] else [];
    CommandsAskNothing(read[..done], chance, who, config);
    CountsAdd([Read(who, ids)], AllCommands(read[..done], chance, who, config));
    CountsAdd([Read(who, ids)] + AllCommands(read[..done], chance, who, config), rest);
    CountsAdd(before, ReadCommands(ids, read, done, chance, who, config));
    assert [Read(who, ids)][..0] == [] && [Abandon(who)][..0] == [];
  }

  lemma AddTwo(a: seq<Event>, b: Event, c: Event)
    ensures a + [b] + [c] == a + [b, c]
  {
  }

  lemma AddThree(a: seq<Event>, b: seq<Event>, c: seq<Event>, d: seq<Event>)
    ensures a + b + c + d == a + (b + c + d)
  {
  }

  lemma AddMore(a: seq<Event>, b: seq<Event>, c: seq<Event>)
    ensures a + b + c == a + (b + c) && a + b + [] == a + b && b + [] == b
  {
  }

  class StreamConsumer {
    const who: Name
    const config: Config
    const chance: Chance
    var world: World
    var sent: nat
    ghost var events: seq<Event>
    ghost var mine: seq<Event> // those of them that are this consumer's own

    // Where things stand is where a run of the protocol from nothing leads.
    ghost predicate Valid()
      reads this
    {
      CanRun(EMPTY, events, config) && After(EMPTY, events, config) == world && mine == Mine(events, who)
    }

    constructor (who: Name, config: Config, chance: Chance)
      ensures Valid() && world == EMPTY && events == [] && mine == []
      ensures this.who == who && this.config == config && this.chance == chance
    {
      this.who, this.config, this.chance := who, config, chance;
      world, sent, events, mine := EMPTY, 0, [], [];
    }

    // A stop was set at some moment between these two.
    ghost predicate StopCame(from: nat, to: nat) {
      exists n: nat :: from <= n <= to && chance.stop(n)
    }

    ghost predicate NeverStops() {
      forall n: nat :: !chance.stop(n)
    }

    ghost predicate AlwaysStopped() {
      forall n: nat :: chance.stop(n)
    }

    // One command takes effect.
    method Happens(e: Event)
      requires Valid() && Enabled(world, e, config)
      modifies this`world, this`events, this`mine
      ensures Valid() && events == old(events) + [e]
      ensures mine == if IsBy(e, who) then old(mine) + [e] else old(mine)
      ensures world == Next(old(world), e, config) && Keeps(old(world), world)
    {
      RunsAreSafe(EMPTY, events, config);
      RunGoesOn(EMPTY, events, e, config);
      MineOfOneMore(events, e, who);
      StepKeeps(world, e, config);
      world := Next(world, e, config);
      events, mine := events + [e], if IsBy(e, who) then mine + [e] else mine;
    }

    // Whatever the others can do, in any order, before this consumer's next command.
    method Meanwhile()
      requires Valid()
      modifies this
      ensures Valid() && old(events) <= events && Keeps(old(world), world)
      ensures LocalOf(world, who) == old(LocalOf(world, who)) && sent == old(sent) + 1 && mine == old(mine)
    {
      var script := chance.meanwhile(sent);
      sent := sent + 1;
      for i := 0 to |script|
        invariant Valid() && old(events) <= events && Keeps(old(world), world)
        invariant LocalOf(world, who) == old(LocalOf(world, who)) && sent == old(sent) + 1 && mine == old(mine)
      {
        if !IsBy(script[i], who) && Enabled(world, script[i], config) {
          OthersLeaveLocal(world, script[i], who, config);
          ghost var before := world;
          Happens(script[i]);
          KeepsOn(old(world), before, world);
        }
      }
    }

    // This consumer's next command, after whatever the others do first.
    method Send(e: Event) returns (ghost before: World)
      requires Valid() && IsBy(e, who)
      requires e.Count? || e.Begin? || e.HandlerReturns? || e.HandlerFails? || e.HandlerRefuses?
               || e.Complete? || e.Bury? || e.Abandon?
      requires Enabled(world, e, config)
      modifies this
      ensures Valid() && old(events) <= events && Keeps(old(world), world)
      ensures Safe(before, config) && LocalOf(before, who) == old(LocalOf(world, who))
      ensures Enabled(before, e, config) && world == Next(before, e, config)
      ensures sent == old(sent) + 1 && mine == old(mine) + [e]
    {
      Meanwhile();
      before := world;
      RunsAreSafe(EMPTY, events, config);
      Happens(e);
      KeepsOn(old(world), before, world);
    }

    // Triage of the next entry in hand, its handler, and what follows from the way it ends.
    method Process()
      requires Valid() && LocalOf(world, who).phase == Ready && LocalOf(world, who).queue != []
      modifies this
      ensures Valid() && old(events) <= events && Keeps(old(world), world)
      ensures LocalOf(world, who) == Local(Ready, old(LocalOf(world, who).queue)[1..])
      ensures var h := old(LocalOf(world, who).queue)[0];
              && Handled(world, h, chance.outcome(h), config)
              && mine == old(mine) + Commands(h, chance.outcome(h), who, config)
      ensures sent > old(sent)
    {
      var h := LocalOf(world, who).queue[0];
      ghost var first := mine;
      ghost var before := Send(Begin(who));
      BeginHandles(before, who, config);
      AddMore(first, [Begin(who)], Ending(chance.outcome(h), who));
      if Triage(h.fields, h.deliveries, config).Run? {
        RunHandler(h);
      }
    }

    // The handler is running: what is sent when it ends.
    method RunHandler(h: Held)
      requires Valid() && LocalOf(world, who).phase == Running(h) && WasBegun(world, h)
      requires Triage(h.fields, h.deliveries, config).Run?
      modifies this
      ensures Valid() && old(events) <= events && Keeps(old(world), world)
      ensures LocalOf(world, who) == Local(Ready, old(LocalOf(world, who).queue))
      ensures Handled(world, h, chance.outcome(h), config)
      ensures sent > old(sent) && mine == old(mine) + Ending(chance.outcome(h), who)
    {
      ghost var started, first := world, mine;
      match chance.outcome(h)
      case Fails =>
        ghost var before := Send(HandlerFails(who));
      case Returns =>
        ghost var before := Send(HandlerReturns(who));
        ghost var returned := world;
        before := Send(Complete(who));
        AddTwo(first, HandlerReturns(who), Complete(who));
        CompleteHandles(before, who, config);
        KeepsOn(started, returned, world);
      case Refuses(why) =>
        ghost var before := Send(HandlerRefuses(who, why));
        ghost var refused := world;
        before := Send(Bury(who));
        AddTwo(first, HandlerRefuses(who, why), Bury(who));
        BuryHandles(before, who, config);
        KeepsOn(started, refused, world);
    }

    // Every entry in hand, in order. Only the loop over new entries looks for a stop, after
    // each but the last, and what it then has left in hand it leaves pending.
    method ProcessAll(heedsStop: bool) returns (done: nat)
      requires Valid() && LocalOf(world, who).phase == Ready
      modifies this
      ensures Valid() && old(events) <= events && Keeps(old(world), world)
      ensures LocalOf(world, who) == IDLE && done <= |old(LocalOf(world, who).queue)|
      ensures AllHandled(world, old(LocalOf(world, who).queue)[..done], chance, config)
      ensures var queue := old(LocalOf(world, who).queue);
              mine == old(mine) + AllCommands(queue[..done], chance, who, config)
                        + (if done < |queue| then [Abandon(who)] else [])
      ensures done < |old(LocalOf(world, who).queue)| ==> heedsStop && done > 0 && StopCame(old(sent), sent)
      ensures heedsStop && AlwaysStopped() ==> done <= 1
      ensures sent >= old(sent)
    {
      var queue := LocalOf(world, who).queue;
      done := 0;
      ghost var first := mine;
      assert queue[0..] == queue && AllCommands(queue[..0], chance, who, config) == [];
      while done < |queue|
        invariant done <= |queue| && Valid() && old(events) <= events && Keeps(old(world), world) && sent >= old(sent)
        invariant IsAt(queue, done, first)
        invariant heedsStop && AlwaysStopped() ==> done == 0 || done == 1 == |queue|
      {
        ghost var before := world;
        ProcessAt(queue, done, first);
        KeepsOn(old(world), before, world);
        done := done + 1;
        if heedsStop && done < |queue| && chance.stop(sent) {
          DropRest(queue, done, first);
          return;
        }
      }
      assert queue[..done] == queue;
    }

    // So far into the queue: what is left is in hand, and what came before is handled.
    ghost predicate IsAt(queue: seq<Held>, k: nat, first: seq<Event>)
      reads this
    {
      && k <= |queue| && LocalOf(world, who) == Local(Ready, queue[k..])
      && AllHandled(world, queue[..k], chance, config)
      && mine == first + AllCommands(queue[..k], chance, who, config)
    }

    method ProcessAt(queue: seq<Held>, k: nat, ghost first: seq<Event>)
      requires Valid() && k < |queue| && IsAt(queue, k, first)
      modifies this
      ensures Valid() && old(events) <= events && Keeps(old(world), world) && sent > old(sent)
      ensures IsAt(queue, k + 1, first)
    {
      ghost var before := world;
      assert queue[k..][0] == queue[k] && queue[k..][1..] == queue[k + 1..];
      Process();
      AllHandledStays(before, world, queue[..k], chance, config);
      assert queue[..k + 1] == queue[..k] + [queue[k]];
      AllCommandsOfOneMore(queue, k, chance, who, config);
      AddMore(first, AllCommands(queue[..k], chance, who, config), Commands(queue[k], chance.outcome(queue[k]), who, config));
    }

    // A stop came: what is still in hand is left pending.
    method DropRest(queue: seq<Held>, k: nat, ghost first: seq<Event>)
      requires Valid() && IsAt(queue, k, first)
      modifies this
      ensures Valid() && old(events) <= events && Keeps(old(world), world) && sent == old(sent) + 1
      ensures LocalOf(world, who) == IDLE && AllHandled(world, queue[..k], chance, config)
      ensures mine == first + AllCommands(queue[..k], chance, who, config) + [Abandon(who)]
    {
      ghost var before := Send(Abandon(who));
      AllHandledStays(old(world), world, queue[..k], chance, config);
    }

    // One read of new entries: each is on its first delivery, and each is processed unless
    // a stop comes in between.
    method ReadNew() returns (read: seq<Held>, done: nat, ghost before: World)
      requires Valid() && LocalOf(world, who) == IDLE
      modifies this
      ensures Valid() && old(events) <= events && Keeps(old(world), world) && LocalOf(world, who) == IDLE
      ensures |read| <= config.batchSize && forall k :: 0 <= k < |read| ==> read[k].ticket == read[k].deliveries == 1
      ensures var ids := ReadReply(before, chance.reply(old(sent) + 1), config);
              Enabled(before, Read(who, ids), config) && read == LocalOf(Next(before, Read(who, ids), config), who).queue
      ensures done <= |read| && AllHandled(world, read[..done], chance, config)
      ensures var ids := ReadReply(before, chance.reply(old(sent) + 1), config);
              mine == old(mine) + ReadCommands(ids, read, done, chance, who, config)
      ensures done < |read| ==> done > 0 && StopCame(old(sent), sent)
      ensures AlwaysStopped() ==> done <= 1
      ensures sent > old(sent)
    {
      ghost var first := mine;
      read, before := TakeNew();
      ghost var held, from := world, sent;
      done := ProcessAll(true);
      KeepsOn(old(world), held, world);
      StopCameSooner(old(sent), from, sent);
      AddThree(first, [Read(who, ReadReply(before, chance.reply(old(sent) + 1), config))],
               AllCommands(read[..done], chance, who, config), if done < |read| then [Abandon(who)] else []);
    }

    lemma StopCameSooner(a: nat, b: nat, c: nat)
      requires a <= b
      ensures StopCame(b, c) ==> StopCame(a, c)
    {
    }

    // XREADGROUP: what is read is in hand.
    method TakeNew() returns (read: seq<Held>, ghost before: World)
      requires Valid() && LocalOf(world, who) == IDLE
      modifies this
      ensures Valid() && old(events) <= events && Keeps(old(world), world) && LocalOf(world, who) == Local(Ready, read)
      ensures |read| <= config.batchSize && forall k :: 0 <= k < |read| ==> read[k].ticket == read[k].deliveries == 1
      ensures var ids := ReadReply(before, chance.reply(old(sent) + 1), config);
              && Enabled(before, Read(who, ids), config) && world == Next(before, Read(who, ids), config)
              && mine == old(mine) + [Read(who, ids)]
      ensures sent == old(sent) + 1
    {
      Meanwhile();
      var ids := ReadReply(world, chance.reply(sent), config);
      before := world;
      assert Consistent(before) by {
        RunsAreSafe(EMPTY, events, config);
      }
      Happens(Read(who, ids));
      KeepsOn(old(world), before, world);
      FirstDeliveries(before, who, ids, config);
      read := LocalOf(world, who).queue;
    }

    // One pass over the entries idle too long, as many pages of it as Redis has: every
    // entry of a page is processed, and a stop is heeded only between pages.
    method Reclaim(pages: nat) returns (claimed: seq<Held>, done: nat)
      requires Valid() && LocalOf(world, who) == IDLE
      modifies this
      ensures Valid() && old(events) <= events && Keeps(old(world), world) && LocalOf(world, who) == IDLE
      ensures AllHandled(world, claimed, chance, config)
      ensures done <= pages && (done < pages ==> StopCame(old(sent), sent)) && (AlwaysStopped() ==> done == 0)
      ensures ReadsIn(mine) == old(ReadsIn(mine)) && ClaimsIn(mine) == old(ClaimsIn(mine)) + done
      ensures sent >= old(sent)
    {
      claimed, done := [], 0;
      while done < pages
        invariant Valid() && old(events) <= events && Keeps(old(world), world) && LocalOf(world, who) == IDLE
        invariant AllHandled(world, claimed, chance, config)
        invariant done <= pages && (AlwaysStopped() ==> done == 0) && sent >= old(sent)
        invariant ReadsIn(mine) == old(ReadsIn(mine)) && ClaimsIn(mine) == old(ClaimsIn(mine)) + done
      {
        if chance.stop(sent) {
          return;
        }
        ghost var before, first := world, mine;
        var more, ids, atClaim, atCount := ReclaimPage();
        PageCounts(first, ids, more, chance, who, config);
        KeepsOn(old(world), before, world);
        AllHandledStays(before, world, claimed, chance, config);
        claimed := claimed + more;
        done := done + 1;
      }
    }

    method ReclaimPage() returns (claimed: seq<Held>, ghost ids: seq<Id>, ghost atClaim: World, ghost atCount: World)
      requires Valid() && LocalOf(world, who) == IDLE
      modifies this
      ensures Valid() && old(events) <= events && Keeps(old(world), world) && LocalOf(world, who) == IDLE
      ensures ids == ClaimReply(atClaim, chance.reply(old(sent) + 1), config) && ClaimGave(atClaim, atCount, ids, claimed)
      ensures AllHandled(world, claimed, chance, config)
      ensures mine == old(mine) + PageCommands(ids, claimed, chance, who, config) && sent > old(sent)
    {
      ghost var first := mine;
      claimed, ids, atClaim, atCount := TakeClaimed();
      ghost var held := world;
      var done := ProcessAll(false);
      assert claimed[..done] == claimed;
      KeepsOn(old(world), held, world);
      AddThree(first, [Claim(who, ids)] + (if ids == [] then [] else [Count(who)]), AllCommands(claimed, chance, who, config), []);
      AddMore([Claim(who, ids)] + (if ids == [] then [] else [Count(who)]), AllCommands(claimed, chance, who, config), []);
    }

    // What a claim of one moment and a count of a later one put in hand.
    ghost predicate ClaimGave(atClaim: World, atCount: World, ids: seq<Id>, claimed: seq<Held>)
    {
      && Enabled(atClaim, Claim(who, ids), config)
      && if ids == [] then claimed == []
         else claimed == Counted(atCount, LocalOf(Next(atClaim, Claim(who, ids), config), who).queue, config)
    }

    // XAUTOCLAIM, then XPENDING for the counts: what is claimed is in hand and counted.
    method TakeClaimed() returns (claimed: seq<Held>, ghost ids: seq<Id>, ghost atClaim: World, ghost atCount: World)
      requires Valid() && LocalOf(world, who) == IDLE
      modifies this
      ensures Valid() && old(events) <= events && Keeps(old(world), world) && LocalOf(world, who) == Local(Ready, claimed)
      ensures ids == ClaimReply(atClaim, chance.reply(old(sent) + 1), config) && ClaimGave(atClaim, atCount, ids, claimed)
      ensures mine == old(mine) + ([Claim(who, ids)] + (if ids == [] then [] else [Count(who)])) && sent > old(sent)
    {
      Meanwhile();
      var reply := ClaimReply(world, chance.reply(sent), config);
      ids, atClaim, atCount := reply, world, world;
      ghost var first := mine;
      Happens(Claim(who, reply));
      KeepsOn(old(world), atClaim, world);
      AddMore(first, [Claim(who, reply)], [Count(who)]);
      claimed := [];
      if reply != [] {
        ghost var claim := world;
        atCount := Send(Count(who));
        KeepsOn(old(world), claim, world);
        claimed := LocalOf(world, who).queue;
      }
    }

    // One turn: a reclaim if one is due, and a read.
    method Turn(pages: nat -> nat) returns (ghost wanted: nat)
      requires Valid() && LocalOf(world, who) == IDLE
      modifies this
      ensures Valid() && old(events) <= events && Keeps(old(world), world) && LocalOf(world, who) == IDLE
      ensures wanted == if chance.due(old(sent)) then pages(old(sent)) else 0
      ensures ReadsIn(mine) == old(ReadsIn(mine)) + 1 && ClaimsIn(mine) <= old(ClaimsIn(mine)) + wanted
      ensures NeverStops() ==> ClaimsIn(mine) == old(ClaimsIn(mine)) + wanted
      ensures sent > old(sent)
    {
      wanted := 0;
      if chance.due(sent) {
        wanted := pages(sent);
        var claimed, passed := Reclaim(pages(sent));
      }
      ghost var before := world;
      ReadOnce();
      KeepsOn(old(world), before, world);
    }

    method ReadOnce()
      requires Valid() && LocalOf(world, who) == IDLE
      modifies this
      ensures Valid() && old(events) <= events && Keeps(old(world), world) && LocalOf(world, who) == IDLE
      ensures ReadsIn(mine) == old(ReadsIn(mine)) + 1 && ClaimsIn(mine) == old(ClaimsIn(mine)) && sent > old(sent)
    {
      ghost var first, from := mine, sent;
      var read, done, asked := ReadNew();
      ReadCounts(first, ReadReply(asked, chance.reply(from + 1), config), read, done, chance, who, config);
    }

    // The consumer's main loop: a reclaim when one is due and a read at each turn, until a
    // stop. At every turn the world is one a run of the protocol reaches, so nothing is lost
    // and no handler is started too often.
    method Run(turns: nat, pages: nat -> nat) returns (done: nat, ghost wanted: nat)
      requires Valid() && LocalOf(world, who) == IDLE
      modifies this
      ensures Valid() && old(events) <= events && Keeps(old(world), world) && LocalOf(world, who) == IDLE
      ensures NothingLost(world) && forall id: Id :: StartCount(EMPTY, events, config, id) <= config.maxAttempts
      ensures done <= turns && (done < turns ==> StopCame(old(sent), sent)) && (AlwaysStopped() ==> done == 0)
      ensures ReadsIn(mine) == old(ReadsIn(mine)) + done
      ensures ClaimsIn(mine) <= old(ClaimsIn(mine)) + wanted
      ensures NeverStops() ==> ClaimsIn(mine) == old(ClaimsIn(mine)) + wanted
      ensures (forall n: nat :: chance.due(n) && pages(n) >= 1) ==> wanted >= done
      ensures (forall n: nat :: !chance.due(n)) ==> wanted == 0
    {
      done, wanted := 0, 0;
      while done < turns
        invariant Valid() && old(events) <= events && Keeps(old(world), world) && LocalOf(world, who) == IDLE
        invariant done <= turns && sent >= old(sent) && (AlwaysStopped() ==> done == 0)
        invariant ReadsIn(mine) == old(ReadsIn(mine)) + done
        invariant ClaimsIn(mine) <= old(ClaimsIn(mine)) + wanted
        invariant NeverStops() ==> ClaimsIn(mine) == old(ClaimsIn(mine)) + wanted
        invariant (forall n: nat :: chance.due(n) && pages(n) >= 1) ==> wanted >= done
        invariant (forall n: nat :: !chance.due(n)) ==> wanted == 0
      {
        if chance.stop(sent) {
          break;
        }
        ghost var before := world;
        ghost var due := Turn(pages);
        KeepsOn(old(world), before, world);
        done, wanted := done + 1, wanted + due;
      }
      RunsAreSafe(EMPTY, events, config);
      forall id: Id
        ensures StartCount(EMPTY, events, config, id) <= config.maxAttempts
      {
        HandlerStartsAreBounded(events, config, id);
      }
    }
  }
}
