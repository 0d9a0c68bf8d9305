// The Redis Streams consumer as a protocol: a stream, its group's pending list, a dead
// stream, and any number of consumers whose commands interleave and who may crash between
// any two of them. Every Redis command and transaction is one step.
module Consumer {
  import opened Options

  // A stream entry: its `data` field, when it has one.
  datatype Fields = Fields(data: Option<string>)

  datatype Envelope = Envelope(jobId: string, jobType: string)

  datatype Reason = MalformedEnvelope | MaxAttempts | UnknownType | Permanent(why: string)

  datatype Decision = Run(envelope: Envelope) | DeadLetter(reason: Reason)

  // What a deployment fixes: the envelope decoder, the job types with a handler, and the
  // two limits.
  datatype Config = Config(decode: string -> Option<Envelope>, handlers: set<string>, maxAttempts: nat, batchSize: nat)

  function Decoded(fields: Fields, config: Config): Option<Envelope> {
    if fields.data.Some? then config.decode(fields.data.value) else None
  }

  function Triage(fields: Fields, deliveries: nat, config: Config): Decision {
    var envelope := Decoded(fields, config);
    if envelope.None? then DeadLetter(MalformedEnvelope)
    else if deliveries > config.maxAttempts then DeadLetter(MaxAttempts)
    else if envelope.value.jobType !in config.handlers then DeadLetter(UnknownType)
    else Run(envelope.value)
  }

  type Id = nat
  type Name = nat

  // One delivery of an entry in a consumer's hands: which delivery it is, and the count
  // that triage will be given once it is known.
  datatype Held = Held(id: Id, fields: Fields, ticket: nat, deliveries: nat)

  // Where a consumer stands between two commands.
  datatype Phase =
    | Counting // claimed entries, if any, whose delivery counts are still to be read
    | Ready
    | Running(current: Held)
    | Finishing(current: Held) // the handler returned: acknowledge and delete
    | Burying(current: Held, why: string) // the handler refused the job: dead-letter

  // A consumer: its phase, and the entries in hand it has not begun.
  datatype Local = Local(phase: Phase, queue: seq<Held>)

  const IDLE := Local(Ready, [])

  datatype Dead = Dead(source: Id, data: string, reason: Reason, deliveries: nat)

  // What has happened to one entry since it was added.
  datatype History = History(
    fields: Fields,
    delivered: nat, // deliveries so far
    owners: map<nat, Name>, // to whom each delivery went
    begun: set<nat>, // deliveries on which a handler was started
    runs: nat, // handlers started
    returned: bool) // a handler returned normally

  datatype World = World(
    nextId: Id,
    stream: map<Id, Fields>,
    lastRead: Id, // ids from here on are unread
    pending: map<Id, nat>, // delivered and not acknowledged, with the times delivered
    dead: seq<Dead>,
    locals: map<Name, Local>,
    log: map<Id, History>)

  const EMPTY := World(0, map[], 0, map[], [], map[], map[])

  datatype Event =
    | Add(fields: Fields) // a producer's XADD
    | Read(who: Name, ids: seq<Id>) // XREADGROUP >
    | Claim(who: Name, ids: seq<Id>) // XAUTOCLAIM
    | Count(who: Name) // XPENDING over the claimed range
    | Begin(who: Name) // triage of the next entry in hand
    | HandlerReturns(who: Name)
    | HandlerFails(who: Name) // any exception but PermanentJobError
    | HandlerRefuses(who: Name, why: string) // PermanentJobError
    | Complete(who: Name) // XACK and XDEL
    | Bury(who: Name) // XADD to the dead stream, XACK and XDEL
    | Abandon(who: Name) // a crash, a stop, or a Redis error: what was in hand is dropped

  function HistoryOf(w: World, id: Id): History {
    if id in w.log then w.log[id] else History(Fields(None), 0, map[], {}, 0, false)
  }

  function LocalOf(w: World, who: Name): Local {
    if who in w.locals then w.locals[who] else IDLE
  }

  function WithLocal(w: World, who: Name, local: Local): World {
    w.(locals := w.locals[who := local])
  }

  predicate Ascending(ids: seq<Id>) {
    forall i, j :: 0 <= i < j < |ids| ==> ids[i] < ids[j]
  }

  // The next unread entries, in order, at most a batch.
  predicate IsNextBatch(w: World, ids: seq<Id>, config: Config) {
    && Ascending(ids) && |ids| <= config.batchSize
    && (forall id: Id :: id in ids ==> id in w.stream && id >= w.lastRead)
    && (ids != [] ==> forall id: Id :: id in w.stream && w.lastRead <= id <= ids[|ids| - 1] ==> id in ids)
  }

  // Entries to reclaim, in id order: which ones are idle long enough is the clock's choice.
  predicate IsClaimable(w: World, ids: seq<Id>, config: Config) {
    Ascending(ids) && |ids| <= config.batchSize && forall id: Id :: id in ids ==> id in w.pending && id in w.stream
  }

  // The entries `ids`, one delivery further on, with `who` holding each.
  function Delivered(w: World, who: Name, ids: seq<Id>, phase: Phase, count: nat): World
    requires forall id: Id :: id in ids ==> id in w.stream
  {
    var log := map id | id in w.log ::
      if id in ids then
        var h := w.log[id];
        h.(delivered := h.delivered + 1, owners := h.owners[h.delivered + 1 := who])
      else w.log[id];
    var pending := map id | id in w.pending.Keys + (set x: Id | x in ids) ::
      (if id in w.pending then w.pending[id] else 0) + (if id in ids then 1 else 0);
    var queue := seq(|ids|, k requires 0 <= k < |ids| => Held(ids[k], w.stream[ids[k]], HistoryOf(w, ids[k]).delivered + 1, count));
    WithLocal(w.(log := log, pending := pending), who, Local(phase, queue))
  }

  // How many pending entries come before `id` in the page that starts at `low`.
  function Rank(pending: map<Id, nat>, low: Id, id: Id): nat {
    |set x: Id | x in pending && low <= x < id|
  }

  // The page is as long as the claim: an entry is on it if fewer pending ones than that
  // come first.
  predicate OnPage(pending: map<Id, nat>, queue: seq<Held>, id: Id)
    requires queue != []
  {
    id in pending && queue[0].id <= id <= queue[|queue| - 1].id && Rank(pending, queue[0].id, id) < |queue|
  }

  // An entry missing from the page counts as past the limit.
  function Counted(w: World, queue: seq<Held>, config: Config): seq<Held> {
    seq(|queue|, k requires 0 <= k < |queue| =>
      queue[k].(deliveries := if OnPage(w.pending, queue, queue[k].id) then w.pending[queue[k].id] else config.maxAttempts + 1))
  }

  // Acknowledged and deleted, in one transaction.
  function Removed(w: World, id: Id): World {
    w.(stream := w.stream - {id}, pending := w.pending - {id})
  }

  function Buried(w: World, held: Held, reason: Reason): World {
    Removed(w.(dead := w.dead + [Dead(held.id, held.fields.data.GetOr(""), reason, held.deliveries)]), held.id)
  }

  predicate Enabled(w: World, e: Event, config: Config) {
    match e
    case Add(_) => true
    case Read(who, ids) => LocalOf(w, who) == IDLE && IsNextBatch(w, ids, config)
    case Claim(who, ids) => LocalOf(w, who) == IDLE && IsClaimable(w, ids, config)
    case Count(who) => LocalOf(w, who).phase == Counting
    case Begin(who) => LocalOf(w, who).phase == Ready && LocalOf(w, who).queue != []
    case HandlerReturns(who) => LocalOf(w, who).phase.Running?
    case HandlerFails(who) => LocalOf(w, who).phase.Running?
    case HandlerRefuses(who, _) => LocalOf(w, who).phase.Running?
    case Complete(who) => LocalOf(w, who).phase.Finishing?
    case Bury(who) => LocalOf(w, who).phase.Burying?
    case Abandon(_) => true
  }

  function Next(w: World, e: Event, config: Config): World
    requires Enabled(w, e, config)
  {
    match e
    case Add(fields) =>
      w.(nextId := w.nextId + 1,
         stream := w.stream[w.nextId := fields],
         log := w.log[w.nextId := History(fields, 0, map[], {}, 0, false)])
    case Read(who, ids) =>
      var w' := Delivered(w, who, ids, Ready, 1);
      if ids == [] then w' else w'.(lastRead := ids[|ids| - 1] + 1)
    case Claim(who, ids) => Delivered(w, who, ids, if ids == [] then Ready else Counting, 0)
    case Count(who) => WithLocal(w, who, Local(Ready, Counted(w, LocalOf(w, who).queue, config)))
    case Begin(who) => Begun(w, who, config)
    case HandlerReturns(who) =>
      var Local(phase, queue) := LocalOf(w, who);
      var h := phase.current;
      WithLocal(w.(log := w.log[h.id := HistoryOf(w, h.id).(returned := true)]), who, Local(Finishing(h), queue))
    case HandlerFails(who) => WithLocal(w, who, LocalOf(w, who).(phase := Ready))
    case HandlerRefuses(who, why) =>
      WithLocal(w, who, LocalOf(w, who).(phase := Burying(LocalOf(w, who).phase.current, why)))
    case Complete(who) =>
      WithLocal(Removed(w, LocalOf(w, who).phase.current.id), who, LocalOf(w, who).(phase := Ready))
    case Bury(who) =>
      var phase := LocalOf(w, who).phase;
      WithLocal(Buried(w, phase.current, Permanent(phase.why)), who, LocalOf(w, who).(phase := Ready))
    case Abandon(who) => WithLocal(w, who, IDLE)
  }

  // A handler is started on this delivery.
  function Started(w: World, h: Held): World {
    var history := HistoryOf(w, h.id);
    w.(log := w.log[h.id := history.(begun := history.begun + {h.ticket}, runs := history.runs + 1)])
  }

  // Triage decides on the next entry in hand: dead-letter it, or start its handler.
  function Begun(w: World, who: Name, config: Config): World
    requires LocalOf(w, who).phase == Ready && LocalOf(w, who).queue != []
  {
    var queue := LocalOf(w, who).queue;
    var h := queue[0];
    match Triage(h.fields, h.deliveries, config)
    case DeadLetter(reason) => WithLocal(Buried(w, h, reason), who, Local(Ready, queue[1..]))
    case Run(_) => WithLocal(Started(w, h), who, Local(Running(h), queue[1..]))
  }

  // --- what every reachable world keeps ------------------------------------------------

  predicate HasCurrent(phase: Phase) {
    phase.Running? || phase.Finishing? || phase.Burying?
  }

  // The stream, the pending list and the log agree, and consumers hold only logged entries
  // with the fields they were added with.
  ghost predicate Consistent(w: World) {
    && w.lastRead <= w.nextId
    && (forall id: Id :: id in w.log <==> id < w.nextId)
    && (forall id: Id :: id in w.stream ==> id in w.log && w.stream[id] == w.log[id].fields)
    && (forall id: Id :: id in w.pending <==> id in w.stream && id < w.lastRead)
    && (forall id: Id :: id in w.pending ==> w.pending[id] == w.log[id].delivered)
    && (forall id: Id :: id in w.log && id >= w.lastRead ==> w.log[id].delivered == 0)
    && (forall who :: who in w.locals ==> HoldsLogged(w, w.locals[who]))
  }

  ghost predicate HoldsLogged(w: World, local: Local) {
    && (forall k :: 0 <= k < |local.queue| ==> local.queue[k].id in w.log && local.queue[k].fields == w.log[local.queue[k].id].fields)
    && (HasCurrent(local.phase) ==>
          local.phase.current.id in w.log && local.phase.current.fields == w.log[local.phase.current.id].fields)
  }

  // A consumer that finished its handler has had it return.
  ghost predicate FinishingReturned(w: World) {
    forall who :: who in w.locals && w.locals[who].phase.Finishing? ==>
      HistoryOf(w, w.locals[who].phase.current.id).returned
  }

  // The entry is in the dead stream, with the data it was added with.
  ghost predicate IsDead(w: World, id: Id) {
    exists k :: 0 <= k < |w.dead| && w.dead[k].source == id && w.dead[k].data == HistoryOf(w, id).fields.data.GetOr("")
  }

  // Every entry ever added is unread, or pending, or a handler returned on it, or it is dead.
  ghost predicate NothingLost(w: World) {
    forall id: Id :: id in w.log ==>
      || (id in w.stream && (id >= w.lastRead || id in w.pending))
      || HistoryOf(w, id).returned
      || IsDead(w, id)
  }

  lemma DeliveredIsConsistent(w: World, who: Name, ids: seq<Id>, phase: Phase, count: nat)
    requires Consistent(w) && !HasCurrent(phase)
    requires forall id: Id :: id in ids ==> id in w.stream
    ensures var t := Delivered(w, who, ids, phase, count);
            && t.log.Keys == w.log.Keys && t.stream == w.stream
            && (forall id: Id :: id in w.log ==> t.log[id].fields == w.log[id].fields && t.log[id].returned == w.log[id].returned)
            && (forall who :: who in t.locals ==> HoldsLogged(t, t.locals[who]))
            && (forall id: Id :: id in w.log ==> t.log[id].delivered == w.log[id].delivered + (if id in ids then 1 else 0))
  {
    var t := Delivered(w, who, ids, phase, count);
    assert forall id: Id :: id in w.log ==> t.log[id].fields == w.log[id].fields;
    forall other | other in t.locals
      ensures HoldsLogged(t, t.locals[other])
    {
      if other != who {
        assert HoldsLogged(w, w.locals[other]);
      } else {
        forall k | 0 <= k < |ids|
          ensures t.locals[who].queue[k].id in t.log && t.locals[who].queue[k].fields == t.log[t.locals[who].queue[k].id].fields
        {
          assert ids[k] in w.stream;
        }
      }
    }
  }

  lemma LastIsGreatest(ids: seq<Id>)
    requires Ascending(ids) && ids != []
    ensures forall id: Id :: id in ids ==> id <= ids[|ids| - 1]
  {
    forall id: Id | id in ids
      ensures id <= ids[|ids| - 1]
    {
      var k :| 0 <= k < |ids| && ids[k] == id;
    }
  }

  // Reading the next batch moves the unread mark past exactly what was read.
  lemma ReadPending(w: World, who: Name, ids: seq<Id>, config: Config)
    requires Consistent(w) && IsNextBatch(w, ids, config) && ids != []
    ensures var d, mark := Delivered(w, who, ids, Ready, 1), ids[|ids| - 1] + 1;
            && w.lastRead <= mark <= w.nextId
            && (forall id: Id :: id in d.pending <==> id in w.stream && id < mark)
            && (forall id: Id :: id in w.log && id >= mark ==> id !in ids)
  {
    LastIsGreatest(ids);
    assert ids[|ids| - 1] in w.stream;
    assert Delivered(w, who, ids, Ready, 1).pending.Keys == w.pending.Keys + (set x: Id | x in ids);
  }

  lemma DeliveredCounts(w: World, who: Name, ids: seq<Id>, phase: Phase, count: nat)
    requires Consistent(w)
    requires forall id: Id :: id in ids ==> id in w.stream
    ensures var t := Delivered(w, who, ids, phase, count);
            forall id: Id :: id in t.pending ==> id in t.log && t.pending[id] == t.log[id].delivered
  {
    var t := Delivered(w, who, ids, phase, count);
    forall id: Id | id in t.pending
      ensures id in t.log && t.pending[id] == t.log[id].delivered
    {
      assert id in w.stream;
    }
  }

  lemma ReadIsConsistent(w: World, who: Name, ids: seq<Id>, config: Config)
    requires Consistent(w) && Enabled(w, Read(who, ids), config)
    ensures Consistent(Next(w, Read(who, ids), config))
  {
    var d := Delivered(w, who, ids, Ready, 1);
    var mark := if ids == [] then w.lastRead else ids[|ids| - 1] + 1;
    ReadDelivers(w, who, ids, config);
    MarkIsConsistent(w, d, mark, ids);
    assert Next(w, Read(who, ids), config) == d.(lastRead := mark);
  }

  lemma ReadDelivers(w: World, who: Name, ids: seq<Id>, config: Config)
    requires Consistent(w) && IsNextBatch(w, ids, config)
    ensures var d := Delivered(w, who, ids, Ready, 1);
            var mark := if ids == [] then w.lastRead else ids[|ids| - 1] + 1;
            && MarkFits(w, d, mark, ids)
            && d.nextId == w.nextId
  {
    DeliveredIsConsistent(w, who, ids, Ready, 1);
    DeliveredCounts(w, who, ids, Ready, 1);
    if ids == [] {
      assert Delivered(w, who, ids, Ready, 1).pending.Keys == w.pending.Keys;
    } else {
      ReadPending(w, who, ids, config);
    }
  }

  // What a read leaves, and where the unread mark may go after it.
  ghost predicate MarkFits(w: World, d: World, mark: nat, ids: seq<Id>) {
    && d.stream == w.stream && d.log.Keys == w.log.Keys
    && (forall id: Id :: id in w.log ==>
          d.log[id].fields == w.log[id].fields && d.log[id].delivered == w.log[id].delivered + (if id in ids then 1 else 0))
    && (forall who :: who in d.locals ==> HoldsLogged(d, d.locals[who]))
    && w.lastRead <= mark <= w.nextId
    && (forall id: Id :: id in d.pending <==> id in d.stream && id < mark)
    && (forall id: Id :: id in d.pending ==> id in d.log && d.pending[id] == d.log[id].delivered)
    && (forall id: Id :: id in d.log && id >= mark ==> id !in ids)
  }

  lemma MarkIsConsistent(w: World, d: World, mark: nat, ids: seq<Id>)
    requires Consistent(w) && d.nextId == w.nextId && MarkFits(w, d, mark, ids)
    ensures Consistent(d.(lastRead := mark))
  {
    var t := d.(lastRead := mark);
    forall who | who in t.locals
      ensures HoldsLogged(t, t.locals[who])
    {
      assert HoldsLogged(d, d.locals[who]);
    }
  }

  lemma RedeliveredIsConsistent(w: World, who: Name, ids: seq<Id>, phase: Phase)
    requires Consistent(w) && !HasCurrent(phase) && forall id: Id :: id in ids ==> id in w.pending && id in w.stream
    ensures Consistent(Delivered(w, who, ids, phase, 0))
  {
    DeliveredIsConsistent(w, who, ids, phase, 0);
    DeliveredCounts(w, who, ids, phase, 0);
    assert Delivered(w, who, ids, phase, 0).pending.Keys == w.pending.Keys;
  }

  lemma ClaimIsConsistent(w: World, who: Name, ids: seq<Id>, config: Config)
    requires Consistent(w) && Enabled(w, Claim(who, ids), config)
    ensures Consistent(Next(w, Claim(who, ids), config))
  {
    RedeliveredIsConsistent(w, who, ids, if ids == [] then Ready else Counting);
  }

  // One entry's history moves on, without its fields or its deliveries.
  lemma LoggedIsConsistent(w: World, id: Id, history: History)
    requires Consistent(w) && id in w.log
    requires history.fields == w.log[id].fields && history.delivered == w.log[id].delivered
    ensures Consistent(w.(log := w.log[id := history]))
  {
    var t := w.(log := w.log[id := history]);
    forall who | who in t.locals
      ensures HoldsLogged(t, t.locals[who])
    {
      assert HoldsLogged(w, w.locals[who]);
    }
  }

  lemma RemovedIsConsistent(w: World, id: Id, dead: seq<Dead>)
    requires Consistent(w)
    ensures Consistent(Removed(w.(dead := dead), id))
  {
    var t := Removed(w.(dead := dead), id);
    forall who | who in t.locals
      ensures HoldsLogged(t, t.locals[who])
    {
      assert HoldsLogged(w, w.locals[who]);
    }
  }

  lemma LocalIsConsistent(w: World, who: Name, local: Local)
    requires Consistent(w) && HoldsLogged(w, local)
    ensures Consistent(WithLocal(w, who, local))
  {
    var t := WithLocal(w, who, local);
    forall other | other in t.locals
      ensures HoldsLogged(t, t.locals[other])
    {
      if other != who {
        assert HoldsLogged(w, w.locals[other]);
      }
    }
  }

  lemma AddIsConsistent(w: World, fields: Fields, config: Config)
    requires Consistent(w)
    ensures Consistent(Next(w, Add(fields), config))
  {
    var t := Next(w, Add(fields), config);
    forall who | who in t.locals
      ensures HoldsLogged(t, t.locals[who])
    {
      assert HoldsLogged(w, w.locals[who]);
    }
  }

  lemma StepIsConsistent(w: World, e: Event, config: Config)
    requires Consistent(w) && Enabled(w, e, config)
    ensures Consistent(Next(w, e, config))
  {
    match e
    case Add(fields) => AddIsConsistent(w, fields, config);
    case Read(who, ids) => ReadIsConsistent(w, who, ids, config);
    case Claim(who, ids) => ClaimIsConsistent(w, who, ids, config);
    case Begin(who) => BeginIsConsistent(w, who, config);
    case _ => HandlingIsConsistent(w, e, config);
  }

  lemma HeldIsLogged(w: World, who: Name)
    requires Consistent(w)
    ensures HoldsLogged(w, LocalOf(w, who))
  {
  }

  lemma BeginIsConsistent(w: World, who: Name, config: Config)
    requires Consistent(w) && Enabled(w, Begin(who), config)
    ensures Consistent(Next(w, Begin(who), config))
  {
    HeldIsLogged(w, who);
    var queue := LocalOf(w, who).queue;
    if Triage(queue[0].fields, queue[0].deliveries, config).DeadLetter? {
      BuryingIsConsistent(w, who, queue[0], Triage(queue[0].fields, queue[0].deliveries, config).reason, Local(Ready, queue[1..]));
    } else {
      StartingIsConsistent(w, who, queue[0], Local(Running(queue[0]), queue[1..]));
    }
  }

  lemma BuryingIsConsistent(w: World, who: Name, h: Held, reason: Reason, local: Local)
    requires Consistent(w) && HoldsLogged(w, local)
    ensures Consistent(WithLocal(Buried(w, h, reason), who, local))
  {
    var t := Buried(w, h, reason);
    RemovedIsConsistent(w, h.id, t.dead);
    assert HoldsLogged(t, local);
    LocalIsConsistent(t, who, local);
  }

  lemma StartingIsConsistent(w: World, who: Name, h: Held, local: Local)
    requires Consistent(w) && h.id in w.log && HoldsLogged(w, local)
    ensures Consistent(WithLocal(Started(w, h), who, local))
  {
    LoggedIsConsistent(w, h.id, Started(w, h).log[h.id]);
    assert HoldsLogged(Started(w, h), local);
    LocalIsConsistent(Started(w, h), who, local);
  }

  lemma HandlingIsConsistent(w: World, e: Event, config: Config)
    requires Consistent(w) && Enabled(w, e, config)
    requires !e.Add? && !e.Read? && !e.Claim? && !e.Begin?
    ensures Consistent(Next(w, e, config))
  {
    var local := LocalOf(w, e.who);
    HeldIsLogged(w, e.who);
    match e
    case Count(who) => LocalIsConsistent(w, who, Local(Ready, Counted(w, local.queue, config)));
    case HandlerReturns(who) =>
      var h := local.phase.current;
      var history := w.log[h.id].(returned := true);
      LoggedIsConsistent(w, h.id, history);
      LocalIsConsistent(w.(log := w.log[h.id := history]), who, Local(Finishing(h), local.queue));
    case HandlerFails(who) => LocalIsConsistent(w, who, local.(phase := Ready));
    case HandlerRefuses(who, why) => LocalIsConsistent(w, who, local.(phase := Burying(local.phase.current, why)));
    case Complete(who) =>
      RemovedIsConsistent(w, local.phase.current.id, w.dead);
      LocalIsConsistent(Removed(w, local.phase.current.id), who, local.(phase := Ready));
    case Bury(who) =>
      var t := Buried(w, local.phase.current, Permanent(local.phase.why));
      RemovedIsConsistent(w, local.phase.current.id, t.dead);
      LocalIsConsistent(t, who, local.(phase := Ready));
    case Abandon(who) => LocalIsConsistent(w, who, IDLE);
  }
}
