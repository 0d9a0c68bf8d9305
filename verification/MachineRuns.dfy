// Whole runs of the delivery machine, human stops and resumes included: how long they can
// be, which files they name, and what cannot be lost on the way to done.
module MachineRuns {
  import opened Delivery
  import opened Options
  import opened Machine

  // One stage's result and what the worktree held when it was handed in.
  datatype Step = Step(report: Report, disk: Disk)

  function Take(s: Snapshot, step: Step, paths: Paths, settings: Settings): Outcome
    requires s.place.At?
  {
    Advanced(s, s.place.stage, step.report, paths, settings, step.disk)
  }

  // A run: states[i] is the saved state before step i. A step that fails is never saved,
  // so it is no part of a run; a human stop saves and the next step resumes from it.
  ghost predicate IsRun(states: seq<Snapshot>, steps: seq<Step>, paths: Paths, settings: Settings) {
    && |states| == |steps| + 1
    && forall i :: 0 <= i < |steps| ==> Follows(states[i], steps[i], states[i + 1], paths, settings)
  }

  ghost predicate Follows(s: Snapshot, step: Step, t: Snapshot, paths: Paths, settings: Settings) {
    s.place.At? && Take(s, step, paths, settings).Ok? && Take(s, step, paths, settings).state == t
  }

  ghost predicate IsFreshRun(states: seq<Snapshot>, steps: seq<Step>, paths: Paths, settings: Settings) {
    IsRun(states, steps, paths, settings) && states[0] == Fresh(settings.maxRounds)
  }

  ghost predicate Stops(s: Snapshot, step: Step, paths: Paths, settings: Settings) {
    s.place.At? && Take(s, step, paths, settings).Ok? && Take(s, step, paths, settings).moved.stop
  }

  // How many steps of a run stopped it for a human.
  ghost function StopCount(states: seq<Snapshot>, steps: seq<Step>, paths: Paths, settings: Settings): nat
    requires |states| == |steps| + 1
  {
    if steps == [] then 0
    else (if Stops(states[0], steps[0], paths, settings) then 1 else 0)
         + StopCount(states[1..], steps[1..], paths, settings)
  }

  // --- the counters: all that decides where a run goes ------------------------------

  datatype Counters = Counters(place: Place, rounds: Rounds, final: Rounds, sendbacks: Sendbacks)

  function CountersOf(s: Snapshot): Counters {
    Counters(s.place, s.rounds, s.final, s.sendbacks)
  }

  function Bumped(c: Counters, pair: Pair): Counters {
    var round := c.rounds.Of(pair) + 1;
    c.(rounds := c.rounds.With(pair, round),
       final := if c.final.Of(pair) <= round then c.final.With(pair, round + 1) else c.final)
  }

  // Where a verdict takes the counters.
  function Moves(c: Counters, status: Status): Counters
    requires c.place.At? && MayReturn(c.place.stage, status)
  {
    var stage := c.place.stage;
    var pair := PairOf(stage);
    match status
    case Done => c.(place := NextStage(stage))
    case Approved => c.(place := NextStage(stage))
    case ChangesRequested => c.(rounds := c.rounds.With(pair, c.rounds.Of(pair) + 1), place := At(WriterOf(pair)))
    case NeedsHuman => c
    case SendBack =>
      var earlier := EarlierPair(stage).value;
      var taken := Bumped(c, earlier);
      var own := if RoleOf(stage) == Reviewer then Bumped(taken, pair) else taken;
      own.(sendbacks := c.sendbacks.PlusOne(earlier), place := At(WriterOf(earlier)))
  }

  predicate StopsAt(c: Counters, status: Status, settings: Settings)
    requires c.place.At? && MayReturn(c.place.stage, status)
  {
    match status
    case Done => false
    case Approved => false
    case ChangesRequested => c.rounds.Of(PairOf(c.place.stage)) >= c.final.Of(PairOf(c.place.stage))
    case SendBack => c.sendbacks.Of(EarlierPair(c.place.stage).value) + 1 > settings.maxSendbacks
    case NeedsHuman => true
  }

  // A verdict the machine takes is one the stage may return, and the counters it leads to
  // and whether it stops for a human depend on the counters and the status alone.
  lemma StepMovesCounters(s: Snapshot, step: Step, t: Snapshot, paths: Paths, settings: Settings)
    requires Follows(s, step, t, paths, settings)
    ensures MayReturn(s.place.stage, step.report.status)
    ensures CountersOf(t) == Moves(CountersOf(s), step.report.status)
    ensures Stops(s, step, paths, settings) <==> StopsAt(CountersOf(s), step.report.status, settings)
  {
    var stage := s.place.stage;
    AdvanceAgreesWithMissingOutputs(s, stage, step.report, paths, settings, step.disk);
    match step.report.status
    case Done =>
    case Approved =>
    case ChangesRequested =>
    case NeedsHuman =>
    case SendBack => SendBackMovesCounters(Closed(s, stage), stage, paths);
  }

  lemma SendBackMovesCounters(s: Snapshot, stage: Stage, paths: Paths)
    requires s.place == At(stage) && MayReturn(stage, SendBack)
    ensures CountersOf(AfterSendBack(s, stage, paths)) == Moves(CountersOf(s), SendBack)
  {
  }

  // --- how long a run can be -----------------------------------------------------

  function Gap(c: Counters, pair: Pair): nat {
    if c.final.Of(pair) > c.rounds.Of(pair) then c.final.Of(pair) - c.rounds.Of(pair) else 0
  }

  function SendbacksLeft(c: Counters, pair: Pair, settings: Settings): nat
    requires pair != Acceptance
  {
    if settings.maxSendbacks > c.sendbacks.Of(pair) then settings.maxSendbacks - c.sendbacks.Of(pair) else 0
  }

  // The stages still to run if every allowed disagreement and send-back happens.
  function StagesLeft(c: Counters, settings: Settings): nat {
    (7 - PlaceIndex(c.place))
    + 2 * (Gap(c, Plan) + Gap(c, Test) + Gap(c, Code))
    + 8 * (SendbacksLeft(c, Plan, settings) + SendbacksLeft(c, Test, settings))
    + 5 * SendbacksLeft(c, Code, settings)
  }

  lemma BumpedGap(c: Counters, pair: Pair, other: Pair)
    ensures Gap(Bumped(c, pair), other) <= Gap(c, other) + (if other == pair then 1 else 0)
  {
  }

  // A send-back gives back at most a round to each pair it moves on.
  lemma SendBackGap(c: Counters, other: Pair)
    requires c.place.At? && MayReturn(c.place.stage, SendBack)
    ensures Gap(Moves(c, SendBack), other)
            <= Gap(c, other)
               + (if Some(other) == EarlierPair(c.place.stage) then 1 else 0)
               + (if other == PairOf(c.place.stage) && RoleOf(c.place.stage) == Reviewer then 1 else 0)
  {
    var earlier, pair := EarlierPair(c.place.stage).value, PairOf(c.place.stage);
    BumpedGap(c, earlier, other);
    BumpedGap(Bumped(c, earlier), pair, other);
  }

  lemma SendBackCount(c: Counters, pair: Pair, settings: Settings)
    requires c.place.At? && MayReturn(c.place.stage, SendBack) && pair != Acceptance
    ensures SendbacksLeft(Moves(c, SendBack), pair, settings)
            == SendbacksLeft(c, pair, settings)
               - (if Some(pair) == EarlierPair(c.place.stage) && !StopsAt(c, SendBack, settings) then 1 else 0)
  {
    assert Moves(c, SendBack).sendbacks == c.sendbacks.PlusOne(EarlierPair(c.place.stage).value);
  }

  lemma SendBackUsesStages(c: Counters, settings: Settings)
    requires c.place.At? && MayReturn(c.place.stage, SendBack)
    ensures StagesLeft(Moves(c, SendBack), settings)
            <= StagesLeft(c, settings) + (if StopsAt(c, SendBack, settings) then 7 else -1)
  {
    SendBackGap(c, Plan);
    SendBackGap(c, Test);
    SendBackGap(c, Code);
    SendBackCount(c, Plan, settings);
    SendBackCount(c, Test, settings);
    SendBackCount(c, Code, settings);
    assert Moves(c, SendBack).place == At(WriterOf(EarlierPair(c.place.stage).value));
  }

  // Every verdict uses up at least one of the stages left, unless it stops for a human,
  // who can give back at most seven.
  lemma VerdictUsesStages(c: Counters, status: Status, settings: Settings)
    requires c.place.At? && MayReturn(c.place.stage, status)
    ensures StagesLeft(Moves(c, status), settings)
            <= StagesLeft(c, settings) + (if StopsAt(c, status, settings) then 7 else -1)
  {
    match status
    case Done => ForwardUsesStages(c, Done, settings);
    case Approved => ForwardUsesStages(c, Approved, settings);
    case NeedsHuman =>
    case SendBack => SendBackUsesStages(c, settings);
    case ChangesRequested => ChangesUseStages(c, settings);
  }

  lemma ChangesUseStages(c: Counters, settings: Settings)
    requires c.place.At? && MayReturn(c.place.stage, ChangesRequested)
    ensures StagesLeft(Moves(c, ChangesRequested), settings)
            <= StagesLeft(c, settings) + (if StopsAt(c, ChangesRequested, settings) then 7 else -1)
  {
    ChangesGap(c, Plan);
    ChangesGap(c, Test);
    ChangesGap(c, Code);
    assert PlaceIndex(Moves(c, ChangesRequested).place) == PlaceIndex(c.place) - 1;
    assert Moves(c, ChangesRequested).sendbacks == c.sendbacks;
    assert PairOf(c.place.stage) in {Plan, Test, Code};
  }

  lemma ChangesGap(c: Counters, other: Pair)
    requires c.place.At? && MayReturn(c.place.stage, ChangesRequested)
    ensures Gap(Moves(c, ChangesRequested), other)
            == Gap(c, other) - (if other == PairOf(c.place.stage) && Gap(c, other) > 0 then 1 else 0)
  {
  }

  lemma ForwardUsesStages(c: Counters, status: Status, settings: Settings)
    requires c.place.At? && MayReturn(c.place.stage, status) && status in {Done, Approved}
    ensures StagesLeft(Moves(c, status), settings) == StagesLeft(c, settings) - 1
  {
    PlaceAloneMoves(c, NextStage(c.place.stage), settings);
  }

  lemma PlaceAloneMoves(c: Counters, place: Place, settings: Settings)
    ensures StagesLeft(c.(place := place), settings) == StagesLeft(c, settings) + PlaceIndex(c.place) - PlaceIndex(place)
  {
    var t := c.(place := place);
    assert Gap(t, Plan) == Gap(c, Plan) && Gap(t, Test) == Gap(c, Test) && Gap(t, Code) == Gap(c, Code);
  }

  // With R rounds and K send-backs allowed a pair, a run takes at most 7 + 6(R - 1) + 21K
  // stages and 8 more for each time it stopped for a human.
  lemma {:induction false} RunsEnd(states: seq<Snapshot>, steps: seq<Step>, paths: Paths, settings: Settings)
    requires IsRun(states, steps, paths, settings)
    ensures |steps| + StagesLeft(CountersOf(states[|steps|]), settings)
            <= StagesLeft(CountersOf(states[0]), settings) + 8 * StopCount(states, steps, paths, settings)
  {
    if steps != [] {
      assert Follows(states[0], steps[0], states[1], paths, settings);
      StepMovesCounters(states[0], steps[0], states[1], paths, settings);
      VerdictUsesStages(CountersOf(states[0]), steps[0].report.status, settings);
      RunsEnd(states[1..], steps[1..], paths, settings);
    }
  }

  lemma FreshRunsEnd(states: seq<Snapshot>, steps: seq<Step>, paths: Paths, settings: Settings)
    requires IsFreshRun(states, steps, paths, settings)
    requires settings.maxRounds >= 1
    ensures |steps| <= 7 + 6 * (settings.maxRounds - 1) + 21 * settings.maxSendbacks
                       + 8 * StopCount(states, steps, paths, settings)
  {
    RunsEnd(states, steps, paths, settings);
  }

  // --- the bound is met ------------------------------------------------------------

  // The longest run disputes every round it may and sends back as often as it may.
  function Stubborn(c: Counters, settings: Settings): (status: Status)
    requires c.place.At?
    ensures MayReturn(c.place.stage, status)
  {
    var stage := c.place.stage;
    if RoleOf(stage) == Writer then Done
    else if HasWriter(stage) && Gap(c, PairOf(stage)) > 0 then ChangesRequested
    else if EarlierPair(stage).Some? && SendbacksLeft(c, EarlierPair(stage).value, settings) > 0 then SendBack
    else Approved
  }

  // What has been used up by the time such a run is past a stage.
  predicate UsedUp(c: Counters, settings: Settings) {
    && c.rounds.plan <= c.final.plan && c.rounds.test <= c.final.test && c.rounds.code <= c.final.code
    && c.sendbacks.plan <= settings.maxSendbacks && c.sendbacks.test <= settings.maxSendbacks
    && c.sendbacks.code <= settings.maxSendbacks
    && (PlaceIndex(c.place) > 1 ==> c.rounds.plan == c.final.plan)
    && (PlaceIndex(c.place) > 3 ==> c.rounds.test == c.final.test && c.sendbacks.plan == settings.maxSendbacks)
    && (PlaceIndex(c.place) > 5 ==> c.rounds.code == c.final.code && c.sendbacks.test == settings.maxSendbacks)
    && (PlaceIndex(c.place) > 6 ==> c.sendbacks.code == settings.maxSendbacks)
  }

  lemma StubbornStep(c: Counters, settings: Settings)
    requires c.place.At? && UsedUp(c, settings)
    ensures var status := Stubborn(c, settings);
            && !StopsAt(c, status, settings)
            && UsedUp(Moves(c, status), settings)
            && StagesLeft(Moves(c, status), settings) == StagesLeft(c, settings) - 1
  {
    match Stubborn(c, settings)
    case Done => StubbornForward(c, settings);
    case Approved => StubbornForward(c, settings);
    case ChangesRequested => StubbornDispute(c, settings);
    case SendBack => StubbornSendBack(c, settings);
  }

  // Where the longest run moves forward, what the stage could spend is spent.
  lemma ForwardHasSpent(c: Counters, settings: Settings)
    requires c.place.At? && UsedUp(c, settings) && Stubborn(c, settings) in {Done, Approved}
    requires RoleOf(c.place.stage) == Reviewer
    ensures HasWriter(c.place.stage) ==> c.rounds.Of(PairOf(c.place.stage)) == c.final.Of(PairOf(c.place.stage))
    ensures EarlierPair(c.place.stage).Some? ==> c.sendbacks.Of(EarlierPair(c.place.stage).value) == settings.maxSendbacks
  {
  }

  lemma ForwardKeepsUsedUp(c: Counters, settings: Settings)
    requires c.place.At? && UsedUp(c, settings)
    requires RoleOf(c.place.stage) == Reviewer && HasWriter(c.place.stage) ==>
               c.rounds.Of(PairOf(c.place.stage)) == c.final.Of(PairOf(c.place.stage))
    requires RoleOf(c.place.stage) == Reviewer && EarlierPair(c.place.stage).Some? ==>
               c.sendbacks.Of(EarlierPair(c.place.stage).value) == settings.maxSendbacks
    ensures UsedUp(c.(place := NextStage(c.place.stage)), settings)
  {
  }

  lemma StubbornForward(c: Counters, settings: Settings)
    requires c.place.At? && UsedUp(c, settings) && Stubborn(c, settings) in {Done, Approved}
    ensures var status := Stubborn(c, settings);
            && !StopsAt(c, status, settings)
            && UsedUp(Moves(c, status), settings)
            && StagesLeft(Moves(c, status), settings) == StagesLeft(c, settings) - 1
  {
    ForwardUsesStages(c, Stubborn(c, settings), settings);
    if RoleOf(c.place.stage) == Reviewer {
      ForwardHasSpent(c, settings);
    }
    ForwardKeepsUsedUp(c, settings);
  }

  lemma StubbornDispute(c: Counters, settings: Settings)
    requires c.place.At? && UsedUp(c, settings) && Stubborn(c, settings) == ChangesRequested
    ensures var status := ChangesRequested;
            && !StopsAt(c, status, settings)
            && UsedUp(Moves(c, status), settings)
            && StagesLeft(Moves(c, status), settings) == StagesLeft(c, settings) - 1
  {
    ChangesGap(c, Plan);
    ChangesGap(c, Test);
    ChangesGap(c, Code);
    assert PlaceIndex(Moves(c, ChangesRequested).place) == PlaceIndex(c.place) - 1;
  }

  lemma StubbornSendBack(c: Counters, settings: Settings)
    requires c.place.At? && UsedUp(c, settings) && Stubborn(c, settings) == SendBack
    ensures var status := SendBack;
            && !StopsAt(c, status, settings)
            && UsedUp(Moves(c, status), settings)
            && StagesLeft(Moves(c, status), settings) == StagesLeft(c, settings) - 1
  {
    SendBackCount(c, Plan, settings);
    SendBackCount(c, Test, settings);
    SendBackCount(c, Code, settings);
    var t := Moves(c, SendBack);
    match c.place.stage
    case TestReviewer =>
      assert t.place == At(PlanWriter) && Gap(t, Plan) == 1 && Gap(t, Test) == 1 && Gap(t, Code) == Gap(c, Code);
    case CodeReviewer =>
      assert t.place == At(TestWriter) && Gap(t, Plan) == 0 && Gap(t, Test) == 1 && Gap(t, Code) == 1;
    case AcceptanceReviewer =>
      assert t.place == At(CodeWriter) && Gap(t, Plan) == 0 && Gap(t, Test) == 0 && Gap(t, Code) == 1;
  }

  // A worktree that holds every file leaves a permitted verdict nothing to owe.
  function Stocked(): Disk {
    Disk(file => true, true)
  }

  lemma StockedStepIsTaken(s: Snapshot, status: Status, paths: Paths, settings: Settings)
    requires s.place.At? && MayReturn(s.place.stage, status)
    ensures Take(s, Step(Report(status, "", []), Stocked()), paths, settings).Ok?
  {
    var report := Report(status, "", []);
    AdvanceAgreesWithMissingOutputs(s, s.place.stage, report, paths, settings, Stocked());
    NothingAbsent(s, report, paths);
  }

  lemma NothingAbsent(s: Snapshot, report: Report, paths: Paths)
    requires s.place.At?
    ensures MissingOutputs(s, s.place.stage, report, paths, Stocked()) == []
  {
    forall owed: seq<string>
      ensures Absent(owed, Stocked()) == []
    {
      StockedAbsent(owed);
    }
  }

  lemma {:induction false} StockedAbsent(owed: seq<string>)
    ensures Absent(owed, Stocked()) == []
  {
    if owed != [] {
      StockedAbsent(owed[1..]);
    }
  }

  lemma {:induction false} StubbornRun(s: Snapshot, paths: Paths, settings: Settings)
    returns (states: seq<Snapshot>, steps: seq<Step>)
    requires UsedUp(CountersOf(s), settings)
    ensures IsRun(states, steps, paths, settings) && states[0] == s
    ensures |steps| == StagesLeft(CountersOf(s), settings) && StopCount(states, steps, paths, settings) == 0
    ensures states[|steps|].place == Finished
    decreases StagesLeft(CountersOf(s), settings)
  {
    if s.place == Finished {
      return [s], [];
    }
    var status := Stubborn(CountersOf(s), settings);
    var step := Step(Report(status, "", []), Stocked());
    StockedStepIsTaken(s, status, paths, settings);
    var t := Take(s, step, paths, settings).state;
    StepMovesCounters(s, step, t, paths, settings);
    StubbornStep(CountersOf(s), settings);
    var restStates, restSteps := StubbornRun(t, paths, settings);
    states, steps := [s] + restStates, [step] + restSteps;
    assert states[1..] == restStates && steps[1..] == restSteps;
    forall i | 0 <= i < |steps|
      ensures Follows(states[i], steps[i], states[i + 1], paths, settings)
    {
      assert i > 0 ==> Follows(restStates[i - 1], restSteps[i - 1], restStates[i], paths, settings);
    }
  }

  // No smaller bound holds: for every R and K some run with no human stop reaches done
  // in exactly 7 + 6(R - 1) + 21K stages.
  lemma BoundIsMet(paths: Paths, settings: Settings)
    requires settings.maxRounds >= 1
    ensures exists states: seq<Snapshot>, steps: seq<Step> ::
              && IsFreshRun(states, steps, paths, settings)
              && StopCount(states, steps, paths, settings) == 0
              && |steps| == 7 + 6 * (settings.maxRounds - 1) + 21 * settings.maxSendbacks
              && states[|steps|].place == Finished
  {
    var states, steps := StubbornRun(Fresh(settings.maxRounds), paths, settings);
    assert IsFreshRun(states, steps, paths, settings);
  }
}
