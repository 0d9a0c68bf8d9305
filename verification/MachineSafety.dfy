// What every run of the delivery machine keeps: no file is named twice, no send-back is
// passed over, no parked review is lost, and only approvals lead past a reviewer.
module MachineSafety {
  import opened Delivery
  import opened Options
  import opened Machine
  import opened MachineRuns

  // --- runs with no human stop ------------------------------------------------------

  predicate WithinFinal(c: Counters) {
    && c.rounds.plan <= c.final.plan
    && c.rounds.test <= c.final.test
    && c.rounds.code <= c.final.code
    && c.rounds.acceptance <= c.final.acceptance
  }

  lemma VerdictStaysWithinFinal(c: Counters, status: Status, settings: Settings)
    requires c.place.At? && MayReturn(c.place.stage, status) && !StopsAt(c, status, settings) && WithinFinal(c)
    ensures WithinFinal(Moves(c, status))
  {
    if status == SendBack {
      BumpedWithin(c, EarlierPair(c.place.stage).value);
      BumpedWithin(Bumped(c, EarlierPair(c.place.stage).value), PairOf(c.place.stage));
    }
  }

  lemma BumpedWithin(c: Counters, pair: Pair)
    requires WithinFinal(c)
    ensures WithinFinal(Bumped(c, pair)) && Bumped(c, pair).rounds.Of(pair) < Bumped(c, pair).final.Of(pair)
  {
  }

  // While nothing has stopped for a human, no pair is past its final round.
  lemma {:induction false} UnstoppedRunsStayWithinFinal(
    states: seq<Snapshot>, steps: seq<Step>, paths: Paths, settings: Settings)
    requires IsRun(states, steps, paths, settings) && StopCount(states, steps, paths, settings) == 0
    requires WithinFinal(CountersOf(states[0]))
    ensures forall i :: 0 <= i < |states| ==> WithinFinal(CountersOf(states[i]))
  {
    if steps != [] {
      assert Follows(states[0], steps[0], states[1], paths, settings);
      StepMovesCounters(states[0], steps[0], states[1], paths, settings);
      VerdictStaysWithinFinal(CountersOf(states[0]), steps[0].report.status, settings);
      UnstoppedRunsStayWithinFinal(states[1..], steps[1..], paths, settings);
      forall i | 0 < i < |states|
        ensures WithinFinal(CountersOf(states[i]))
      {
        assert states[i] == states[1..][i - 1];
      }
    }
  }

  // A send-back never lands in a final round, stopped or not: the pair that takes the work,
  // and a reviewer's own pair, have an ordinary review ahead of the final one.
  lemma SendBackNeverLandsInFinalRound(s: Snapshot, step: Step, t: Snapshot, paths: Paths, settings: Settings)
    requires Follows(s, step, t, paths, settings) && step.report.status == SendBack
    ensures t.place == At(WriterOf(EarlierPair(s.place.stage).value)) && !IsFinalRound(t.place.stage, t)
    ensures RoleOf(s.place.stage) == Reviewer ==> !IsFinalRound(s.place.stage, t)
    ensures IsRework(t.place.stage, t)
  {
    StepMovesCounters(s, step, t, paths, settings);
    StepCases(s, step, t, paths, settings);
    SendbackFileNonempty(s.place.stage, s.rounds.Of(EarlierPair(s.place.stage).value) + 1, paths);
  }

  lemma SendbackFileNonempty(stage: Stage, n: nat, paths: Paths)
    ensures SendbackFile(stage, n, paths) != ""
  {
    assert |SendbackFile(stage, n, paths)| >= |paths.reviews + "/"| >= 1;
  }

  lemma ReviewFileNonempty(stage: Stage, n: nat, paths: Paths)
    ensures ReviewFile(stage, n, paths) != ""
  {
    assert |ReviewFile(stage, n, paths)| >= |paths.reviews + "/"| >= 1;
  }

  // --- what each verdict leaves ------------------------------------------------------

  // The state a permitted verdict leads to, once its files are there.
  function Taken(s: Snapshot, status: Status, paths: Paths): Snapshot
    requires s.place.At? && MayReturn(s.place.stage, status)
  {
    var stage := s.place.stage;
    var closed := Closed(s, stage);
    match status
    case Done => closed.(review := "", place := NextStage(stage))
    case Approved => AfterApproval(closed, stage)
    case ChangesRequested => AfterChanges(closed, stage, paths)
    case SendBack => AfterSendBack(closed, stage, paths)
    case NeedsHuman => closed
  }

  lemma StepCases(s: Snapshot, step: Step, t: Snapshot, paths: Paths, settings: Settings)
    requires Follows(s, step, t, paths, settings)
    ensures MayReturn(s.place.stage, step.report.status) && t == Taken(s, step.report.status, paths)
  {
    AdvanceAgreesWithMissingOutputs(s, s.place.stage, step.report, paths, settings, step.disk);
  }

  // What the stage that runs next is handed: the review just written, the reason work came
  // back, the review that waited for it, or nothing; and an escalation leaves it as it was.
  lemma StepHandsOver(s: Snapshot, step: Step, t: Snapshot, paths: Paths, settings: Settings)
    requires Follows(s, step, t, paths, settings)
    ensures var stage := s.place.stage;
            match step.report.status
            case ChangesRequested =>
              && t.place == At(WriterOf(PairOf(stage))) && t.review == ReviewFile(stage, s.rounds.Of(PairOf(stage)), paths)
              && FilesNamed(s, ChangesRequested, paths) == {t.review}
            case SendBack =>
              && t.place == At(WriterOf(EarlierPair(stage).value))
              && t.review == SendbackFile(stage, s.rounds.Of(EarlierPair(stage).value) + 1, paths)
              && t.review in FilesNamed(s, SendBack, paths)
            case Done => t.review == ""
            case Approved =>
              t.review == if t.place.At? && RoleOf(t.place.stage) == Writer then PendingOf(s, PairOf(t.place.stage)) else ""
            case NeedsHuman => t.review == s.review && t.place == s.place
  {
    StepCases(s, step, t, paths, settings);
  }

  // What the loop is told: of a stop, exactly when a human is to be asked, by which stage and
  // in which round of its pair; of a snapshot, exactly when work was sent back; and of a
  // cleared one, exactly when the stage's own send-back was open.
  lemma StepTells(s: Snapshot, step: Step, t: Snapshot, paths: Paths, settings: Settings)
    requires Follows(s, step, t, paths, settings)
    ensures var moved := Take(s, step, paths, settings).moved;
            var stage := s.place.stage;
            && (moved.stop <==> StopsAt(CountersOf(s), step.report.status, settings)) && (moved.stop <==> moved.human.Some?)
            && (moved.snapshot <==> step.report.status == SendBack)
            && (moved.cleared <==> PairOf(stage) != Plan && stage in s.open && s.open[stage] != "")
            && (moved.stop ==> moved.human.value == HumanStop(
                  stage,
                  if step.report.status == SendBack then t.rounds.Of(PairOf(stage)) else s.rounds.Of(PairOf(stage)),
                  Asks(s, step.report, t, settings)))
  {
    StepMovesCounters(s, step, t, paths, settings);
    StepCases(s, step, t, paths, settings);
  }

  // Why a human is asked, in terms of the states before and after.
  function Asks(s: Snapshot, report: Report, t: Snapshot, settings: Settings): Reason
    requires s.place.At? && (report.status == SendBack ==> EarlierPair(s.place.stage).Some?)
  {
    var pair := PairOf(s.place.stage);
    if report.status == ChangesRequested then FinalRoundDisputed(pair, s.rounds.Of(pair), s.final.Of(pair), t.review)
    else if report.status == SendBack then TooManySendbacks(EarlierPair(s.place.stage).value, settings.maxSendbacks, t.review)
    else AgentAsked(report.summary, report.questions)
  }

  // A writer is done only with its own report there, and the proof is accepted only when this
  // pass wrote it.
  lemma OutputsAreThere(s: Snapshot, step: Step, t: Snapshot, paths: Paths, settings: Settings)
    requires Follows(s, step, t, paths, settings)
    ensures step.report.status == Done ==>
              match s.place.stage
              case PlanWriter => paths.plan == "" || step.disk.exists_(paths.plan)
              case TestWriter => paths.redReport == "" || step.disk.exists_(paths.redReport)
              case CodeWriter => paths.greenReport == "" || step.disk.exists_(paths.greenReport)
              case _ => false
    ensures step.report.status == Approved && s.place.stage == AcceptanceReviewer ==>
              step.disk.exists_(paths.proof) && step.disk.proofRewritten
  {
    StepCases(s, step, t, paths, settings);
  }

  // --- no file name twice ------------------------------------------------------------

  // Whether a verdict is recorded in a review file.
  predicate NamesReview(c: Counters, status: Status)
    requires c.place.At?
  {
    RoleOf(c.place.stage) == Reviewer && HasWriter(c.place.stage) && status in {Approved, ChangesRequested, SendBack}
  }

  // The files a verdict writes under the reviews folder, by name.
  function FilesNamed(s: Snapshot, status: Status, paths: Paths): set<string>
    requires s.place.At?
  {
    (if NamesReview(CountersOf(s), status) then {ReviewPath(s.place.stage, s, paths)} else {})
    + (if status == SendBack && EarlierPair(s.place.stage).Some? then {SendbackPath(s.place.stage, s, paths)} else {})
  }

  // A review number is spent once the pair is beyond it: a later round, or the same round
  // with the flow already past the reviewer.
  predicate Spent(c: Counters, pair: Pair, n: nat) {
    n < c.rounds.Of(pair) || (n == c.rounds.Of(pair) && PlaceIndex(c.place) > Index(ReviewerOf(pair)))
  }

  lemma SpentStays(c: Counters, status: Status, pair: Pair, n: nat)
    requires c.place.At? && MayReturn(c.place.stage, status) && Spent(c, pair, n)
    ensures Spent(Moves(c, status), pair, n)
  {
    match status
    case Done =>
    case Approved =>
    case NeedsHuman =>
    case ChangesRequested =>
    case SendBack => RoundsGrow(c, SendBack, pair);
  }

  lemma RoundsGrow(c: Counters, status: Status, pair: Pair)
    requires c.place.At? && MayReturn(c.place.stage, status)
    ensures Moves(c, status).rounds.Of(pair) >= c.rounds.Of(pair)
    ensures status == SendBack && EarlierPair(c.place.stage) == Some(pair) ==>
              Moves(c, status).rounds.Of(pair) == c.rounds.Of(pair) + 1
  {
  }

  lemma ReviewIsSpent(c: Counters, status: Status)
    requires c.place.At? && MayReturn(c.place.stage, status) && NamesReview(c, status)
    ensures !Spent(c, PairOf(c.place.stage), c.rounds.Of(PairOf(c.place.stage)))
    ensures Spent(Moves(c, status), PairOf(c.place.stage), c.rounds.Of(PairOf(c.place.stage)))
  {
  }

  lemma {:induction false} SpentForever(
    states: seq<Snapshot>, steps: seq<Step>, paths: Paths, settings: Settings, i: nat, j: nat, pair: Pair, n: nat)
    requires IsRun(states, steps, paths, settings) && i <= j <= |steps|
    requires Spent(CountersOf(states[i]), pair, n)
    ensures Spent(CountersOf(states[j]), pair, n)
    decreases j
  {
    if i < j {
      SpentForever(states, steps, paths, settings, i, j - 1, pair, n);
      assert Follows(states[j - 1], steps[j - 1], states[j], paths, settings);
      StepMovesCounters(states[j - 1], steps[j - 1], states[j], paths, settings);
      SpentStays(CountersOf(states[j - 1]), steps[j - 1].report.status, pair, n);
    }
  }

  // A review of this pair with this number was named in the first j steps.
  ghost predicate Used(states: seq<Snapshot>, steps: seq<Step>, j: nat, pair: Pair, n: nat)
    requires j <= |steps| <= |states|
  {
    exists i :: 0 <= i < j && UsesAt(states[i], steps[i].report.status, pair, n)
  }

  predicate UsesAt(s: Snapshot, status: Status, pair: Pair, n: nat) {
    s.place.At? && NamesReview(CountersOf(s), status) && PairOf(s.place.stage) == pair && s.rounds.Of(pair) == n
  }

  // One verdict spends the number it uses and no other.
  lemma SpentByUse(s: Snapshot, status: Status, pair: Pair, n: nat)
    requires s.place.At? && MayReturn(s.place.stage, status) && pair != Acceptance && n >= 1
    requires s.rounds.Of(pair) >= 1
    ensures Spent(Moves(CountersOf(s), status), pair, n) <==> Spent(CountersOf(s), pair, n) || UsesAt(s, status, pair, n)
  {
  }

  // The review numbers a pair has used are exactly those below its round, and its round too
  // exactly when the flow is past its reviewer.
  lemma {:induction false} SpentMeansUsed(
    states: seq<Snapshot>, steps: seq<Step>, paths: Paths, settings: Settings, j: nat, pair: Pair, n: nat)
    requires IsFreshRun(states, steps, paths, settings) && j <= |steps| && pair != Acceptance && n >= 1
    ensures states[j].rounds.Of(pair) >= 1
    ensures Used(states, steps, j, pair, n) <==> Spent(CountersOf(states[j]), pair, n)
    decreases j
  {
    if j > 0 {
      SpentMeansUsed(states, steps, paths, settings, j - 1, pair, n);
      assert Follows(states[j - 1], steps[j - 1], states[j], paths, settings);
      StepMovesCounters(states[j - 1], steps[j - 1], states[j], paths, settings);
      RoundsGrow(CountersOf(states[j - 1]), steps[j - 1].report.status, pair);
      SpentByUse(states[j - 1], steps[j - 1].report.status, pair, n);
      UsedByOneMore(states, steps, j, pair, n);
    }
  }

  lemma UsedByOneMore(states: seq<Snapshot>, steps: seq<Step>, j: nat, pair: Pair, n: nat)
    requires 0 < j <= |steps| <= |states|
    ensures Used(states, steps, j, pair, n)
            <==> Used(states, steps, j - 1, pair, n) || UsesAt(states[j - 1], steps[j - 1].report.status, pair, n)
  {
  }

  lemma {:induction false} RoundsGrowForever(
    states: seq<Snapshot>, steps: seq<Step>, paths: Paths, settings: Settings, i: nat, j: nat, pair: Pair)
    requires IsRun(states, steps, paths, settings) && i <= j <= |steps|
    ensures states[i].rounds.Of(pair) <= states[j].rounds.Of(pair)
    decreases j
  {
    if i < j {
      RoundsGrowForever(states, steps, paths, settings, i, j - 1, pair);
      assert Follows(states[j - 1], steps[j - 1], states[j], paths, settings);
      StepMovesCounters(states[j - 1], steps[j - 1], states[j], paths, settings);
      RoundsGrow(CountersOf(states[j - 1]), steps[j - 1].report.status, pair);
    }
  }

  lemma ReviewsOfTwoStepsDiffer(
    states: seq<Snapshot>, steps: seq<Step>, paths: Paths, settings: Settings, i: nat, j: nat)
    requires IsRun(states, steps, paths, settings) && i < j < |steps|
    requires states[i].place.At? && states[j].place.At?
    requires NamesReview(CountersOf(states[i]), steps[i].report.status)
    requires NamesReview(CountersOf(states[j]), steps[j].report.status)
    ensures ReviewPath(states[i].place.stage, states[i], paths) != ReviewPath(states[j].place.stage, states[j], paths)
  {
    var s, t := states[i].place.stage, states[j].place.stage;
    var m, n := states[i].rounds.Of(PairOf(s)), states[j].rounds.Of(PairOf(t));
    if ReviewFile(s, m, paths) == ReviewFile(t, n, paths) {
      ReviewFilesDiffer(s, t, m, n, paths);
      assert Follows(states[i], steps[i], states[i + 1], paths, settings);
      StepMovesCounters(states[i], steps[i], states[i + 1], paths, settings);
      ReviewIsSpent(CountersOf(states[i]), steps[i].report.status);
      SpentForever(states, steps, paths, settings, i + 1, j, PairOf(s), m);
    }
  }

  lemma SendbacksOfTwoStepsDiffer(
    states: seq<Snapshot>, steps: seq<Step>, paths: Paths, settings: Settings, i: nat, j: nat)
    requires IsRun(states, steps, paths, settings) && i < j < |steps|
    requires states[i].place.At? && EarlierPair(states[i].place.stage).Some? && steps[i].report.status == SendBack
    requires states[j].place.At? && EarlierPair(states[j].place.stage).Some? && steps[j].report.status == SendBack
    ensures SendbackPath(states[i].place.stage, states[i], paths) != SendbackPath(states[j].place.stage, states[j], paths)
  {
    var s, t := states[i].place.stage, states[j].place.stage;
    var e, e' := EarlierPair(s).value, EarlierPair(t).value;
    var m, n := states[i].rounds.Of(e) + 1, states[j].rounds.Of(e') + 1;
    if SendbackFile(s, m, paths) == SendbackFile(t, n, paths) {
      SendbackFilesDiffer(s, t, m, n, paths);
      assert Follows(states[i], steps[i], states[i + 1], paths, settings);
      StepMovesCounters(states[i], steps[i], states[i + 1], paths, settings);
      RoundsGrow(CountersOf(states[i]), SendBack, e);
      RoundsGrowForever(states, steps, paths, settings, i + 1, j, e);
    }
  }

  // Over a whole run, stops and resumes included, no two verdicts name the same review or
  // send-back file, and each file a verdict names was there when it was taken.
  lemma NoFileIsNamedTwice(
    states: seq<Snapshot>, steps: seq<Step>, paths: Paths, settings: Settings, i: nat, j: nat)
    requires IsRun(states, steps, paths, settings) && i < j < |steps|
    ensures states[i].place.At? && states[j].place.At?
    ensures FilesNamed(states[i], steps[i].report.status, paths) !! FilesNamed(states[j], steps[j].report.status, paths)
  {
    assert Follows(states[i], steps[i], states[i + 1], paths, settings);
    assert Follows(states[j], steps[j], states[j + 1], paths, settings);
    forall file | file in FilesNamed(states[i], steps[i].report.status, paths)
      ensures file !in FilesNamed(states[j], steps[j].report.status, paths)
    {
      FileIsNamedOnce(states, steps, paths, settings, i, j, file);
    }
  }

  lemma FileIsNamedOnce(
    states: seq<Snapshot>, steps: seq<Step>, paths: Paths, settings: Settings, i: nat, j: nat, file: string)
    requires IsRun(states, steps, paths, settings) && i < j < |steps|
    requires states[i].place.At? && file in FilesNamed(states[i], steps[i].report.status, paths)
    requires states[j].place.At?
    ensures file !in FilesNamed(states[j], steps[j].report.status, paths)
  {
    var s, t := states[i], states[j];
    var review := NamesReview(CountersOf(s), steps[i].report.status) && file == ReviewPath(s.place.stage, s, paths);
    var review' := NamesReview(CountersOf(t), steps[j].report.status) && file == ReviewPath(t.place.stage, t, paths);
    var sendback' := steps[j].report.status == SendBack && EarlierPair(t.place.stage).Some?
                     && file == SendbackPath(t.place.stage, t, paths);
    if review && review' {
      ReviewsOfTwoStepsDiffer(states, steps, paths, settings, i, j);
    } else if review && sendback' {
      KindsDiffer(s.place.stage, t.place.stage, s.rounds.Of(PairOf(s.place.stage)),
                  t.rounds.Of(EarlierPair(t.place.stage).value) + 1, paths);
    } else if review' {
      KindsDiffer(t.place.stage, s.place.stage, t.rounds.Of(PairOf(t.place.stage)),
                  s.rounds.Of(EarlierPair(s.place.stage).value) + 1, paths);
    } else if sendback' {
      SendbacksOfTwoStepsDiffer(states, steps, paths, settings, i, j);
    }
  }

  // Every file a taken verdict names was in the worktree.
  lemma NamedFilesAreThere(s: Snapshot, step: Step, t: Snapshot, paths: Paths, settings: Settings)
    requires Follows(s, step, t, paths, settings)
    ensures forall file :: file in FilesNamed(s, step.report.status, paths) ==> step.disk.exists_(file)
  {
    AdvanceAgreesWithMissingOutputs(s, s.place.stage, step.report, paths, settings, step.disk);
    AbsentOfOne(ReviewPath(s.place.stage, s, paths), step.disk);
    if EarlierPair(s.place.stage).Some? {
      AbsentOfOne(SendbackPath(s.place.stage, s, paths), step.disk);
      AbsentOfTwo(SendbackPath(s.place.stage, s, paths), ReviewPath(s.place.stage, s, paths), step.disk);
    }
  }

  // --- only approvals lead past a reviewer -------------------------------------------

  predicate Past(s: Snapshot, pair: Pair) {
    PlaceIndex(s.place) > Index(ReviewerOf(pair))
  }

  // The pair's reviewer approved, and the flow has stayed past it since.
  ghost predicate ApprovedAndKept(states: seq<Snapshot>, steps: seq<Step>, j: nat, pair: Pair)
    requires |states| == |steps| + 1 && j <= |steps|
  {
    exists i :: && 0 <= i < j
                && states[i].place == At(ReviewerOf(pair)) && steps[i].report.status == Approved
                && forall k :: i < k <= j ==> Past(states[k], pair)
  }

  // Where a run stands past a pair's reviewer, that reviewer approved, and the flow has
  // stayed past it since: done means every pair approved its last pass.
  lemma {:induction false} PassedOnlyByApproval(
    states: seq<Snapshot>, steps: seq<Step>, paths: Paths, settings: Settings, j: nat, pair: Pair)
    requires IsRun(states, steps, paths, settings) && j <= |steps|
    requires !Past(states[0], pair) && Past(states[j], pair)
    ensures ApprovedAndKept(states, steps, j, pair)
    decreases j
  {
    assert Follows(states[j - 1], steps[j - 1], states[j], paths, settings);
    StepMovesCounters(states[j - 1], steps[j - 1], states[j], paths, settings);
    if Past(states[j - 1], pair) {
      PassedOnlyByApproval(states, steps, paths, settings, j - 1, pair);
      var i :| && 0 <= i < j - 1
               && states[i].place == At(ReviewerOf(pair)) && steps[i].report.status == Approved
               && forall k :: i < k <= j - 1 ==> Past(states[k], pair);
      assert forall k :: i < k <= j ==> k == j || Past(states[k], pair);
    } else {
      EntersByApproval(CountersOf(states[j - 1]), steps[j - 1].report.status, pair);
      assert states[j - 1].place == At(ReviewerOf(pair));
    }
  }

  lemma EntersByApproval(c: Counters, status: Status, pair: Pair)
    requires c.place.At? && MayReturn(c.place.stage, status)
    requires PlaceIndex(c.place) <= Index(ReviewerOf(pair)) < PlaceIndex(Moves(c, status).place)
    ensures c.place == At(ReviewerOf(pair)) && status == Approved
  {
  }

  // --- nothing is passed over or lost ------------------------------------------------

  function PendingOf(s: Snapshot, pair: Pair): string {
    if pair in s.pending then s.pending[pair] else ""
  }

  // Every open send-back is by a stage the flow has not yet passed.
  predicate SendersAhead(s: Snapshot) {
    forall sender :: sender in s.open ==>
      s.open[sender] != "" && PairOf(sender) != Plan && Index(sender) >= PlaceIndex(s.place)
  }

  // Every parked review waits for a writer still ahead.
  predicate WritersAhead(s: Snapshot) {
    AllAhead(s.pending, s.place)
  }

  predicate AllAhead(pending: map<Pair, string>, place: Place) {
    forall pair :: pair in pending && pending[pair] != "" ==>
      pair in {Test, Code} && PlaceIndex(place) < Index(WriterOf(pair))
  }

  // Only a writer has a review to address.
  predicate WritersAddress(s: Snapshot) {
    s.review != "" ==> s.place.At? && RoleOf(s.place.stage) == Writer
  }

  predicate NothingPassedOver(s: Snapshot) {
    SendersAhead(s) && WritersAhead(s) && WritersAddress(s)
  }

  // The fields these three read, after a send-back.
  lemma SendBackRecords(s: Snapshot, stage: Stage, paths: Paths)
    requires s.place == At(stage) && MayReturn(stage, SendBack)
    ensures var t := AfterSendBack(s, stage, paths);
            && t.place == At(WriterOf(EarlierPair(stage).value))
            && t.open == s.open[stage := SendbackPath(stage, s, paths)] && t.open[stage] != ""
            && t.pending == if RoleOf(stage) == Reviewer && HasWriter(stage)
                            then s.pending[PairOf(stage) := ReviewPath(stage, s, paths)] else s.pending
  {
    SendbackFileNonempty(stage, s.rounds.Of(EarlierPair(stage).value) + 1, paths);
  }

  lemma VerdictKeepsSendersAhead(s: Snapshot, status: Status, paths: Paths)
    requires s.place.At? && MayReturn(s.place.stage, status) && SendersAhead(s)
    ensures SendersAhead(Taken(s, status, paths))
  {
    var closed := Closed(s, s.place.stage);
    match status
    case Done => ClosedMovesOn(s);
    case Approved => ClosedMovesOn(s);
    case NeedsHuman =>
    case ChangesRequested => assert Taken(s, status, paths).open == closed.open;
    case SendBack => SendBackRecords(closed, s.place.stage, paths);
  }

  // With its own send-back closed a stage leaves only senders beyond it.
  lemma ClosedMovesOn(s: Snapshot)
    requires s.place.At? && SendersAhead(s)
    ensures forall sender :: sender in Closed(s, s.place.stage).open ==>
              sender in s.open && Index(sender) >= PlaceIndex(NextStage(s.place.stage))
  {
  }

  lemma VerdictKeepsWritersAhead(s: Snapshot, status: Status, paths: Paths)
    requires s.place.At? && MayReturn(s.place.stage, status) && WritersAhead(s)
    ensures WritersAhead(Taken(s, status, paths))
  {
    var stage := s.place.stage;
    var t := Taken(s, status, paths);
    match status
    case NeedsHuman =>
    case Done => StillAhead(s.pending, s.place, t.place);
    case ChangesRequested => StillAhead(s.pending, s.place, t.place);
    case Approved => StillAhead(t.pending, s.place, t.place);
    case SendBack =>
      SendBackRecords(Closed(s, stage), stage, paths);
      SendBackMovesBehind(stage);
  }

  // Moving on by one passes no writer but the one arrived at.
  lemma StillAhead(pending: map<Pair, string>, from: Place, to: Place)
    requires AllAhead(pending, from) && from.At? && PlaceIndex(to) <= PlaceIndex(from) + 1
    requires to.At? && RoleOf(to.stage) == Writer && PlaceIndex(to) > PlaceIndex(from) ==>
               PairOf(to.stage) !in pending || pending[PairOf(to.stage)] == ""
    ensures AllAhead(pending, to)
  {
  }

  lemma SendBackMovesBehind(stage: Stage)
    requires EarlierPair(stage).Some?
    ensures Index(WriterOf(EarlierPair(stage).value)) < Index(stage)
    ensures HasWriter(stage) ==> Index(WriterOf(EarlierPair(stage).value)) < Index(WriterOf(PairOf(stage)))
  {
  }

  lemma VerdictKeepsWritersAddress(s: Snapshot, status: Status, paths: Paths)
    requires s.place.At? && MayReturn(s.place.stage, status) && WritersAddress(s)
    ensures WritersAddress(Taken(s, status, paths))
  {
    if status == SendBack {
      SendBackRecords(Closed(s, s.place.stage), s.place.stage, paths);
    }
  }

  lemma StepPassesNothingOver(s: Snapshot, step: Step, t: Snapshot, paths: Paths, settings: Settings)
    requires Follows(s, step, t, paths, settings) && NothingPassedOver(s)
    ensures NothingPassedOver(t)
  {
    StepCases(s, step, t, paths, settings);
    VerdictKeepsSendersAhead(s, step.report.status, paths);
    VerdictKeepsWritersAhead(s, step.report.status, paths);
    VerdictKeepsWritersAddress(s, step.report.status, paths);
  }

  lemma {:induction false} RunsPassNothingOver(
    states: seq<Snapshot>, steps: seq<Step>, paths: Paths, settings: Settings, j: nat)
    requires IsFreshRun(states, steps, paths, settings) && j <= |steps|
    ensures NothingPassedOver(states[j])
    decreases j
  {
    if j > 0 {
      RunsPassNothingOver(states, steps, paths, settings, j - 1);
      assert Follows(states[j - 1], steps[j - 1], states[j], paths, settings);
      StepPassesNothingOver(states[j - 1], steps[j - 1], states[j], paths, settings);
    }
  }

  // Done is reached only with every send-back closed and every parked review handed over.
  lemma DoneLeavesNothingOpen(states: seq<Snapshot>, steps: seq<Step>, paths: Paths, settings: Settings)
    requires IsFreshRun(states, steps, paths, settings) && states[|steps|].place == Finished
    ensures states[|steps|].open == map[]
    ensures forall pair :: PendingOf(states[|steps|], pair) == ""
    ensures forall pair: Pair :: ApprovedAndKept(states, steps, |steps|, pair)
  {
    RunsPassNothingOver(states, steps, paths, settings, |steps|);
    forall pair: Pair
      ensures ApprovedAndKept(states, steps, |steps|, pair)
    {
      PassedOnlyByApproval(states, steps, paths, settings, |steps|, pair);
    }
  }

  // A send-back stays open, under its own file and ahead of the flow, until the stage that
  // sent it runs again.
  lemma {:induction false} SendbackStaysOpen(
    states: seq<Snapshot>, steps: seq<Step>, paths: Paths, settings: Settings, i: nat, j: nat)
    requires IsFreshRun(states, steps, paths, settings) && i < j <= |steps|
    requires states[i].place.At? && steps[i].report.status == SendBack
    requires forall k :: i < k < j ==> states[k].place != states[i].place
    ensures var sender := states[i].place.stage;
            && EarlierPair(sender).Some?
            && sender in states[j].open && states[j].open[sender] == SendbackPath(sender, states[i], paths)
            && PlaceIndex(states[j].place) <= Index(sender)
    decreases j
  {
    var sender := states[i].place.stage;
    assert Follows(states[j - 1], steps[j - 1], states[j], paths, settings);
    StepCases(states[j - 1], steps[j - 1], states[j], paths, settings);
    if i < j - 1 {
      SendbackStaysOpen(states, steps, paths, settings, i, j - 1);
      OthersStayOpen(states[j - 1], steps[j - 1], states[j], paths, settings, sender);
    }
    RunsPassNothingOver(states, steps, paths, settings, j);
  }

  lemma OthersStayOpen(
    s: Snapshot, step: Step, t: Snapshot, paths: Paths, settings: Settings, sender: Stage)
    requires Follows(s, step, t, paths, settings) && s.place != At(sender) && sender in s.open
    ensures sender in t.open && t.open[sender] == s.open[sender]
  {
    StepCases(s, step, t, paths, settings);
  }

  // --- a parked review reaches its writer once ---------------------------------------

  // The one slot a pair's parked review has: filled by its reviewer's send-back, emptied
  // by the approval that leads into its writer, untouched by everything else.
  function PendingAfter(s: Snapshot, status: Status, pair: Pair, paths: Paths): string
    requires s.place.At? && pair != Acceptance
  {
    if s.place == At(ReviewerOf(pair)) && status == SendBack then ReviewPath(s.place.stage, s, paths)
    else if status == Approved && NextStage(s.place.stage) == At(WriterOf(pair)) then ""
    else PendingOf(s, pair)
  }

  lemma StepPending(s: Snapshot, step: Step, t: Snapshot, paths: Paths, settings: Settings, pair: Pair)
    requires Follows(s, step, t, paths, settings) && pair in {Test, Code}
    ensures PendingOf(t, pair) == PendingAfter(s, step.report.status, pair, paths)
    ensures step.report.status == Approved ==> t.place == NextStage(s.place.stage)
    ensures step.report.status == Approved && t.place == At(WriterOf(pair)) ==> t.review == PendingOf(s, pair)
  {
    StepCases(s, step, t, paths, settings);
    match step.report.status
    case Done => assert t.pending == s.pending;
    case NeedsHuman => assert t.pending == s.pending;
    case ChangesRequested => assert t.pending == s.pending;
    case SendBack => SendBackPending(s, s.place.stage, paths, pair);
    case Approved => ApprovalPending(s, s.place.stage, paths, pair);
  }

  lemma SendBackPending(s: Snapshot, stage: Stage, paths: Paths, pair: Pair)
    requires s.place == At(stage) && MayReturn(stage, SendBack) && pair in {Test, Code}
    ensures PendingOf(AfterSendBack(Closed(s, stage), stage, paths), pair) == PendingAfter(s, SendBack, pair, paths)
  {
    SendBackRecords(Closed(s, stage), stage, paths);
    assert ReviewPath(stage, Closed(s, stage), paths) == ReviewPath(stage, s, paths);
    assert s.place == At(ReviewerOf(pair)) <==> PairOf(stage) == pair && RoleOf(stage) == Reviewer;
  }

  lemma ApprovalPending(s: Snapshot, stage: Stage, paths: Paths, pair: Pair)
    requires s.place == At(stage) && MayReturn(stage, Approved) && pair in {Test, Code}
    ensures var t := AfterApproval(Closed(s, stage), stage);
            && PendingOf(t, pair) == PendingAfter(s, Approved, pair, paths)
            && (t.place == At(WriterOf(pair)) ==> t.review == PendingOf(s, pair))
  {
    var next := NextStage(stage);
    assert next == At(WriterOf(pair)) <==> next.At? && RoleOf(next.stage) == Writer && PairOf(next.stage) == pair;
  }

  ghost predicate Waiting(states: seq<Snapshot>, i: nat, j: nat, pair: Pair, file: string)
    requires j < |states| && pair != Acceptance
  {
    forall k :: i < k <= j ==>
      PendingOf(states[k], pair) == file && PlaceIndex(states[k].place) < Index(WriterOf(pair))
  }

  ghost predicate HandedOver(states: seq<Snapshot>, steps: seq<Step>, m: nat, pair: Pair, file: string)
    requires m < |steps| < |states| && pair != Acceptance
  {
    && steps[m].report.status == Approved && PendingOf(states[m], pair) == file
    && states[m + 1].place == At(WriterOf(pair)) && states[m + 1].review == file
  }

  // The review is no longer parked after step m, and stays so.
  ghost predicate GoneAfter(states: seq<Snapshot>, m: nat, j: nat, pair: Pair, file: string)
    requires j < |states|
  {
    forall k :: m < k <= j ==> PendingOf(states[k], pair) != file
  }

  ghost predicate HandedOverOnce(
    states: seq<Snapshot>, steps: seq<Step>, i: nat, m: nat, j: nat, pair: Pair, file: string)
    requires j < |states| == |steps| + 1 && pair != Acceptance
  {
    && i < m < j
    && Waiting(states, i, m, pair, file) && HandedOver(states, steps, m, pair, file)
    && GoneAfter(states, m, j, pair, file)
  }

  // By state j the review still waits, or one approval has handed it over for good.
  ghost predicate WaitsOrHandedOver(states: seq<Snapshot>, steps: seq<Step>, i: nat, j: nat, pair: Pair, file: string)
    requires j < |states| == |steps| + 1 && pair != Acceptance
  {
    Waiting(states, i, j, pair, file) || exists m :: HandedOverOnce(states, steps, i, m, j, pair, file)
  }

  // A review parked by a reviewer's send-back overwrites nothing; it waits, unchanged and
  // ahead of the flow, until an approval hands it to its own writer; and it is never handed
  // over again.
  lemma {:induction false} ParkedReviewIsHandedOverOnce(
    states: seq<Snapshot>, steps: seq<Step>, paths: Paths, settings: Settings, i: nat, j: nat, pair: Pair)
    requires IsFreshRun(states, steps, paths, settings) && i < j <= |steps|
    requires pair in {Test, Code} && states[i].place == At(ReviewerOf(pair)) && steps[i].report.status == SendBack
    ensures PendingOf(states[i], pair) == ""
    ensures WaitsOrHandedOver(states, steps, i, j, pair, ReviewPath(ReviewerOf(pair), states[i], paths))
    decreases j
  {
    ParkingOverwritesNothing(states, steps, paths, settings, i, pair);
    if i == j - 1 {
      ParkingStarts(states, steps, paths, settings, i, pair);
    } else {
      ParkedReviewIsHandedOverOnce(states, steps, paths, settings, i, j - 1, pair);
      OneMoreStep(states, steps, paths, settings, i, j, pair);
    }
  }

  lemma OneMoreStep(
    states: seq<Snapshot>, steps: seq<Step>, paths: Paths, settings: Settings, i: nat, j: nat, pair: Pair)
    requires IsFreshRun(states, steps, paths, settings) && i < j - 1 && j <= |steps| && pair in {Test, Code}
    requires states[i].place == At(ReviewerOf(pair)) && steps[i].report.status == SendBack
    requires WaitsOrHandedOver(states, steps, i, j - 1, pair, ReviewPath(ReviewerOf(pair), states[i], paths))
    ensures WaitsOrHandedOver(states, steps, i, j, pair, ReviewPath(ReviewerOf(pair), states[i], paths))
  {
    var file := ReviewPath(ReviewerOf(pair), states[i], paths);
    ReviewFileNonempty(ReviewerOf(pair), states[i].rounds.Of(pair), paths);
    if Waiting(states, i, j - 1, pair, file) {
      WaitingGoesOn(states, steps, paths, settings, i, j, pair, file);
    } else {
      HandedOverWasGone(states, steps, i, j - 1, pair, file);
      SpentFileStaysGone(states, steps, paths, settings, i, j, pair, file);
      HandedOverStays(states, steps, i, j, pair, file);
    }
  }

  lemma HandedOverWasGone(states: seq<Snapshot>, steps: seq<Step>, i: nat, j: nat, pair: Pair, file: string)
    requires j < |states| == |steps| + 1 && pair != Acceptance
    requires WaitsOrHandedOver(states, steps, i, j, pair, file) && !Waiting(states, i, j, pair, file)
    ensures PendingOf(states[j], pair) != file
  {
    var m :| HandedOverOnce(states, steps, i, m, j, pair, file);
  }

  lemma HandedOverStays(states: seq<Snapshot>, steps: seq<Step>, i: nat, j: nat, pair: Pair, file: string)
    requires 0 < j < |states| == |steps| + 1 && pair != Acceptance
    requires WaitsOrHandedOver(states, steps, i, j - 1, pair, file) && !Waiting(states, i, j - 1, pair, file)
    requires PendingOf(states[j], pair) != file
    ensures WaitsOrHandedOver(states, steps, i, j, pair, file)
  {
    var m :| HandedOverOnce(states, steps, i, m, j - 1, pair, file);
    assert HandedOverOnce(states, steps, i, m, j, pair, file);
  }

  lemma ParkingOverwritesNothing(
    states: seq<Snapshot>, steps: seq<Step>, paths: Paths, settings: Settings, i: nat, pair: Pair)
    requires IsFreshRun(states, steps, paths, settings) && i < |steps|
    requires pair in {Test, Code} && states[i].place == At(ReviewerOf(pair))
    ensures PendingOf(states[i], pair) == ""
  {
    RunsPassNothingOver(states, steps, paths, settings, i);
  }

  lemma ParkingStarts(
    states: seq<Snapshot>, steps: seq<Step>, paths: Paths, settings: Settings, i: nat, pair: Pair)
    requires IsFreshRun(states, steps, paths, settings) && i < |steps|
    requires pair in {Test, Code} && states[i].place == At(ReviewerOf(pair)) && steps[i].report.status == SendBack
    ensures Waiting(states, i, i + 1, pair, ReviewPath(ReviewerOf(pair), states[i], paths))
  {
    assert Follows(states[i], steps[i], states[i + 1], paths, settings);
    StepPending(states[i], steps[i], states[i + 1], paths, settings, pair);
    ReviewFileNonempty(ReviewerOf(pair), states[i].rounds.Of(pair), paths);
    RunsPassNothingOver(states, steps, paths, settings, i + 1);
  }

  // One more step either hands the waiting review to its writer or leaves it waiting.
  lemma WaitingGoesOn(
    states: seq<Snapshot>, steps: seq<Step>, paths: Paths, settings: Settings, i: nat, j: nat, pair: Pair, file: string)
    requires IsFreshRun(states, steps, paths, settings) && i < j - 1 && j <= |steps| && pair in {Test, Code}
    requires file != "" && Waiting(states, i, j - 1, pair, file)
    ensures Waiting(states, i, j, pair, file) || HandedOverOnce(states, steps, i, j - 1, j, pair, file)
  {
    assert PendingOf(states[j - 1], pair) == file && PlaceIndex(states[j - 1].place) < Index(WriterOf(pair));
    assert Follows(states[j - 1], steps[j - 1], states[j], paths, settings);
    StepPending(states[j - 1], steps[j - 1], states[j], paths, settings, pair);
    if PendingOf(states[j], pair) == file {
      RunsPassNothingOver(states, steps, paths, settings, j);
      assert forall k :: i < k <= j ==>
               k == j || (PendingOf(states[k], pair) == file && PlaceIndex(states[k].place) < Index(WriterOf(pair)));
    }
  }

  lemma SpentFileStaysGone(
    states: seq<Snapshot>, steps: seq<Step>, paths: Paths, settings: Settings, i: nat, j: nat, pair: Pair, file: string)
    requires IsRun(states, steps, paths, settings) && i < j - 1 && j <= |steps| && pair in {Test, Code}
    requires states[i].place == At(ReviewerOf(pair)) && steps[i].report.status == SendBack
    requires file == ReviewPath(ReviewerOf(pair), states[i], paths) && file != ""
    requires PendingOf(states[j - 1], pair) != file
    ensures PendingOf(states[j], pair) != file
  {
    var s, step := states[j - 1], steps[j - 1];
    assert Follows(s, step, states[j], paths, settings);
    StepPending(s, step, states[j], paths, settings, pair);
    if s.place == At(ReviewerOf(pair)) && step.report.status == SendBack {
      ReviewsOfTwoStepsDiffer(states, steps, paths, settings, i, j - 1);
    }
  }
}
