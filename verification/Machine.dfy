// What each verdict does to the run: the functions say it on values, and the methods of
// class State do it in place, in the order the program updates the fields.
module Machine {
  import opened Delivery
  import opened Options

  datatype Report = Report(status: Status, summary: string, questions: seq<string>)

  // What the machine is told about the worktree: which paths hold anything, and whether
  // this pass changed the proof.
  datatype Disk = Disk(exists_: string -> bool, proofRewritten: bool)

  datatype Reason =
    | AgentAsked(summary: string, questions: seq<string>)
    | FinalRoundDisputed(pair: Pair, rounds: nat, final: nat, review: string)
    | TooManySendbacks(earlier: Pair, allowed: nat, file: string)

  datatype HumanStop = HumanStop(stage: Stage, round: nat, reason: Reason)

  datatype Moved = Moved(human: Option<HumanStop>, stop: bool, snapshot: bool, cleared: bool)

  datatype RunError =
    | WroteNo(stage: Stage, file: string)
    | ProofNotRewritten(stage: Stage, file: string)
    | NoWriterToTakeChanges(stage: Stage)
    | NoPairBefore(stage: Stage)
    | MayNotReturn(stage: Stage, status: Status)

  datatype Outcome = Ok(state: Snapshot, moved: Moved) | Err(error: RunError)

  // The statuses a stage may return.
  predicate MayReturn(stage: Stage, status: Status) {
    match status
    case Done => RoleOf(stage) == Writer
    case Approved => RoleOf(stage) == Reviewer
    case ChangesRequested => RoleOf(stage) == Reviewer && HasWriter(stage)
    case SendBack => EarlierPair(stage).Some?
    case NeedsHuman => true
  }

  // --- what a verdict does, on values -------------------------------------------

  predicate HoldsOpen(s: Snapshot, stage: Stage) {
    PairOf(stage) != Plan && stage in s.open && s.open[stage] != ""
  }

  // A stage that runs closes its own send-back.
  function Closed(s: Snapshot, stage: Stage): Snapshot {
    if HoldsOpen(s, stage) then s.(open := s.open - {stage}) else s
  }

  function WithNewRound(s: Snapshot, pair: Pair): Snapshot {
    var round := s.rounds.Of(pair) + 1;
    s.(rounds := s.rounds.With(pair, round),
       final := if s.final.Of(pair) <= round then s.final.With(pair, round + 1) else s.final)
  }

  // Coming forward into a writer hands it the review its reviewer left pending.
  function PendingFor(s: Snapshot, place: Place): string {
    if place.At? && RoleOf(place.stage) == Writer && PairOf(place.stage) in s.pending
    then s.pending[PairOf(place.stage)]
    else ""
  }

  function WithPendingTaken(s: Snapshot, place: Place): map<Pair, string> {
    if place.At? && RoleOf(place.stage) == Writer && PairOf(place.stage) in s.pending
    then s.pending[PairOf(place.stage) := ""]
    else s.pending
  }

  function AfterApproval(s: Snapshot, stage: Stage): Snapshot {
    var next := NextStage(stage);
    s.(place := next, review := PendingFor(s, next), pending := WithPendingTaken(s, next))
  }

  function AfterChanges(s: Snapshot, stage: Stage, paths: Paths): Snapshot
    requires HasWriter(stage)
  {
    var pair := PairOf(stage);
    s.(review := ReviewPath(stage, s, paths),
       rounds := s.rounds.With(pair, s.rounds.Of(pair) + 1),
       place := At(WriterOf(pair)))
  }

  // A reviewer's own pair takes a new round, with its review parked for its writer.
  function WithOwnRound(s: Snapshot, stage: Stage, review: string): Snapshot {
    if RoleOf(stage) == Writer then s
    else if HasWriter(stage) then WithNewRound(s.(pending := s.pending[PairOf(stage) := review]), PairOf(stage))
    else WithNewRound(s, PairOf(stage))
  }

  // The earlier pair takes a new round, and a reviewer's own pair does too.
  function AfterSendBack(s: Snapshot, stage: Stage, paths: Paths): Snapshot
    requires EarlierPair(stage).Some?
  {
    var earlier := EarlierPair(stage).value;
    var file := SendbackPath(stage, s, paths);
    var taken := WithNewRound(s, earlier);
    var counted := taken.(sendbacks := s.sendbacks.PlusOne(earlier));
    var own := WithOwnRound(counted, stage, ReviewPath(stage, s, paths));
    own.(open := s.open[stage := file], review := file, place := At(WriterOf(earlier)))
  }

  function SendBackStop(s: Snapshot, stage: Stage, file: string, settings: Settings): Option<HumanStop>
    requires EarlierPair(stage).Some?
  {
    var earlier := EarlierPair(stage).value;
    if s.sendbacks.Of(earlier) > settings.maxSendbacks
    then Some(HumanStop(stage, s.rounds.Of(PairOf(stage)), TooManySendbacks(earlier, settings.maxSendbacks, file)))
    else None
  }

  // Each verdict's outcome on a state whose own send-back is already closed.
  function DoneOutcome(s: Snapshot, stage: Stage, paths: Paths, disk: Disk, moved: Moved): Outcome {
    var output := WriterOutput(stage, paths);
    if output.Some? && output.value != "" && !disk.exists_(output.value) then Err(WroteNo(stage, output.value))
    else Ok(s.(review := "", place := NextStage(stage)), moved)
  }

  function ApprovalOutcome(s: Snapshot, stage: Stage, paths: Paths, disk: Disk, moved: Moved): Outcome {
    if HasWriter(stage) && !disk.exists_(ReviewPath(stage, s, paths)) then Err(WroteNo(stage, ReviewPath(stage, s, paths)))
    else if !HasWriter(stage) && !disk.exists_(paths.proof) then Err(WroteNo(stage, paths.proof))
    else if !HasWriter(stage) && !disk.proofRewritten then Err(ProofNotRewritten(stage, paths.proof))
    else Ok(AfterApproval(s, stage), moved)
  }

  // In the final round a request for changes also stops for a human.
  function ChangesOutcome(s: Snapshot, stage: Stage, paths: Paths, disk: Disk, moved: Moved): Outcome {
    if !HasWriter(stage) then Err(NoWriterToTakeChanges(stage))
    else if !disk.exists_(ReviewPath(stage, s, paths)) then Err(WroteNo(stage, ReviewPath(stage, s, paths)))
    else
      var pair := PairOf(stage);
      var round, final := s.rounds.Of(pair), s.final.Of(pair);
      var stop := HumanStop(stage, round, FinalRoundDisputed(pair, round, final, ReviewPath(stage, s, paths)));
      Ok(AfterChanges(s, stage, paths),
         if IsFinalRound(stage, s) then moved.(human := Some(stop), stop := true) else moved)
  }

  function SendBackOutcome(s: Snapshot, stage: Stage, paths: Paths, settings: Settings, disk: Disk, moved: Moved): Outcome {
    if EarlierPair(stage).None? then Err(NoPairBefore(stage))
    else if !disk.exists_(SendbackPath(stage, s, paths)) then Err(WroteNo(stage, SendbackPath(stage, s, paths)))
    else if RoleOf(stage) == Reviewer && HasWriter(stage) && !disk.exists_(ReviewPath(stage, s, paths)) then
      Err(WroteNo(stage, ReviewPath(stage, s, paths)))
    else
      var next := AfterSendBack(s, stage, paths);
      var human := SendBackStop(next, stage, SendbackPath(stage, s, paths), settings);
      Ok(next, moved.(snapshot := true, human := human, stop := human.Some?))
  }

  function EscalationOutcome(s: Snapshot, stage: Stage, report: Report, moved: Moved): Outcome {
    var stop := HumanStop(stage, s.rounds.Of(PairOf(stage)), AgentAsked(report.summary, report.questions));
    Ok(s, moved.(human := Some(stop), stop := true))
  }

  // The whole transition for one verdict.
  function Advanced(s0: Snapshot, stage: Stage, report: Report, paths: Paths, settings: Settings, disk: Disk): Outcome
  {
    var s := Closed(s0, stage);
    var moved := Moved(None, false, false, HoldsOpen(s0, stage));
    match (RoleOf(stage), report.status)
    case (Writer, Done) => DoneOutcome(s, stage, paths, disk, moved)
    case (Reviewer, Approved) => ApprovalOutcome(s, stage, paths, disk, moved)
    case (Reviewer, ChangesRequested) => ChangesOutcome(s, stage, paths, disk, moved)
    case (_, SendBack) => SendBackOutcome(s, stage, paths, settings, disk, moved)
    case (_, NeedsHuman) => EscalationOutcome(s, stage, report, moved)
    case (_, _) => Err(MayNotReturn(stage, report.status))
  }

  // The files a verdict owes that are not there, asked before the machine moves.
  function MissingOutputs(s: Snapshot, stage: Stage, report: Report, paths: Paths, disk: Disk): seq<string> {
    if RoleOf(stage) == Writer && report.status == Done then
      var output := WriterOutput(stage, paths);
      Absent(if output.Some? && output.value != "" then [output.value] else [], disk)
    else if report.status in {Approved, ChangesRequested} && HasWriter(stage) then
      Absent([ReviewPath(stage, s, paths)], disk)
    else if report.status == Approved then
      if disk.exists_(paths.proof) && !disk.proofRewritten then [paths.proof]
      else Absent([paths.proof], disk)
    else if report.status == SendBack && EarlierPair(stage).Some? then
      Absent(
        [SendbackPath(stage, s, paths)]
        + (if RoleOf(stage) == Reviewer && HasWriter(stage) then [ReviewPath(stage, s, paths)] else []),
        disk)
    else []
  }

  function Absent(owed: seq<string>, disk: Disk): seq<string> {
    if owed == [] then []
    else (if disk.exists_(owed[0]) then [] else [owed[0]]) + Absent(owed[1..], disk)
  }

  // The file an error is about, where it is about one.
  function FileOf(error: RunError): seq<string> {
    match error
    case WroteNo(_, file) => [file]
    case ProofNotRewritten(_, file) => [file]
    case _ => []
  }

  // An outcome agrees with a list of missing files when it is a success exactly when none
  // is missing, and otherwise fails on the first of them.
  predicate Agrees(outcome: Outcome, missing: seq<string>) {
    && (outcome.Ok? <==> missing == [])
    && (outcome.Err? ==> FileOf(outcome.error) == missing[..1])
  }

  // `advance` takes a verdict exactly when the stage may return it and it owes nothing,
  // and otherwise fails on the first file owed; although one reads the round counters
  // before the new round and the other partly after it.
  lemma AdvanceAgreesWithMissingOutputs(
    s: Snapshot, stage: Stage, report: Report, paths: Paths, settings: Settings, disk: Disk)
    ensures var outcome := Advanced(s, stage, report, paths, settings, disk);
            if MayReturn(stage, report.status) then Agrees(outcome, MissingOutputs(s, stage, report, paths, disk))
            else outcome.Err? && FileOf(outcome.error) == []
  {
    if MayReturn(stage, report.status) {
      match report.status
      case Done => DoneAgrees(s, stage, report, paths, settings, disk);
      case Approved => ReviewAgrees(s, stage, report, paths, settings, disk);
      case ChangesRequested => ReviewAgrees(s, stage, report, paths, settings, disk);
      case SendBack => SendBackAgrees(s, stage, report, paths, settings, disk);
      case NeedsHuman =>
    }
  }

  lemma DoneAgrees(s: Snapshot, stage: Stage, report: Report, paths: Paths, settings: Settings, disk: Disk)
    requires report.status == Done && MayReturn(stage, Done)
    ensures Agrees(Advanced(s, stage, report, paths, settings, disk), MissingOutputs(s, stage, report, paths, disk))
  {
    AbsentOfOne(WriterOutput(stage, paths).GetOr(""), disk);
  }

  lemma ReviewAgrees(s: Snapshot, stage: Stage, report: Report, paths: Paths, settings: Settings, disk: Disk)
    requires report.status in {Approved, ChangesRequested} && MayReturn(stage, report.status)
    ensures Agrees(Advanced(s, stage, report, paths, settings, disk), MissingOutputs(s, stage, report, paths, disk))
  {
    assert ReviewPath(stage, Closed(s, stage), paths) == ReviewPath(stage, s, paths);
    AbsentOfOne(paths.proof, disk);
    AbsentOfOne(ReviewPath(stage, s, paths), disk);
  }

  lemma SendBackAgrees(s: Snapshot, stage: Stage, report: Report, paths: Paths, settings: Settings, disk: Disk)
    requires report.status == SendBack && MayReturn(stage, SendBack)
    ensures Agrees(Advanced(s, stage, report, paths, settings, disk), MissingOutputs(s, stage, report, paths, disk))
  {
    var file, review := SendbackPath(stage, s, paths), ReviewPath(stage, s, paths);
    assert SendbackPath(stage, Closed(s, stage), paths) == file && ReviewPath(stage, Closed(s, stage), paths) == review;
    AbsentOfOne(file, disk);
    AbsentOfTwo(file, review, disk);
    assert [file] + [] == [file];
  }

  lemma AbsentOfOne(file: string, disk: Disk)
    ensures Absent([file], disk) == if disk.exists_(file) then [] else [file]
  {
    assert Absent([file][1..], disk) == [];
  }

  lemma AbsentOfTwo(first: string, second: string, disk: Disk)
    ensures Absent([first] + [second], disk)
            == (if disk.exists_(first) then [] else [first]) + (if disk.exists_(second) then [] else [second])
  {
    assert ([first] + [second])[1..] == [second];
    AbsentOfOne(second, disk);
  }

  // Who may say what: a writer that it is done, a reviewer that it approves or, where there is a
  // writer to take them, wants changes; anyone behind the plan pair may send work back, and
  // anyone may ask for a human.
  lemma VerdictsAre(stage: Stage, status: Status)
    ensures MayReturn(stage, status) <==>
              || status == NeedsHuman
              || (status == Done && stage in {PlanWriter, TestWriter, CodeWriter})
              || (status == Approved && stage in {PlanReviewer, TestReviewer, CodeReviewer, AcceptanceReviewer})
              || (status == ChangesRequested && stage in {PlanReviewer, TestReviewer, CodeReviewer})
              || (status == SendBack && stage !in {PlanWriter, PlanReviewer})
  {
  }

  // How a stage fails: on a verdict it may not give, by which one that is, whatever else holds;
  // on a file it owes, by that file; and on a proof that is there but not of this pass.
  lemma FailuresAre(
    s: Snapshot, stage: Stage, report: Report, paths: Paths, settings: Settings, disk: Disk, error: RunError)
    requires Advanced(s, stage, report, paths, settings, disk) == Err(error)
    ensures !MayReturn(stage, report.status) ==>
              error == match report.status
                       case SendBack => NoPairBefore(stage)
                       case ChangesRequested =>
                         if stage == AcceptanceReviewer then NoWriterToTakeChanges(stage)
                         else MayNotReturn(stage, ChangesRequested)
                       case other => MayNotReturn(stage, other)
    ensures MayReturn(stage, report.status) ==>
              || (error.WroteNo? && error.stage == stage && !disk.exists_(error.file))
              || (&& error == ProofNotRewritten(stage, paths.proof) && report.status == Approved
                  && stage == AcceptanceReviewer && disk.exists_(paths.proof) && !disk.proofRewritten)
  {
  }

  // --- the state the machine mutates ---------------------------------------------

  class State {
    var place: Place
    var review: string
    var rounds: Rounds
    var final: Rounds
    var sendbacks: Sendbacks
    var open: map<Stage, string>
    var pending: map<Pair, string>
    var status: string
    var step: nat

    function View(): Snapshot
      reads this
    {
      Snapshot(place, review, rounds, final, sendbacks, open, pending)
    }

    // This state and what a method returned are what the outcome says; after an error only
    // the error is promised, for the fields may be half moved and are not saved.
    ghost predicate Carried(outcome: Outcome, error: Option<RunError>, moved: Moved)
      reads this
    {
      match outcome
      case Ok(after, told) => error.None? && View() == after && moved == told
      case Err(why) => error == Some(why)
    }

    constructor (maxRounds: nat)
      ensures View() == Fresh(maxRounds)
      ensures status == "running" && step == 0
    {
      place := At(PlanWriter);
      review := "";
      rounds := Rounds(1, 1, 1, 1);
      final := Rounds(maxRounds, maxRounds, maxRounds, maxRounds);
      sendbacks := Sendbacks(0, 0, 0);
      open := map[];
      pending := map[Test := "", Code := ""];
      status := "running";
      step := 0;
    }

    method NewRound(pair: Pair)
      modifies this`rounds, this`final
      ensures View() == WithNewRound(old(View()), pair)
    {
      rounds := rounds.With(pair, rounds.Of(pair) + 1);
      if final.Of(pair) <= rounds.Of(pair) {
        final := final.With(pair, rounds.Of(pair) + 1);
      }
    }

    method WriterDone(stage: Stage, paths: Paths, disk: Disk, ghost moved: Moved) returns (error: Option<RunError>)
      modifies this`review, this`place
      ensures Carried(DoneOutcome(old(View()), stage, paths, disk, moved), error, moved)
    {
      var output := WriterOutput(stage, paths);
      if output.Some? && output.value != "" && !disk.exists_(output.value) {
        return Some(WroteNo(stage, output.value));
      }
      review := "";
      place := NextStage(stage);
      return None;
    }

    method Approve(stage: Stage, paths: Paths, disk: Disk, ghost moved: Moved) returns (error: Option<RunError>)
      modifies this`review, this`place, this`pending
      ensures Carried(ApprovalOutcome(old(View()), stage, paths, disk, moved), error, moved)
    {
      if HasWriter(stage) {
        var file := ReviewFile(stage, rounds.Of(PairOf(stage)), paths);
        if !disk.exists_(file) {
          return Some(WroteNo(stage, file));
        }
      } else if !disk.exists_(paths.proof) {
        return Some(WroteNo(stage, paths.proof));
      } else if !disk.proofRewritten {
        return Some(ProofNotRewritten(stage, paths.proof));
      }
      review := "";
      place := NextStage(stage);
      if place.At? && RoleOf(place.stage) == Writer {
        var writerPair := PairOf(place.stage);
        review := if writerPair in pending then pending[writerPair] else "";
        if writerPair in pending {
          pending := pending[writerPair := ""];
        }
      }
      return None;
    }

    method RequestChanges(stage: Stage, paths: Paths, disk: Disk, moved: Moved)
      returns (error: Option<RunError>, after: Moved)
      modifies this`review, this`place, this`rounds
      ensures Carried(ChangesOutcome(old(View()), stage, paths, disk, moved), error, after)
    {
      after := moved;
      if !HasWriter(stage) {
        return Some(NoWriterToTakeChanges(stage)), after;
      }
      var pair := PairOf(stage);
      review := ReviewFile(stage, rounds.Of(pair), paths);
      if !disk.exists_(review) {
        return Some(WroteNo(stage, review)), after;
      }
      var r, f := rounds.Of(pair), final.Of(pair);
      if r >= f {
        after := after.(human := Some(HumanStop(stage, r, FinalRoundDisputed(pair, r, f, review))), stop := true);
      }
      rounds := rounds.With(pair, r + 1);
      place := At(WriterOf(pair));
      return None, after;
    }

    // A reviewer that sends work back parks its review and moves its own pair on a round.
    method NewOwnRound(stage: Stage, paths: Paths, disk: Disk) returns (error: Option<RunError>)
      requires RoleOf(stage) == Reviewer
      modifies this`rounds, this`final, this`pending
      ensures var review := ReviewPath(stage, old(View()), paths);
              if HasWriter(stage) && !disk.exists_(review) then error == Some(WroteNo(stage, review))
              else error.None? && View() == WithOwnRound(old(View()), stage, review)
    {
      var pair := PairOf(stage);
      if HasWriter(stage) {
        var review := ReviewFile(stage, rounds.Of(pair), paths);
        if !disk.exists_(review) {
          return Some(WroteNo(stage, review));
        }
        pending := pending[pair := review];
      }
      NewRound(pair);
      return None;
    }

    // The earlier pair takes the work back, in a round of its own.
    method HandBack(stage: Stage, earlier: Pair, file: string, paths: Paths, disk: Disk) returns (error: Option<RunError>)
      requires EarlierPair(stage) == Some(earlier) && file == SendbackPath(stage, View(), paths)
      modifies this`review, this`place, this`rounds, this`final, this`sendbacks, this`open, this`pending
      ensures var review := ReviewPath(stage, old(View()), paths);
              if RoleOf(stage) == Reviewer && HasWriter(stage) && !disk.exists_(review)
              then error == Some(WroteNo(stage, review))
              else error.None? && View() == AfterSendBack(old(View()), stage, paths)
    {
      ghost var was := View();
      NewRound(earlier);
      sendbacks := sendbacks.PlusOne(earlier);
      assert ReviewPath(stage, View(), paths) == ReviewPath(stage, was, paths);
      if RoleOf(stage) == Reviewer {
        error := NewOwnRound(stage, paths, disk);
        if error.Some? {
          return;
        }
      }
      open := open[stage := file];
      review := file;
      place := At(WriterOf(earlier));
      return None;
    }

    method SendWorkBack(stage: Stage, paths: Paths, settings: Settings, disk: Disk, moved: Moved)
      returns (error: Option<RunError>, after: Moved)
      modifies this`review, this`place, this`rounds, this`final, this`sendbacks, this`open, this`pending
      requires moved.human.None? && !moved.stop
      ensures Carried(SendBackOutcome(old(View()), stage, paths, settings, disk, moved), error, after)
    {
      after := moved;
      if EarlierPair(stage).None? {
        return Some(NoPairBefore(stage)), after;
      }
      var earlier := EarlierPair(stage).value;
      var file := SendbackFile(stage, rounds.Of(earlier) + 1, paths);
      if !disk.exists_(file) {
        return Some(WroteNo(stage, file)), after;
      }
      error := HandBack(stage, earlier, file, paths, disk);
      if error.Some? {
        return;
      }
      after := after.(snapshot := true);
      if sendbacks.Of(earlier) > settings.maxSendbacks {
        after := after.(
          human := Some(HumanStop(stage, rounds.Of(PairOf(stage)), TooManySendbacks(earlier, settings.maxSendbacks, file))),
          stop := true);
      }
    }

    // A verdict moves the state as Advanced says, or fails as it says. A failed step may
    // have half-moved the fields: the runner does not save them.
    method Advance(stage: Stage, report: Report, paths: Paths, settings: Settings, disk: Disk)
      returns (error: Option<RunError>, moved: Moved)
      modifies this`review, this`place, this`rounds, this`final, this`sendbacks, this`open, this`pending
      ensures Carried(Advanced(old(View()), stage, report, paths, settings, disk), error, moved)
    {
      moved := Moved(None, false, false, false);
      if PairOf(stage) != Plan && stage in open && open[stage] != "" {
        open := open - {stage};
        moved := moved.(cleared := true);
      }
      match (RoleOf(stage), report.status)
      case (Writer, Done) =>
        error := WriterDone(stage, paths, disk, moved);
      case (Reviewer, Approved) =>
        error := Approve(stage, paths, disk, moved);
      case (Reviewer, ChangesRequested) =>
        error, moved := RequestChanges(stage, paths, disk, moved);
      case (_, SendBack) =>
        error, moved := SendWorkBack(stage, paths, settings, disk, moved);
      case (_, NeedsHuman) =>
        error := None;
        moved := moved.(
          human := Some(HumanStop(stage, rounds.Of(PairOf(stage)), AgentAsked(report.summary, report.questions))),
          stop := true);
      case (_, _) =>
        error := Some(MayNotReturn(stage, report.status));
    }
  }
}
