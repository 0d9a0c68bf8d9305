// The context block, every agent's prompt, and what it tells a stage of open send-backs.
module Prompt {
  import Decimal
  import opened Delivery
  import opened Options
  import opened Machine
  import opened MachineRuns
  import opened MachineSafety

  // The stages with a pair before them, first to last.
  const SENDERS: seq<Stage> := [TestWriter, TestReviewer, CodeWriter, CodeReviewer, AcceptanceReviewer]

  // The most changed paths one line lists.
  const CHANGED_LIMIT := 40

  datatype Surroundings = Surroundings(
    worktree: string,
    branch: string,
    preview: string,
    hasReviews: bool,
    hasAnswers: bool,
    changed: map<Stage, seq<string>>)

  function FirstPassTurns(stage: Stage, settings: Settings): nat {
    if settings.maxTurns.Some? then settings.maxTurns.value
    else if PairOf(stage) == Plan then 150
    else if stage in {TestWriter, AcceptanceReviewer} then 200
    else 250
  }

  function TurnsFor(stage: Stage, s: Snapshot, settings: Settings): nat {
    if IsFinalRound(stage, s) then settings.finalMaxTurns
    else if IsRework(stage, s) then settings.reworkMaxTurns
    else FirstPassTurns(stage, settings)
  }

  function PassLine(stage: Stage, s: Snapshot, turns: nat): string {
    if IsFinalRound(stage, s) then
      "Final round: yes — " + Decimal.Str(turns) + " turns. Follow your *Final round* rules."
    else if IsRework(stage, s) then
      "Rework pass: yes — " + Decimal.Str(turns) + " turns. Follow *A rework pass*."
    else "Turns: " + Decimal.Str(turns)
  }

  function ReviewerLines(stage: Stage, s: Snapshot, paths: Paths, preview: string): seq<string> {
    if HasWriter(stage) then ["Write your review to: " + ReviewPath(stage, s, paths)]
    else ["Proof: " + paths.proof, "Evidence: " + paths.evidence + "/", "Preview: " + preview]
  }

  function AddressLine(file: string): string {
    "Review to address: " + file
  }

  function AfterLine(sender: Stage, file: string): string {
    "After a send-back by " + StageName(sender) + ": " + file
  }

  function ChangedLine(sender: Stage, since: seq<string>): string {
    "Changed since the send-back by " + StageName(sender) + ": " + Join(since, " ")
  }

  function Join(parts: seq<string>, separator: string): string {
    if parts == [] then ""
    else if |parts| == 1 then parts[0]
    else parts[0] + separator + Join(parts[1..], separator)
  }

  // The changed paths outside the reviews folder.
  function Outside(changed: seq<string>, paths: Paths): seq<string> {
    if changed == [] then []
    else (if paths.reviews + "/" <= changed[0] then [] else [changed[0]]) + Outside(changed[1..], paths)
  }

  function LinesFor(sender: Stage, s: Snapshot, paths: Paths, changed: map<Stage, seq<string>>): seq<string> {
    if sender !in s.open || s.open[sender] == "" then []
    else
      var since := Outside(if sender in changed then changed[sender] else [], paths);
      (if s.review != s.open[sender] then [AfterLine(sender, s.open[sender])] else [])
      + (if since == [] then []
         else [ChangedLine(sender, if |since| > CHANGED_LIMIT then since[..CHANGED_LIMIT] else since)])
  }

  function LinesOf(senders: seq<Stage>, s: Snapshot, paths: Paths, changed: map<Stage, seq<string>>): seq<string> {
    if senders == [] then []
    else LinesOf(senders[..|senders| - 1], s, paths, changed) + LinesFor(senders[|senders| - 1], s, paths, changed)
  }

  lemma LinesOfNext(senders: seq<Stage>, i: nat, s: Snapshot, paths: Paths, changed: map<Stage, seq<string>>)
    requires i < |senders|
    ensures LinesOf(senders[..i + 1], s, paths, changed)
            == LinesOf(senders[..i], s, paths, changed) + LinesFor(senders[i], s, paths, changed)
  {
    assert senders[..i + 1][..i] == senders[..i];
  }

  method SendbackLines(state: State, senders: seq<Stage>, paths: Paths, changed: map<Stage, seq<string>>)
    returns (lines: seq<string>)
    ensures lines == LinesOf(senders, state.View(), paths, changed)
  {
    lines := [];
    for i := 0 to |senders|
      invariant lines == LinesOf(senders[..i], state.View(), paths, changed)
    {
      LinesOfNext(senders, i, state.View(), paths, changed);
      var sender := senders[i];
      var file := if sender in state.open then state.open[sender] else "";
      if file != "" {
        var since := Outside(if sender in changed then changed[sender] else [], paths);
        ghost var before := lines;
        if state.review != file {
          lines := lines + [AfterLine(sender, file)];
        }
        if since != [] {
          lines := lines + [ChangedLine(sender, if |since| > CHANGED_LIMIT then since[..CHANGED_LIMIT] else since)];
        }
        assert lines == before + LinesFor(sender, state.View(), paths, changed);
      }
    }
    assert senders[..|senders|] == senders;
  }

  // The lines of the block, in order.
  function PromptLines(stage: Stage, s: Snapshot, settings: Settings, paths: Paths, around: Surroundings): seq<string> {
    var pair := PairOf(stage);
    ["Issue: " + paths.key, "Issue file: " + paths.issueCopy, "Plan dir: " + paths.planDir + "/", "Plan: " + paths.plan]
    + (if pair in {Test, Code, Acceptance} then ["Red report: " + paths.redReport] else [])
    + (if pair in {Code, Acceptance} then ["Green report: " + paths.greenReport] else [])
    + ["Worktree: " + around.worktree + " (branch " + around.branch + ")",
       "Stage: " + StageName(stage) + ", round " + Decimal.Str(s.rounds.Of(pair)) + " of " + Decimal.Str(s.final.Of(pair)),
       PassLine(stage, s, TurnsFor(stage, s, settings))]
    + (if RoleOf(stage) == Writer && s.review != "" then [AddressLine(s.review)] else [])
    + (if RoleOf(stage) == Reviewer then ReviewerLines(stage, s, paths, around.preview) else [])
    + (if around.hasReviews then ["Earlier reviews: " + paths.reviews + "/"] else [])
    + (if around.hasAnswers then ["Human answers: " + paths.answers] else [])
    + (if EarlierPair(stage).Some? then ["Send-back file, if you send work back: " + SendbackPath(stage, s, paths)] else [])
    + LinesOf(SENDERS, s, paths, around.changed)
  }

  function ContextBlock(stage: Stage, s: Snapshot, settings: Settings, paths: Paths, around: Surroundings): string {
    Join(PromptLines(stage, s, settings, paths, around), "\n") + "\n"
  }

  // --- what a stage is told ------------------------------------------------------------

  // The line that names an open send-back to a stage running meanwhile.
  function NamingLine(s: Snapshot, sender: Stage): string
    requires sender in s.open
  {
    if s.review == s.open[sender] then AddressLine(s.open[sender]) else AfterLine(sender, s.open[sender])
  }

  lemma {:induction false} SenderIsListed(
    senders: seq<Stage>, s: Snapshot, paths: Paths, changed: map<Stage, seq<string>>, sender: Stage)
    requires sender in senders && sender in s.open && s.open[sender] != "" && s.review != s.open[sender]
    ensures AfterLine(sender, s.open[sender]) in LinesOf(senders, s, paths, changed)
  {
    if sender == senders[|senders| - 1] {
      assert AfterLine(sender, s.open[sender]) in LinesFor(sender, s, paths, changed);
    } else {
      SenderIsListed(senders[..|senders| - 1], s, paths, changed, sender);
    }
  }

  lemma LastLinesAreIn(
    stage: Stage, s: Snapshot, settings: Settings, paths: Paths, around: Surroundings, line: string)
    requires || line in LinesOf(SENDERS, s, paths, around.changed)
             || (RoleOf(stage) == Writer && s.review != "" && line == AddressLine(s.review))
    ensures line in PromptLines(stage, s, settings, paths, around)
  {
  }

  ghost predicate Contains(text: string, part: string) {
    exists before: string, after: string :: text == before + part + after
  }

  lemma {:induction false} JoinContains(lines: seq<string>, separator: string, line: string)
    requires line in lines
    ensures Contains(Join(lines, separator), line)
  {
    var joined := Join(lines, separator);
    if |lines| == 1 {
      assert joined == "" + line + "";
    } else if line == lines[0] {
      assert joined == "" + line + (separator + Join(lines[1..], separator));
    } else {
      JoinContains(lines[1..], separator, line);
      var before, after :| Join(lines[1..], separator) == before + line + after;
      assert joined == (lines[0] + separator + before) + line + after;
    }
  }

  lemma LineIsInBlock(stage: Stage, s: Snapshot, settings: Settings, paths: Paths, around: Surroundings, line: string)
    requires line in PromptLines(stage, s, settings, paths, around)
    ensures Contains(ContextBlock(stage, s, settings, paths, around), line)
  {
    var lines := PromptLines(stage, s, settings, paths, around);
    JoinContains(lines, "\n", line);
    var before, after :| Join(lines, "\n") == before + line + after;
    assert ContextBlock(stage, s, settings, paths, around) == before + line + (after + "\n");
  }

  lemma LineHasFile(text: string, s: Snapshot, sender: Stage)
    requires sender in s.open && Contains(text, NamingLine(s, sender))
    ensures Contains(text, s.open[sender])
  {
    if s.review == s.open[sender] {
      ContainsPart(text, AddressLine(s.open[sender]), "Review to address: ", s.open[sender]);
    } else {
      ContainsPart(text, AfterLine(sender, s.open[sender]), "After a send-back by " + StageName(sender) + ": ", s.open[sender]);
    }
  }

  // In every run, each stage's prompt names the file of every send-back open while it runs,
  // and gives a writer the review it has to address.
  lemma PromptNamesOpenSendbacks(
    states: seq<Snapshot>, steps: seq<Step>, settings: Settings, paths: Paths, around: Surroundings, i: nat)
    requires IsFreshRun(states, steps, paths, settings) && i <= |steps| && states[i].place.At?
    ensures var s := states[i];
            var block := ContextBlock(s.place.stage, s, settings, paths, around);
            && (forall sender :: sender in s.open ==>
                  Contains(block, NamingLine(s, sender)) && Contains(block, s.open[sender]))
            && (s.review != "" ==> Contains(block, AddressLine(s.review)))
  {
    var s := states[i];
    var stage := s.place.stage;
    RunsPassNothingOver(states, steps, paths, settings, i);
    forall sender | sender in s.open
      ensures Contains(ContextBlock(stage, s, settings, paths, around), NamingLine(s, sender))
      ensures Contains(ContextBlock(stage, s, settings, paths, around), s.open[sender])
    {
      assert sender in SENDERS;
      if s.review != s.open[sender] {
        SenderIsListed(SENDERS, s, paths, around.changed, sender);
      }
      LastLinesAreIn(stage, s, settings, paths, around, NamingLine(s, sender));
      LineIsInBlock(stage, s, settings, paths, around, NamingLine(s, sender));
      LineHasFile(ContextBlock(stage, s, settings, paths, around), s, sender);
    }
    if s.review != "" {
      LastLinesAreIn(stage, s, settings, paths, around, AddressLine(s.review));
      LineIsInBlock(stage, s, settings, paths, around, AddressLine(s.review));
    }
  }

  lemma ContainsPart(text: string, part: string, mark: string, file: string)
    requires Contains(text, part) && part == mark + file
    ensures Contains(text, file)
  {
    var before, after :| text == before + part + after;
    assert text == (before + mark) + file + after;
  }

  // After a request for changes and after a send-back, the next prompt gives the writer the
  // file that was just written, by name.
  lemma NextPromptNamesTheReview(
    s: Snapshot, step: Step, t: Snapshot, settings: Settings, paths: Paths, around: Surroundings)
    requires Follows(s, step, t, paths, settings) && step.report.status in {ChangesRequested, SendBack}
    ensures t.place.At?
    ensures var stage := s.place.stage;
            var file := if step.report.status == ChangesRequested then ReviewFile(stage, s.rounds.Of(PairOf(stage)), paths)
                        else SendbackFile(stage, s.rounds.Of(EarlierPair(stage).value) + 1, paths);
            Contains(ContextBlock(t.place.stage, t, settings, paths, around), "Review to address: " + file)
  {
    StepHandsOver(s, step, t, paths, settings);
    var stage := s.place.stage;
    if step.report.status == ChangesRequested {
      ReviewFileNonempty(stage, s.rounds.Of(PairOf(stage)), paths);
    } else {
      SendbackFileNonempty(stage, s.rounds.Of(EarlierPair(stage).value) + 1, paths);
    }
    LastLinesAreIn(t.place.stage, t, settings, paths, around, AddressLine(t.review));
    LineIsInBlock(t.place.stage, t, settings, paths, around, AddressLine(t.review));
  }

  // A reviewer with a writer is told to write to the very file its verdict is recorded in,
  // and every stage with a pair before it to the file a send-back of its would name.
  lemma PromptNamesTheFilesOwed(s: Snapshot, settings: Settings, paths: Paths, around: Surroundings)
    requires s.place.At?
    ensures var stage := s.place.stage;
            var block := ContextBlock(stage, s, settings, paths, around);
            && (NamesReview(CountersOf(s), Approved) ==>
                  && Contains(block, "Write your review to: " + ReviewPath(stage, s, paths))
                  && FilesNamed(s, Approved, paths) == {ReviewPath(stage, s, paths)})
            && (EarlierPair(stage).Some? ==>
                  && Contains(block, "Send-back file, if you send work back: " + SendbackPath(stage, s, paths))
                  && SendbackPath(stage, s, paths) in FilesNamed(s, SendBack, paths))
  {
    var stage := s.place.stage;
    if NamesReview(CountersOf(s), Approved) {
      OwedLinesAreIn(stage, s, settings, paths, around);
      LineIsInBlock(stage, s, settings, paths, around, "Write your review to: " + ReviewPath(stage, s, paths));
    }
    if EarlierPair(stage).Some? {
      OwedLinesAreIn(stage, s, settings, paths, around);
      LineIsInBlock(stage, s, settings, paths, around, "Send-back file, if you send work back: " + SendbackPath(stage, s, paths));
    }
  }

  lemma OwedLinesAreIn(stage: Stage, s: Snapshot, settings: Settings, paths: Paths, around: Surroundings)
    ensures RoleOf(stage) == Reviewer && HasWriter(stage) ==>
              "Write your review to: " + ReviewPath(stage, s, paths) in PromptLines(stage, s, settings, paths, around)
    ensures EarlierPair(stage).Some? ==>
              "Send-back file, if you send work back: " + SendbackPath(stage, s, paths)
              in PromptLines(stage, s, settings, paths, around)
  {
  }

  // The changed paths listed are those outside the reviews folder, in their order.
  lemma {:induction false} OutsideExactly(changed: seq<string>, paths: Paths, path: string)
    ensures path in Outside(changed, paths) <==> path in changed && !(paths.reviews + "/" <= path)
  {
    if changed != [] {
      OutsideExactly(changed[1..], paths, path);
    }
  }

  lemma {:induction false} OutsideOfSum(a: seq<string>, b: seq<string>, paths: Paths)
    ensures Outside(a + b, paths) == Outside(a, paths) + Outside(b, paths)
  {
    if a == [] {
      assert a + b == b;
    } else {
      assert (a + b)[1..] == a[1..] + b;
      OutsideOfSum(a[1..], b, paths);
    }
  }

  // What a line may say of a sender whose send-back is open: its file, unless that is the review
  // to address, and the first forty paths changed since, if there are any.
  ghost predicate SaysOf(sender: Stage, s: Snapshot, paths: Paths, changed: map<Stage, seq<string>>, line: string) {
    && sender in s.open && s.open[sender] != ""
    && var since := Outside(if sender in changed then changed[sender] else [], paths);
       || (s.review != s.open[sender] && line == "After a send-back by " + StageName(sender) + ": " + s.open[sender])
       || (since != [] && line == "Changed since the send-back by " + StageName(sender) + ": "
                                  + Join(since[..if |since| < 40 then |since| else 40], " "))
  }

  // The lines about send-backs are exactly these.
  lemma {:induction false} ListedExactly(
    senders: seq<Stage>, s: Snapshot, paths: Paths, changed: map<Stage, seq<string>>, line: string)
    ensures line in LinesOf(senders, s, paths, changed)
            <==> exists sender :: sender in senders && SaysOf(sender, s, paths, changed, line)
  {
    if senders != [] {
      var n := |senders| - 1;
      ListedExactly(senders[..n], s, paths, changed, line);
      LinesSay(senders[n], s, paths, changed, line);
      assert senders == senders[..n] + [senders[n]];
    }
  }

  lemma LinesSay(sender: Stage, s: Snapshot, paths: Paths, changed: map<Stage, seq<string>>, line: string)
    ensures line in LinesFor(sender, s, paths, changed) <==> SaysOf(sender, s, paths, changed, line)
  {
    var since := Outside(if sender in changed then changed[sender] else [], paths);
    if |since| <= 40 {
      assert since[..|since|] == since;
    }
  }

  // A first pass is in the pair's first round, with no review to address and nothing sent back
  // but what a writer sent back itself.
  ghost predicate IsFirstPass(stage: Stage, s: Snapshot) {
    && s.rounds.Of(PairOf(stage)) <= 1
    && (RoleOf(stage) == Writer ==> s.review == "")
    && forall sender :: sender in s.open && s.open[sender] != "" ==> sender == stage && RoleOf(stage) == Writer
  }

  // Each prompt says which of the three passes it is and how many turns it has.
  lemma PassIsTold(stage: Stage, s: Snapshot, settings: Settings, paths: Paths, around: Surroundings, line: string)
    requires
      line == if s.rounds.Of(PairOf(stage)) >= s.final.Of(PairOf(stage))
              then "Final round: yes — " + Decimal.Str(settings.finalMaxTurns) + " turns. Follow your *Final round* rules."
              else if !IsFirstPass(stage, s)
              then "Rework pass: yes — " + Decimal.Str(settings.reworkMaxTurns) + " turns. Follow *A rework pass*."
              else "Turns: " + Decimal.Str(FirstPassTurns(stage, settings))
    ensures Contains(ContextBlock(stage, s, settings, paths, around), line)
  {
    assert IsFirstPass(stage, s) <==> !IsRework(stage, s);
    assert line == PassLine(stage, s, TurnsFor(stage, s, settings));
    PassLineIsIn(stage, s, settings, paths, around);
    LineIsInBlock(stage, s, settings, paths, around, line);
  }

  lemma PassLineIsIn(stage: Stage, s: Snapshot, settings: Settings, paths: Paths, around: Surroundings)
    ensures PassLine(stage, s, TurnsFor(stage, s, settings)) in PromptLines(stage, s, settings, paths, around)
  {
  }

  // A reviewer is told that its round is the final one exactly when a request for changes it
  // makes stops the run.
  lemma ToldWhenFinal(
    s: Snapshot, step: Step, t: Snapshot, settings: Settings, paths: Paths, around: Surroundings)
    requires Follows(s, step, t, paths, settings) && step.report.status == ChangesRequested
    ensures Stops(s, step, paths, settings)
            <==> PassLine(s.place.stage, s, TurnsFor(s.place.stage, s, settings))
                 == "Final round: yes — " + Decimal.Str(settings.finalMaxTurns) + " turns. Follow your *Final round* rules."
  {
    StepMovesCounters(s, step, t, paths, settings);
    if !IsFinalRound(s.place.stage, s) {
      assert PassLine(s.place.stage, s, TurnsFor(s.place.stage, s, settings))[0] != 'F';
    }
  }

  // Nothing else is listed: a send-back line is about a send-back that is open.
  lemma {:induction false} OnlyOpenSendbacksAreListed(
    senders: seq<Stage>, s: Snapshot, paths: Paths, changed: map<Stage, seq<string>>, line: string)
    requires line in LinesOf(senders, s, paths, changed)
    ensures exists sender :: sender in senders && sender in s.open && line in LinesFor(sender, s, paths, changed)
  {
    var last := senders[|senders| - 1];
    if line !in LinesFor(last, s, paths, changed) {
      OnlyOpenSendbacksAreListed(senders[..|senders| - 1], s, paths, changed, line);
    }
  }
}
