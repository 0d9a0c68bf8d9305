// The vocabulary of a delivery run: its stages, the files they owe, and the run state.
module Delivery {
  import Decimal
  import opened Options

  datatype Pair = Plan | Test | Code | Acceptance

  datatype Role = Writer | Reviewer

  datatype Stage =
    | PlanWriter
    | PlanReviewer
    | TestWriter
    | TestReviewer
    | CodeWriter
    | CodeReviewer
    | AcceptanceReviewer

  // Where the run is: at a stage, or done.
  datatype Place = At(stage: Stage) | Finished

  datatype Status = Done | Approved | ChangesRequested | SendBack | NeedsHuman

  // The stages in flow order; Finished comes after all seven.
  function Index(stage: Stage): (i: nat)
    ensures i < 7
  {
    match stage
    case PlanWriter => 0
    case PlanReviewer => 1
    case TestWriter => 2
    case TestReviewer => 3
    case CodeWriter => 4
    case CodeReviewer => 5
    case AcceptanceReviewer => 6
  }

  function PlaceIndex(place: Place): (i: nat)
    ensures i <= 7
  {
    match place
    case At(stage) => Index(stage)
    case Finished => 7
  }

  function PairOf(stage: Stage): Pair {
    match stage
    case PlanWriter => Plan
    case PlanReviewer => Plan
    case TestWriter => Test
    case TestReviewer => Test
    case CodeWriter => Code
    case CodeReviewer => Code
    case AcceptanceReviewer => Acceptance
  }

  function RoleOf(stage: Stage): Role {
    if stage in {PlanWriter, TestWriter, CodeWriter} then Writer else Reviewer
  }

  predicate HasWriter(stage: Stage) {
    PairOf(stage) != Acceptance
  }

  function WriterOf(pair: Pair): Stage
    requires pair != Acceptance
  {
    match pair
    case Plan => PlanWriter
    case Test => TestWriter
    case Code => CodeWriter
  }

  function ReviewerOf(pair: Pair): Stage {
    match pair
    case Plan => PlanReviewer
    case Test => TestReviewer
    case Code => CodeReviewer
    case Acceptance => AcceptanceReviewer
  }

  function NextStage(stage: Stage): Place {
    match stage
    case PlanWriter => At(PlanReviewer)
    case PlanReviewer => At(TestWriter)
    case TestWriter => At(TestReviewer)
    case TestReviewer => At(CodeWriter)
    case CodeWriter => At(CodeReviewer)
    case CodeReviewer => At(AcceptanceReviewer)
    case AcceptanceReviewer => Finished
  }

  // The pair a stage sends work back to; the plan pair has none.
  function EarlierPair(stage: Stage): (earlier: Option<Pair>)
    ensures earlier.Some? ==> earlier.value != Acceptance
  {
    match PairOf(stage)
    case Plan => None
    case Test => Some(Plan)
    case Code => Some(Test)
    case Acceptance => Some(Code)
  }

  function PairName(pair: Pair): string {
    match pair
    case Plan => "plan"
    case Test => "test"
    case Code => "code"
    case Acceptance => "acceptance"
  }

  function StageName(stage: Stage): string {
    PairName(PairOf(stage)) + (if RoleOf(stage) == Writer then "-writer" else "-reviewer")
  }

  datatype Paths = Paths(
    key: string,
    planDir: string,
    issueCopy: string,
    plan: string,
    redReport: string,
    greenReport: string,
    proof: string,
    answers: string,
    reviews: string,
    evidence: string)

  datatype Settings = Settings(
    maxRounds: nat,
    maxSendbacks: nat,
    maxTurns: Option<nat>,
    reworkMaxTurns: nat,
    finalMaxTurns: nat)

  // A counter for each pair: the keys of the program's dict never change.
  datatype Rounds = Rounds(plan: nat, test: nat, code: nat, acceptance: nat) {
    function Of(pair: Pair): nat {
      match pair
      case Plan => plan
      case Test => test
      case Code => code
      case Acceptance => acceptance
    }

    function With(pair: Pair, n: nat): Rounds {
      match pair
      case Plan => this.(plan := n)
      case Test => this.(test := n)
      case Code => this.(code := n)
      case Acceptance => this.(acceptance := n)
    }
  }

  // A counter for each pair that can be sent back to.
  datatype Sendbacks = Sendbacks(plan: nat, test: nat, code: nat) {
    function Of(pair: Pair): nat
      requires pair != Acceptance
    {
      match pair
      case Plan => plan
      case Test => test
      case Code => code
    }

    function PlusOne(pair: Pair): Sendbacks
      requires pair != Acceptance
    {
      match pair
      case Plan => this.(plan := plan + 1)
      case Test => this.(test := test + 1)
      case Code => this.(code := code + 1)
    }
  }

  // The fields of the saved state that the machine moves.
  datatype Snapshot = Snapshot(
    place: Place,
    review: string,
    rounds: Rounds,
    final: Rounds,
    sendbacks: Sendbacks,
    open: map<Stage, string>,
    pending: map<Pair, string>)

  function Fresh(maxRounds: nat): Snapshot {
    Snapshot(
      At(PlanWriter),
      "",
      Rounds(1, 1, 1, 1),
      Rounds(maxRounds, maxRounds, maxRounds, maxRounds),
      Sendbacks(0, 0, 0),
      map[],
      map[Test := "", Code := ""])
  }

  predicate IsFinalRound(stage: Stage, s: Snapshot) {
    s.rounds.Of(PairOf(stage)) >= s.final.Of(PairOf(stage))
  }

  predicate IsRework(stage: Stage, s: Snapshot) {
    || s.rounds.Of(PairOf(stage)) > 1
    || (RoleOf(stage) == Writer && s.review != "")
    || exists sender :: sender in s.open && s.open[sender] != "" && !(sender == stage && RoleOf(stage) == Writer)
  }

  // --- file names -------------------------------------------------------------

  function Numbered(mark: string, n: nat): string {
    mark + (Decimal.Str(n) + ".md")
  }

  function StageFile(stage: Stage, ending: string, paths: Paths): string {
    (paths.reviews + "/") + (StageName(stage) + ending)
  }

  function ReviewFile(stage: Stage, n: nat, paths: Paths): string {
    StageFile(stage, Numbered("-", n), paths)
  }

  function SendbackFile(stage: Stage, n: nat, paths: Paths): string {
    StageFile(stage, Numbered("-sendback-", n), paths)
  }

  function ReviewPath(stage: Stage, s: Snapshot, paths: Paths): string {
    ReviewFile(stage, s.rounds.Of(PairOf(stage)), paths)
  }

  function SendbackPath(stage: Stage, s: Snapshot, paths: Paths): string
    requires EarlierPair(stage).Some?
  {
    SendbackFile(stage, s.rounds.Of(EarlierPair(stage).value) + 1, paths)
  }

  function WriterOutput(stage: Stage, paths: Paths): Option<string> {
    match stage
    case PlanWriter => Some(paths.plan)
    case TestWriter => Some(paths.redReport)
    case CodeWriter => Some(paths.greenReport)
    case _ => None
  }

  lemma PrefixCancels(a: string, b: string, c: string)
    requires a + b == a + c
    ensures b == c
  {
    assert b == (a + b)[|a|..];
    assert c == (a + c)[|a|..];
  }

  lemma SuffixCancels(a: string, b: string, c: string)
    requires a + c == b + c
    ensures a == b
  {
    assert a == (a + c)[..|a + c| - |c|];
    assert b == (b + c)[..|b + c| - |c|];
  }

  // A stage's name is settled by its first letter and its sixth, so names differ inside
  // their common length and what follows them cannot make them alike.
  lemma StageNameSettles(s: Stage, t: Stage, a: string, b: string)
    requires StageName(s) + a == StageName(t) + b
    ensures s == t && a == b
  {
    assert (StageName(s) + a)[0] == StageName(s)[0] && (StageName(t) + b)[0] == StageName(t)[0];
    assert (StageName(s) + a)[5] == StageName(s)[5] && (StageName(t) + b)[5] == StageName(t)[5];
    assert s == t;
    PrefixCancels(StageName(s), a, b);
  }

  lemma StageFileSettles(s: Stage, t: Stage, a: string, b: string, paths: Paths)
    requires StageFile(s, a, paths) == StageFile(t, b, paths)
    ensures s == t && a == b
  {
    PrefixCancels(paths.reviews + "/", StageName(s) + a, StageName(t) + b);
    StageNameSettles(s, t, a, b);
  }

  lemma NumberSettles(mark: string, m: nat, n: nat)
    requires Numbered(mark, m) == Numbered(mark, n)
    ensures m == n
  {
    PrefixCancels(mark, Decimal.Str(m) + ".md", Decimal.Str(n) + ".md");
    SuffixCancels(Decimal.Str(m), Decimal.Str(n), ".md");
    Decimal.StrInjective(m, n);
  }

  lemma ReviewFilesDiffer(s: Stage, t: Stage, m: nat, n: nat, paths: Paths)
    requires ReviewFile(s, m, paths) == ReviewFile(t, n, paths)
    ensures s == t && m == n
  {
    StageFileSettles(s, t, Numbered("-", m), Numbered("-", n), paths);
    NumberSettles("-", m, n);
  }

  lemma SendbackFilesDiffer(s: Stage, t: Stage, m: nat, n: nat, paths: Paths)
    requires SendbackFile(s, m, paths) == SendbackFile(t, n, paths)
    ensures s == t && m == n
  {
    StageFileSettles(s, t, Numbered("-sendback-", m), Numbered("-sendback-", n), paths);
    NumberSettles("-sendback-", m, n);
  }

  // A review's number starts with a digit where a send-back's mark has a letter.
  lemma KindsDiffer(s: Stage, t: Stage, m: nat, n: nat, paths: Paths)
    ensures ReviewFile(s, m, paths) != SendbackFile(t, n, paths)
  {
    assert Numbered("-", m)[1] == Decimal.Str(m)[0] != 's';
    assert Numbered("-sendback-", n)[1] == 's';
    if ReviewFile(s, m, paths) == SendbackFile(t, n, paths) {
      StageFileSettles(s, t, Numbered("-", m), Numbered("-sendback-", n), paths);
    }
  }

  // The flow: plan, test, code and acceptance, each pair's writer before its reviewer; and work is
  // sent back from a pair to the one its flow came from.
  lemma FlowIsInOrder(stage: Stage)
    ensures PlaceIndex(NextStage(stage)) == Index(stage) + 1
    ensures Index(WriterOf(Plan)) == 0 && Index(WriterOf(Test)) == 2 && Index(WriterOf(Code)) == 4
    ensures HasWriter(stage) ==> NextStage(WriterOf(PairOf(stage))) == At(ReviewerOf(PairOf(stage)))
    ensures HasWriter(stage) ==> (stage == WriterOf(PairOf(stage)) <==> RoleOf(stage) == Writer)
    ensures stage == ReviewerOf(PairOf(stage)) <==> RoleOf(stage) == Reviewer
    ensures EarlierPair(stage).None? <==> stage in {PlanWriter, PlanReviewer}
    ensures EarlierPair(stage).Some? ==>
              NextStage(ReviewerOf(EarlierPair(stage).value))
              == At(if HasWriter(stage) then WriterOf(PairOf(stage)) else AcceptanceReviewer)
  {
  }

  // A stage's files, spelled out.
  lemma FileNamesAre(stage: Stage, n: nat, paths: Paths)
    ensures ReviewFile(stage, n, paths) == paths.reviews + "/" + StageName(stage) + "-" + Decimal.Str(n) + ".md"
    ensures SendbackFile(stage, n, paths) == paths.reviews + "/" + StageName(stage) + "-sendback-" + Decimal.Str(n) + ".md"
  {
  }

  lemma WriterNamesAre()
    ensures StageName(PlanWriter) == "plan-writer"
    ensures StageName(TestWriter) == "test-writer"
    ensures StageName(CodeWriter) == "code-writer"
  {
  }

  lemma ReviewerNamesAre()
    ensures StageName(PlanReviewer) == "plan-reviewer"
    ensures StageName(TestReviewer) == "test-reviewer"
    ensures StageName(CodeReviewer) == "code-reviewer"
    ensures StageName(AcceptanceReviewer) == "acceptance-reviewer"
  {
  }
}
