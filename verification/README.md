# CollabHub, verified

A Dafny model of the parts of CollabHub whose correctness is spread over whole runs rather
than over one function: the delivery state machine, the Redis Streams consumer, refresh-token
rotation, the display-name rules, cursor pagination and the pages built on it, UUID v7
minting, and two caches that must not fetch too often. Code that changes state in place is a
class or a method proved against a function on values; the promises are then proved of those
functions over every run.

| files | what they model |
|---|---|
| `Delivery`, `Machine`, `MachineRuns`, `MachineSafety`, `Prompt`, `Runner` | the seven delivery stages: what each verdict does to the run state, how long runs are, which files they name, what cannot be lost, what each stage is told |
| `Consumer`, `ConsumerRuns`, `ConsumerBurials`, `ConsumerLoop` | producers, any number of consumers, crashes and redeliveries as atomic Redis steps; the runs in which a job is dead-lettered too early; and the consumer's own loops, whose commands are always such a run |
| `Sessions`, `SessionRuns` | refresh tokens: spending, rotation, replay detection, logout, removal from a workspace |
| `Names`, `Dedupe` | stored form, repair, suffix candidates, and giving every row a name of its own |
| `Utf8`, `Base64Url`, `Cursor`, `UuidText`, `Keyset`, `Messages`, `Search` | the cursor's printer and parser, exact keyset walks while rows come and go, single-level threads, search paging |
| `Uuid7` | the clock, the counter and the layout of section 5.7 of RFC 9562 |
| `Jwks`, `Directory` | the verification-key cache and the workspace directory tracker |
| `Options`, `Decimal`, `Division`, `Sets` | shared vocabulary: an optional value, decimal printing, quotients, and sizes of sets |

## What the proofs found

- **A job can be dead-lettered for its attempts too early.** `consumer.py` opens by promising
  that an entry goes to the dead stream once delivered more than `max_attempts` times. A
  claimed entry missing from the page of counts is taken for one past the limit, and it is
  missing in two ways. Another entry pending between two claimed ones takes the last one's
  place: `ConsumerBurials.CrowdedPageBuries` does it from any such state, and
  `AnUnfinishedJobCanBeBuried` reaches one, where a job whose handler was never started is
  dead-lettered on its second delivery of five. And an entry acknowledged between the claim and
  the count is not pending: in `AFinishedJobCanBeBuried` a finished job is dead-lettered on its
  second delivery of five. These two are all: `ConsumerRuns.AttemptsAreJudgedByThePage` says
  that an entry is dead-lettered for its attempts exactly when it was delivered too often or is
  off the page, and `PageCoversExactly` that none is off the page exactly when every claimed
  entry is still pending and nothing else is pending in the range they span.
- **A fetch of keys that is cut short leaves no trace.** A cancelled call, or an error outside
  the three caught classes, leaves `_fetched_at` and `_retry_at` as they were, so the next
  scheduled fetch may follow at once: exactly then (`Jwks.SpacingFailsOnlyAfterACut`), and as
  often as it happens (`Jwks.EveryFetchAfterACutGoes`). Kid-miss fetches keep their distance
  even so.
- **The kid-miss floor has no mark at time zero.** The mark 0.0 also means "never", so two
  kid-miss fetches may be closer than the minimum exactly when the first started at 0.0
  (`Jwks.MissFloorFailsOnlyAtZero`).
- **An id that nothing names can cost any number of refetches.** `docs/design/06-frontend-spa.md:319-321`
  promises that a departed id asks for nothing more until a fetch for another reason lands.
  The query client tries a failed fetch once more (`src/frontend/src/main.tsx:15-25`), and that
  try is no longer taken for the tracker's own: when it lands it empties the departed ids, and
  the next render asks again. `Directory.AnUnnamedIdCanCostAnyNumber` is such a run, from a new
  tracker, for every number of refetches. The promise fails exactly there:
  `Directory.DepartedUntilCleared` says that a departed id stays so until a landing that is for
  another reason, or marked, or that continues an own fetch (a retry, or a fetch held back
  while offline), and `Directory.UnnamedIdsCostOneFetchEach` that each id costs at most one own
  refetch and one more for each such landing. With no such continuation the promise holds
  (`Directory.WithoutRetriesOneFetchIsEnough`).
- **The delivery bound is exact.** With R rounds and K send-backs allowed a pair, a run with no
  human stop takes at most 7 + 6(R - 1) + 21K stages, and for every R and K some run takes
  exactly that many. Each human stop adds at most 8.
- **A parked review is handed over once, whatever its writer does with it.** If that writer then
  sends work back instead of answering it, the review is not handed over again when the flow
  returns; only its file remains (`MachineSafety.ParkedReviewIsHandedOverOnce`).
- **A suffix can outgrow the limit.** From 10^98 on, a suffix leaves no room for a character of
  the name, and the candidate is too long or starts with a space. `Dedupe.NamesAreStored` says
  that every name passes the rules in stored form exactly when every number given stays below
  that, which is always so while the number of rows plus two does.

## Model

| member | source | states |
|---|---|---|
| Delivery.ReviewFilesDiffer | tools/delivery/delivery/run/machine.py:83-85 | two review files are the same only for the same stage and round, whatever the reviews folder is called |
| Delivery.SendbackFilesDiffer | tools/delivery/delivery/run/machine.py:88-93 | the same for send-back files |
| Delivery.KindsDiffer | tools/delivery/delivery/run/machine.py:83-93 | no review file is ever a send-back file |
| Delivery.FlowIsInOrder | tools/delivery/delivery/run/machine.py:17-57 | the flow goes plan, test, code, acceptance, each writer before its reviewer, and work is sent back to the pair the flow came from |
| Delivery.FileNamesAre | tools/delivery/delivery/run/machine.py:83-93 | the review and send-back files, spelled out |
| Delivery.ReviewerNamesAre | tools/delivery/delivery/run/machine.py:17-25 | and with the reviewers' names in them |
| Machine.State.constructor | tools/delivery/delivery/run/state.py:43-50 | a fresh run: every pair in round one, final at the limit, nothing open, nothing pending |
| Machine.State.NewRound | tools/delivery/delivery/run/machine.py:312-317 | the pair's round goes up by one and its final round is pushed beyond it |
| Machine.State.WriterDone | tools/delivery/delivery/run/machine.py:198-203 | the whole new state, or the missing output it fails on |
| Machine.State.Approve | tools/delivery/delivery/run/machine.py:206-229 | the whole new state, a parked review handed to the writer ahead, or the file it fails on |
| Machine.State.RequestChanges | tools/delivery/delivery/run/machine.py:232-263 | the whole new state, with a human stop exactly in the final round or past it, or the error |
| Machine.State.HandBack | tools/delivery/delivery/run/machine.py:280-299 | the earlier pair's new round and count, the reviewer's own review parked and its own round, and the open send-back, over all seven fields, or the missing review |
| Machine.State.SendWorkBack | tools/delivery/delivery/run/machine.py:266-309 | the whole new state, with a human stop past the allowed send-backs, or the error |
| Machine.State.Advance | tools/delivery/delivery/run/machine.py:129-167 | closes the stage's own send-back, then moves as the verdict says or fails as it says |
| Machine.AdvanceAgreesWithMissingOutputs | tools/delivery/delivery/run/machine.py:129-195 | for every state and every verdict: a permitted one is taken exactly when nothing it owes is missing, and otherwise fails on the first file missing; any other verdict is refused |
| Machine.VerdictsAre | tools/delivery/delivery/run/machine.py:148-166 | which stage may give which verdict, stage by stage |
| Machine.FailuresAre | tools/delivery/delivery/run/machine.py:148-293 | a refused verdict fails for what it is, and any other failure names a file that is not there, or a proof that is there but not of this pass |
| MachineRuns.StepMovesCounters | tools/delivery/delivery/run/machine.py:129-167 | only permitted verdicts are taken, and where they lead and whether they stop depends on the round counters alone |
| MachineRuns.VerdictUsesStages | tools/delivery/delivery/run/machine.py:232-317 | every verdict uses up one of the stages left, or stops for a human and gives back at most seven |
| MachineRuns.FreshRunsEnd | tools/delivery/delivery/run/machine.py:129-317 | every run from a fresh state takes at most 7 + 6(R - 1) + 21K stages and 8 for each human stop |
| MachineRuns.BoundIsMet | tools/delivery/delivery/run/machine.py:129-317 | for every R and K some run with no stop reaches done in exactly that many stages |
| MachineRuns.StubbornStep | tools/delivery/delivery/run/machine.py:232-317 | disputing and sending back as often as allowed never stops for a human and wastes no stage |
| MachineSafety.UnstoppedRunsStayWithinFinal | tools/delivery/delivery/run/machine.py:244-259 | while nothing has stopped for a human, no pair is past its final round |
| MachineSafety.SendBackNeverLandsInFinalRound | tools/delivery/delivery/run/machine.py:280-298 | after a send-back the pair that takes the work, and a reviewer's own pair, have an ordinary review ahead, and the pass is a rework pass |
| MachineSafety.StepHandsOver | tools/delivery/delivery/run/machine.py:198-299 | what the next stage is handed: after a request for changes the very review file the verdict names, after a send-back its file, after an approval the review parked for that writer, after done nothing |
| MachineSafety.StepTells | tools/delivery/delivery/run/machine.py:112-167 | the loop is told to stop exactly when a human is to be asked, with the stage, the round and the reason; to take a snapshot exactly on a send-back; to drop one exactly when the stage's own send-back was open |
| MachineSafety.OutputsAreThere | tools/delivery/delivery/run/machine.py:96-102 | a writer is done only with its own report there, and the proof is accepted only when this pass wrote it |
| MachineSafety.SpentForever | tools/delivery/delivery/run/machine.py:83-85 | a review number once used stays below the pair's round, or equals it with the flow past the reviewer |
| MachineSafety.SpentMeansUsed | tools/delivery/delivery/run/machine.py:83-85 | in every fresh run the review numbers a pair has used are exactly those below its round, and its round too exactly when the flow is past its reviewer |
| MachineSafety.NoFileIsNamedTwice | tools/delivery/delivery/run/machine.py:83-93 | over a whole run, stops and resumes included, no two verdicts name the same review or send-back file |
| MachineSafety.NamedFilesAreThere | tools/delivery/delivery/run/machine.py:206-293 | every file a verdict names was in the worktree when it was taken |
| MachineSafety.PassedOnlyByApproval | tools/delivery/delivery/run/machine.py:206-229 | where a run stands past a reviewer, that reviewer approved and the flow has stayed past it since |
| MachineSafety.RunsPassNothingOver | tools/delivery/delivery/run/machine.py:143-146 | in every run, each open send-back is by a stage not yet passed, each parked review waits for a writer ahead, and only a writer has a review to address |
| MachineSafety.DoneLeavesNothingOpen | tools/delivery/delivery/run/machine.py:221-229 | done is reached only with no open send-back, no parked review, and every pair's last pass approved |
| MachineSafety.SendbackStaysOpen | tools/delivery/delivery/run/machine.py:296-299 | a send-back stays open under its own file, with the flow not past its sender, until the sender runs again |
| MachineSafety.ParkedReviewIsHandedOverOnce | tools/delivery/delivery/run/machine.py:221-229 | a parked review overwrites none, waits unchanged, and reaches its own writer by one approval and never again |
| Prompt.SendbackLines | tools/delivery/delivery/run/context.py:91-107 | the lines about open send-backs, in the senders' order |
| Prompt.PromptNamesOpenSendbacks | tools/delivery/delivery/run/context.py:60-107 | in every run the prompt of every stage contains the file of every send-back open while it runs, in its line, and the review its writer has to address |
| Prompt.NextPromptNamesTheReview | tools/delivery/delivery/run/context.py:61-62 | after a request for changes and after a send-back, the next prompt says "Review to address:" and the file the verdict was written to |
| Prompt.PromptNamesTheFilesOwed | tools/delivery/delivery/run/context.py:85-88 | a reviewer is told to write to the file its verdict is recorded in, and a stage that may send work back is told the file that names |
| Prompt.PassIsTold | tools/delivery/delivery/run/context.py:77-82 | every prompt says whether the pass is a final round, a rework pass or a first one, and its turns |
| Prompt.ToldWhenFinal | tools/delivery/delivery/run/context.py:77-79 | a reviewer is told its round is final exactly when a request for changes it makes stops the run |
| Prompt.OnlyOpenSendbacksAreListed | tools/delivery/delivery/run/context.py:91-107 | no line is about a sender whose send-back is not open |
| Prompt.ListedExactly | tools/delivery/delivery/run/context.py:91-107 | the lines are exactly: for each open send-back its file, unless that is the review to address, and the first forty paths changed since, if any |
| Prompt.OutsideExactly | tools/delivery/delivery/run/context.py:102 | the changed paths are those outside the reviews folder |
| Runner.RunStage | tools/delivery/delivery/run/__init__.py:588-663 | one stage either leads where its verdict does and stops when it does, or fails as it does |
| Runner.Loop | tools/delivery/delivery/run/__init__.py:558-586 | what is saved is always the last state of a run; done exactly when the run says so, one stop ends it, a failed stage leaves the saved state as it was, and the steps are counted |
| Consumer.StepIsConsistent | src/services/worker/worker/consumer.py:174-283 | every command of any consumer keeps the stream, the pending list, the delivery counts and what consumers hold in agreement |
| ConsumerRuns.NoJobIsLost | src/services/worker/worker/consumer.py:174-283 | for every interleaving, outcome and crash: an entry ever added is in the stream, unread or pending, or a handler returned on it, or it is dead with its own data |
| ConsumerRuns.HandlerStartsAreBounded | src/services/worker/worker/consumer.py:83-115 | across all consumers a handler is started at most `max_attempts` times on an entry, counted over the events |
| ConsumerRuns.PastTheLimitIsBuried | src/services/worker/worker/consumer.py:105-109 | a delivery past the limit is never run: it is dead-lettered, acknowledged and deleted, for its attempts unless it is malformed |
| ConsumerRuns.BeginRunsExactly | src/services/worker/worker/consumer.py:83-115 | the next entry in hand is run exactly when it is a job, has deliveries left and has a handler; and each reason to dead-letter it applies exactly when the ones before it do not and it does |
| ConsumerRuns.JobsDecode | src/services/worker/worker/consumer.py:101-104 | an entry is a job exactly when it has a data field that decodes |
| ConsumerRuns.CoveredJobIsStarted | src/services/worker/worker/consumer.py:83-115 | in a run whose pages cover what was claimed, a job of a handled type taken up on one of its first `max_attempts` deliveries is started |
| ConsumerRuns.FailureLeavesPending | src/services/worker/worker/consumer.py:238-249 | a handler's failure leaves its entry in the stream and pending, to be reclaimed |
| ConsumerRuns.EndingsAre | src/services/worker/worker/consumer.py:233-283 | a refusal dead-letters the entry with the handler's reason; a return acknowledges and deletes it and nothing else |
| ConsumerRuns.DeadLettersTell | src/services/worker/worker/consumer.py:83-115 | in every run each dead letter carries its entry's data, and its reason is the first that applies to the entry and the count it was given |
| ConsumerRuns.StepIsSafe | src/services/worker/worker/consumer.py:174-283 | one step keeps all of this, with any number of consumers in any phase |
| ConsumerRuns.AttemptsAreJudgedByThePage | src/services/worker/worker/consumer.py:203-219 | a reclaimed job is dead-lettered for its attempts exactly when delivered too often or missing from the page of counts |
| ConsumerRuns.PageCoversExactly | src/services/worker/worker/consumer.py:211-219 | the page holds every claimed entry exactly when all are still pending and nothing else is pending in the range they span |
| ConsumerRuns.PageCanMissTheLast | src/services/worker/worker/consumer.py:211-219 | any other pending entry in the range of any claim pushes the last claimed one off the page |
| ConsumerRuns.CoveredRunsAreHonest | src/services/worker/worker/consumer.py:203-219 | in a run whose pages cover what was claimed, dead-lettered for its attempts means delivered more than `max_attempts` times |
| ConsumerBurials.CrowdedPageBuries | src/services/worker/worker/consumer.py:203-219 | wherever two pending entries can be claimed with a third between them, the next steps of one consumer can dead-letter the last for its attempts, however few, without starting its handler |
| ConsumerBurials.AnUnfinishedJobCanBeBuried | src/services/worker/worker/consumer.py:203-219 | a reachable state in which a job never started is dead-lettered for its attempts on its second delivery of five |
| ConsumerBurials.AFinishedJobCanBeBuried | src/services/worker/worker/consumer.py:203-206 | a reachable state in which a finished job is dead-lettered for its attempts on its second delivery of five |
| ConsumerLoop.StreamConsumer.Process | src/services/worker/worker/consumer.py:221-251 | with anything in between, exactly the commands of triage and of the handler's ending are sent, and the delivery ends as they say |
| ConsumerLoop.StreamConsumer.ProcessAll | src/services/worker/worker/consumer.py:182-187 | every entry in hand is processed in order; some are left only over new entries, after the first, and only if a stop came meanwhile |
| ConsumerLoop.StreamConsumer.RunHandler | src/services/worker/worker/consumer.py:233-251 | what is sent for each way a handler ends |
| ConsumerLoop.StreamConsumer.ReadNew | src/services/worker/worker/consumer.py:174-187 | what is read is on its first delivery and processed in order; entries are left pending only if a stop came between two, and with the stop set throughout just one is processed |
| ConsumerLoop.StreamConsumer.TakeClaimed | src/services/worker/worker/consumer.py:189-219 | what a claim puts in hand, with the counts the page gave |
| ConsumerLoop.StreamConsumer.ReclaimPage | src/services/worker/worker/consumer.py:189-206 | the claim, the count and every entry of the page processed, stop or no stop |
| ConsumerLoop.StreamConsumer.Reclaim | src/services/worker/worker/consumer.py:189-209 | every page there is is claimed and processed unless a stop came, and none once it has |
| ConsumerLoop.StreamConsumer.Turn | src/services/worker/worker/consumer.py:142-150 | a reclaim when one is due, and then one read |
| ConsumerLoop.StreamConsumer.Run | src/services/worker/worker/consumer.py:135-150 | whatever else happens, the loops only ever make a run of the protocol; each turn reads once and reclaims when due, and the turns end early only if a stop came |
| Sessions.Table.Issue | src/services/auth/auth/sessions.py:42-70 | one new live row, and nothing else |
| Sessions.Table.RevokeDescendants | src/services/auth/auth/sessions.py:80-97 | on any table, circles included, the walk ends and revokes exactly the rows the chain reaches, those already revoked keeping their time |
| Sessions.Table.Spend | src/services/auth/auth/sessions.py:100-117 | the row, or why not, in the program's order; a spent token costs its chain and nothing else changes the table |
| Sessions.Table.Rotate | src/services/auth/auth/sessions.py:120-145 | a successor linked from the presented row, which is revoked |
| Sessions.Table.Refresh | src/services/auth/auth/routers/auth.py:99-133 | spending and rotating as one operation |
| Sessions.Table.RevokeRefreshToken | src/services/auth/auth/sessions.py:154-158 | exactly the row of the token presented, if known and live |
| Sessions.Table.RevokeWorkspaceSessions | src/services/auth/auth/sessions.py:161-187 | exactly the user's live rows in the workspace, none left live, and their number |
| SessionRuns.StepKeepsChains | src/services/auth/auth/sessions.py:80-187 | every operation keeps `rotated_to` acyclic and injective and every rotated row revoked |
| SessionRuns.RunsKeepChains | src/services/auth/auth/sessions.py:42-187 | so does every sequence of operations |
| SessionRuns.OneLiveRow | src/services/auth/auth/sessions.py:120-145 | in every reachable table a family has at most one live row, and it is the last |
| SessionRuns.ReplayKillsFamily | src/services/auth/auth/sessions.py:80-109 | presenting a spent token leaves no live row in its family, before or after it |
| SessionRuns.ReplayIsFinal | src/services/auth/auth/sessions.py:80-117 | from then on no row of that family, old or new, is ever live or spendable, whatever happens |
| SessionRuns.ExchangedOnce | src/services/auth/auth/sessions.py:100-145 | a token once exchanged keeps its one successor and is refused as reused for ever |
| SessionRuns.JudgedExactly | src/services/auth/auth/sessions.py:100-117 | the answer to a token in terms of its row: each of the four exactly when |
| SessionRuns.SignInExactly | src/services/auth/auth/sessions.py:42-70 | a sign-in adds the one live row of that user, workspace, token and expiry, and changes no other |
| SessionRuns.RefreshBuysASuccessor | src/services/auth/auth/sessions.py:120-145 | a refresh by a good token gives its user, in the workspace asked for, a live row under the new token for its lifetime, linked from the spent row, and changes no other |
| SessionRuns.LogOutExactly | src/services/auth/auth/sessions.py:154-158 | logging out revokes the row of the token presented and no other |
| SessionRuns.RemovalExactly | src/services/auth/auth/sessions.py:161-187 | removing a user from a workspace revokes that user's live rows of that workspace and no other |
| SessionRuns.RunsKeepTerms | src/services/auth/auth/sessions.py:42-187 | whatever happens, a row keeps its user, workspace, token and expiry, and a revoked row stays revoked |
| SessionRuns.FamilyHasOneUser | src/services/auth/auth/sessions.py:120-145 | in every reachable table all rows of a family are one user's |
| SessionRuns.AcceptedUntilItExpires | src/services/auth/auth/sessions.py:42-117 | a token once issued, by a sign-in or a refresh, is accepted exactly until its lifetime is over, as long as nothing has revoked it, whatever else happens |
| Names.PlainTextIsLawful | src/services/auth/auth/names.py:64-98 | the laws asked of the Unicode tables can be met |
| Names.CheckExactly | src/services/auth/auth/names.py:76-86 | which names pass, and which refusal each other one meets first |
| Names.StripTakesOnlySpace | src/services/auth/auth/names.py:71-73 | stripping takes the white space off both ends, all of it and nothing else |
| Names.FoldedAlikeShareAKey | src/services/auth/auth/names.py:96-98 | names share a key exactly if they are the same decomposed, folded and recomposed |
| Names.NormaliseIsIdempotent | src/services/auth/auth/names.py:71-73 | storing twice is storing once, leaves no white space at the edges and brings in no refused character |
| Names.RepairedIsStored | src/services/auth/auth/names.py:114-117 | a repaired name is empty, or passes the rules in its stored form |
| Names.ProvisionalIsStored | src/services/auth/auth/names.py:120-126 | a provisional name always passes the rules, whatever it was made from |
| Names.KeptKeepsTheRest | src/services/auth/auth/names.py:114-117 | repairing drops every refused character and keeps every other as often as it was there |
| Names.KeptOfSum | src/services/auth/auth/names.py:114-117 | and where it was |
| Names.RepairLeavesGoodNames | src/services/auth/auth/names.py:114-117 | a name that passes in its stored form is repaired to just that |
| Names.RawComesFirst | src/services/auth/auth/names.py:120-126 | the fallback is used only where nothing is left of the name, and "user" only where nothing is left of both |
| Names.CandidateKeepsBase | src/services/auth/auth/names.py:101-106 | a candidate is the whole base and its number where that fits, and otherwise the base cut so that the whole just fits |
| Names.CandidateFits | src/services/auth/auth/names.py:101-106 | a candidate fits the limit exactly when its suffix does |
| Names.CandidateIsStored | src/services/auth/auth/names.py:101-106 | a candidate of a stored name is a stored name exactly when its suffix leaves room for a character |
| Names.SuffixedKeysDiffer | src/services/auth/auth/names.py:96-106 | two suffixed candidates never share a key, however the base is cut |
| Names.Pigeonhole | src/services/auth/auth/names.py:109-111 | n taken suffixed candidates need n taken keys |
| Names.FreeNumber | src/services/auth/auth/names.py:109-111 | the first free candidate is among the first \|taken\| + 2, and all before it are taken |
| Names.FirstFree | src/services/auth/auth/names.py:109-111 | the search ends, with that candidate |
| Dedupe.Deduplicate | src/services/auth/auth/names.py:137-168 | the three passes together: the names are FinalNames, of which the rest is proved |
| Dedupe.OwnNames | src/services/auth/auth/names.py:146-154 | every row under its normalised or repaired name |
| Dedupe.Reserve | src/services/auth/auth/names.py:156-163 | the keys of the rows' own names, and the rows whose key an older row holds |
| Dedupe.AddSuffixes | src/services/auth/auth/names.py:165-168 | the duplicates renamed in order, each to the first candidate free so far |
| Dedupe.NamesAreDistinct | src/services/auth/auth/names.py:137-168 | every row is named, no two names share a key, and rows no older row shares a key with keep their name |
| Dedupe.OldestKeepsName | src/services/auth/auth/names.py:141-145 | a row keeps its own name exactly when no row with the same key was created before it, or at the same time with a smaller id |
| Dedupe.OwnNameIs | src/services/auth/auth/names.py:146-154 | a row's own name passes the rules; a stored display name is kept as it is, and one is repaired only if its stored form does not pass |
| Dedupe.LocalPartIs | src/services/auth/auth/names.py:153 | the fallback is what stands before the first at sign, or the whole address |
| Dedupe.RenamedRowKeepsItsName | src/services/auth/auth/names.py:165-168 | a row that loses its name gets it back with a number from two on, whole where it fits and otherwise cut no more than the number needs |
| Dedupe.OlderGetsTheSmallerNumber | src/services/auth/auth/names.py:146-168 | of two rows that lose the same name the older gets the smaller number |
| Dedupe.InputOrderDoesNotMatter | src/services/auth/auth/names.py:146 | the names do not depend on the order of the rows |
| Dedupe.NamesAreStored | src/services/auth/auth/names.py:137-168 | every name given passes the rules and is in stored form exactly when every number given leaves room, as it always does while the number of rows plus two is below 10^98 |
| Dedupe.SecondRunChangesNothing | src/services/auth/auth/names.py:137-168 | deduplicating what was deduplicated gives the same names, whenever every number given leaves room |
| Uuid7.Minter.Mint | src/services/shared/shared/ids.py:34-65 | the clock and counter after one call, and the value packed from them, or none past the year the field can hold |
| Uuid7.PackedIs | src/services/shared/shared/ids.py:59-63 | or-ing the fields in lays them side by side, with no bit of one reaching another |
| Uuid7.FieldsDecode | src/services/shared/shared/ids.py:59-63 | shifting and masking reads back timestamp, version 7, counter, variant 2 and random bits exactly |
| Uuid7.FitsExactly | src/services/shared/shared/ids.py:65 | the value fits 128 bits exactly when the timestamp fits 48 |
| Uuid7.ValuesIncrease | src/services/shared/shared/ids.py:42-65 | values strictly increase over any clock readings, stopped or backward clocks included (section 6.2 of RFC 9562) |
| Uuid7.TickExactly | src/services/shared/shared/ids.py:42-57 | the millisecond changes exactly when the wall clock has passed it or the counter is full, to the wall clock's or the next one, and the counter then starts at the seed drawn |
| Uuid7.NumberedFromTheSeed | src/services/shared/shared/ids.py:42-57 | so each call in a millisecond has the next number, from the seed the first drew |
| Uuid7.DriftIsBounded | src/services/shared/shared/ids.py:42-57 | after c calls the inner clock is ahead of the largest reading by at most c / 2049, and never behind it |
| Uuid7.DriftBoundIsMet | src/services/shared/shared/ids.py:42-57 | any number of milliseconds can be borrowed, at 2049 calls each |
| Utf8.RoundTrip | src/services/shared/shared/pagination.py:47-75 | every text is read back from its UTF-8 by the strict decoder |
| Utf8.PointIsSpelled | src/services/shared/shared/pagination.py:47 | each code point is as many bytes as section 3 of RFC 3629 says, with its bits spread over them |
| Utf8.AcceptsExactly | src/services/shared/shared/pagination.py:75 | the strict decoder accepts exactly what the encoder writes, and reads it as that |
| Base64Url.RepaddingRestores | src/services/shared/shared/pagination.py:48-74 | `-len % 4` gives back exactly the padding that was stripped |
| Base64Url.RoundTrip | src/services/shared/shared/pagination.py:48-75 | bytes printed without padding are read back (section 5 of RFC 4648) |
| Base64Url.SpellsTheBits | src/services/shared/shared/pagination.py:48 | the text without padding spells the bytes six bits at a time, is as long as they need, and is safe in a URL (sections 4 and 5 of RFC 4648) |
| Base64Url.AlphabetIs | src/services/shared/shared/pagination.py:48 | the symbols are those of table 2 of RFC 4648 |
| Base64Url.StraysAreSkipped | src/services/shared/shared/pagination.py:75 | the reader skips every character that is no symbol and no padding, wherever it stands |
| Cursor.RoundTrip | src/services/shared/shared/pagination.py:45-75 | a cursor gives back its parts, for every non-empty list of parts without the separator |
| Cursor.DecodesOwnCursor | src/services/shared/shared/pagination.py:63-86 | it is accepted exactly with one accepting parser a part, each giving its part; any other number is refused |
| Cursor.ReadsExactly | src/services/shared/shared/pagination.py:73-77 | any text is read as some parts exactly if it is base64url of the UTF-8 of those parts joined |
| Cursor.DecodesExactly | src/services/shared/shared/pagination.py:63-86 | any text is accepted exactly if it reads as one part a parser, each of which its parser accepts |
| Cursor.CursorIsUrlSafe | src/services/shared/shared/pagination.py:45-48 | a cursor goes into a URL as it is |
| UuidText.TextKeepsOrder | src/services/messaging/messaging/search.py:9-12 | ids in order are texts in order of characters |
| UuidText.TextSettles | src/services/messaging/messaging/search.py:9-12 | no two ids share a text |
| UuidText.TextIsCanonical | src/services/messaging/messaging/search.py:9-12 | the text is 8, 4, 4, 4 and 12 lower-case hexadecimal digits with hyphens between |
| Keyset.PageIs | src/services/shared/shared/pagination.py:100-164 | a page is the newest rows below its cursor, within the limit, with a cursor naming the last exactly when there are more |
| Keyset.PageWithCursorIsFull | src/services/shared/shared/pagination.py:152-164 | where there are more the page is full, and the next one starts below its last row |
| Keyset.WalkIsExact | src/services/shared/shared/pagination.py:152-164 | while rows come and go, a walk is in order, gives no row twice, only rows there at the time, and every row there throughout |
| Keyset.StillWalkIsWholeList | src/services/shared/shared/pagination.py:152-164 | on a table that does not change the pages add up to the whole ordered list |
| Keyset.WalkEnds | src/services/shared/shared/pagination.py:161-163 | every page but the last is full, so a walk has at most one page more than are filled by the rows there ever were while it went on |
| Keyset.StillWalkCompletes | src/services/shared/shared/pagination.py:152-164 | and every walk, as far as it has come, goes on to a page with no cursor |
| Keyset.SomeParserReads | src/services/messaging/messaging/messages.py:189 | a parser that reads back every id's text exists, so the hypothesis on `uuid.UUID` can be met |
| Messages.Store.Send | src/services/messaging/messaging/messages.py:144-185 | a row under the resolved root with the validated body and the attachments, or a refusal that changes nothing |
| Messages.Store.Edit | src/services/messaging/messaging/messages.py:264-319 | visibility, state, authorship, body, version, in that order; only the body and the version move |
| Messages.Store.Delete | src/services/messaging/messaging/messages.py:334-381 | a tombstone, once |
| Messages.SendExactly | src/services/messaging/messaging/messages.py:83-185 | a send is taken exactly when what it replies to is of this channel and it says something of allowed length, or nothing and brings attachments; and which refusal each other one meets |
| Messages.SendAddsOneRow | src/services/messaging/messaging/messages.py:144-185 | the row it adds: its text as sent, and the root of what it replies to |
| Messages.EditExactly | src/services/messaging/messaging/messages.py:264-319 | an edit is taken exactly when its author makes it, of a standing message in sight whose version it knows; and which refusal each other one meets first |
| Messages.DeleteExactly | src/services/messaging/messaging/messages.py:334-381 | a delete is taken exactly when the author or an admin makes it, of a message in sight; it leaves a tombstone with its text, and a repeat changes nothing |
| Messages.TombstonesAreWhatDeletesLeave | src/services/messaging/messaging/messages.py:334-381 | in every run the deleted messages are exactly those some permitted delete was made of |
| Messages.RowsAge | src/services/messaging/messaging/messages.py:264-381 | over any run a row keeps its channel, author, attachments and root, a tombstone does not change at all, and the same version is the same row |
| Messages.VersionCountsChanges | src/services/messaging/messaging/messages.py:306-380 | in every run a message's version is the number of times it has changed |
| Messages.RunsKeepBodies | src/services/messaging/messaging/messages.py:83-109 | in every run a stored body is not blank and within the limit, or is empty beside attachments |
| Messages.StepKeepsThreads | src/services/messaging/messaging/threads.py:73-91 | threads stay single-level and no operation moves or removes a row |
| Messages.RunsKeepThreads | src/services/messaging/messaging/threads.py:73-91 | in every run each reply's root is a top-level message of the same channel |
| Messages.RepliesAreFiledUnderTheRoot | src/services/messaging/messaging/threads.py:73-83 | a reply to a reply goes under the same root; what is not in the channel is refused |
| Messages.HistoryAndThreadsPartition | src/services/messaging/messaging/threads.py:121-142 | a channel's messages, tombstones included, are each in its history or in the replies of exactly one root of it |
| Messages.HistoryPagesAreExact | src/services/messaging/messaging/messages.py:192-222 | paging while others send, edit and delete gives every message the history held at the start, once and in order |
| Messages.ReplyPagesAreExact | src/services/messaging/messaging/threads.py:121-142 | the same for the replies of a thread |
| Search.AnswerIsKeysetRows | src/services/messaging/messaging/search.py:95-128 | sorting and seeking by the id's text selects what the keyset query would |
| Search.SearchSkipsNothing | src/services/messaging/messaging/search.py:71-80 | all pages together show exactly the candidates that survive hydration, in order and once each, even where whole pages show nothing |
| Search.SearchShowsTheMatches | src/services/messaging/messaging/search.py:71-172 | so the pages hold exactly the matches in the workspace's visible channels that the database still has there, not deleted and no reply, in order |
| Search.MovingSearchIsSound | src/services/messaging/messaging/search.py:71-80 | while index, table and visible channels change between pages, results come newest first and once each, and each was found and could be shown when its page was asked for |
| Search.MovingSearchSkipsNothing | src/services/messaging/messaging/search.py:71-80 | and every message that could be found and shown throughout comes |
| Search.OnlyVisibleIsShown | src/services/messaging/messaging/search.py:154-172 | whatever the index says, what is shown is there, not deleted, no reply and in a visible channel; and every such hit of a page is shown |
| Jwks.Client.KeyFor | src/services/shared/shared/keys.py:116-131 | at most one fetch, scheduled if stale and for a kid miss otherwise, and the answer the cache then gives, or the fetch's own error |
| Jwks.Client.Stale | src/services/shared/shared/keys.py:133-137 | due after the hard refresh, but not before the retry time |
| Jwks.Client.Refresh | src/services/shared/shared/keys.py:139-184 | the whole cache after one pass through the lock; a failure keeps the keys, and a fetch cut short raises and leaves only the kid-miss mark |
| Jwks.ScheduledFetchesAreApart | src/services/shared/shared/keys.py:133-184 | a scheduled fetch starts no sooner after any earlier fetch ended, in keys or a caught error, than the least of the two limits |
| Jwks.SpacingFailsOnlyAfterACut | src/services/shared/shared/keys.py:157-184 | from any cache, a scheduled fetch follows another within the limits exactly when the other was cut short |
| Jwks.EveryFetchAfterACutGoes | src/services/shared/shared/keys.py:133-161 | while scheduled fetches are cut short, every call's goes through, so nothing bounds them |
| Jwks.MissFetchesAreApart | src/services/shared/shared/keys.py:145-155 | kid-miss fetches, cut short or not, start at least the minimum apart, on a clock above zero |
| Jwks.MissFloorFailsOnlyAtZero | src/services/shared/shared/keys.py:152-155 | from any cache, a second kid-miss fetch inside the minimum goes through exactly when the first started at zero |
| Jwks.GoesAfterSuccess | src/services/shared/shared/keys.py:133-184 | after a success a scheduled fetch goes exactly when the hard refresh has passed since |
| Jwks.GoesAfterFailure | src/services/shared/shared/keys.py:133-184 | after a failure exactly when the minimum has passed since, and the hard refresh since the latest success |
| Jwks.GoesBeforeAnySuccess | src/services/shared/shared/keys.py:133-184 | before any success exactly when the minimum has passed since the latest failure, and at once where there is none |
| Jwks.MissGoesExactly | src/services/shared/shared/keys.py:145-155 | a kid-miss fetch goes exactly when the minimum has passed since the latest one started, or that was at time zero |
| Jwks.FetchesAreFew | src/services/shared/shared/keys.py:116-184 | whoever calls, at most 2(floor(T / min) + 1) fetches start in any stretch of time T, besides the scheduled ones cut short |
| Jwks.HeldKeysAreTheLatest | src/services/shared/shared/keys.py:157-184 | the keys held are those of the latest successful fetch, so no failure drops a key |
| Jwks.KeysAreThePublished | src/services/shared/shared/keys.py:181 | under an id is the last key published with it, and keys without an id are left out |
| Jwks.AnsweredExactly | src/services/shared/shared/keys.py:116-131 | a key is answered exactly if the latest successful fetch published it under the id; any other id is out of reach if a fetch has failed since, and unknown otherwise |
| Jwks.AnsweredBeforeAnySuccess | src/services/shared/shared/keys.py:116-131 | before any success every id is unknown, or out of reach once a fetch has failed |
| Directory.Workspace.Saw | src/frontend/src/features/channels/directoryRefresh.ts:78-95 | the new pending ids, and at most one fetch, only with data and none in flight |
| Directory.Workspace.BeginLoad | src/frontend/src/features/channels/directoryRefresh.ts:97-102 | a load is taken for the tracker's own exactly when it runs inside the call by which a render starts the refetch, so not when it retries or resumes one; and it takes a time of its own |
| Directory.Workspace.LoadFailed | src/frontend/src/features/channels/directoryRefresh.ts:107-112 | a failed refetch departs the ids seen before it |
| Directory.Workspace.LoadLanded | src/frontend/src/features/channels/directoryRefresh.ts:114-124 | what a landed fetch clears, names and departs |
| Directory.Workspace.DepartSeenBefore | src/frontend/src/features/channels/directoryRefresh.ts:62-71 | exactly the named ids leave, and exactly the earlier unnamed ones depart |
| Directory.OwnFetchesAreBounded | src/frontend/src/features/channels/directoryRefresh.ts:73-125 | in every order of renders, fetches, retries, replacements and late loads own refetches are no more than insertions into pending, and no id is both pending and departed |
| Directory.SeeSettles | src/frontend/src/features/channels/directoryRefresh.ts:78-95 | what a render leaves pending and since when, and that a fetch is started exactly when something is pending, there is data and none is waited for |
| Directory.LandSettles | src/frontend/src/features/channels/directoryRefresh.ts:114-124 | what a landing leaves pending and departed, id by id, and that no mark outlasts it |
| Directory.FailSettles | src/frontend/src/features/channels/directoryRefresh.ts:104-112 | what a failure leaves, id by id: it names and clears nothing |
| Directory.OnlyEarlierIdsDepart | src/frontend/src/features/channels/directoryRefresh.ts:62-71 | a load departs only ids seen before it started that it does not name, and drops no later one it does not name |
| Directory.DepartedUntilCleared | src/frontend/src/features/channels/directoryRefresh.ts:114-117 | a departed id stays departed exactly until a landing clears, and a landing clears exactly when it is for another reason, is marked, or continues an own fetch |
| Directory.UnnamedIdsCostOneFetchEach | src/frontend/src/features/channels/directoryRefresh.ts:78-125 | an id no landing names costs at most one own refetch, none once served, and one more for each landing that was for another reason, was marked, or continued an own fetch |
| Directory.WithoutRetriesOneFetchIsEnough | src/frontend/src/features/channels/directoryRefresh.ts:10-13 | where own fetches are neither retried nor held back, it costs one until a fetch for another reason lands |
| Directory.RetriesLoop | src/frontend/src/features/channels/directoryRefresh.ts:97-117 | from any state at rest, for every n some run in which nothing names the id and nothing is fetched for another reason has n own refetches for it, each retried once |
| Directory.AnUnnamedIdCanCostAnyNumber | src/frontend/src/features/channels/directoryRefresh.ts:97-117 | the same from a new tracker |

## Left out

- Delivery: the agent, git, preview and Slack calls around a stage; the machine sees a verdict, which files exist, and whether the proof was rewritten.
- Delivery: `State.load`, `save` and `forget`; what is saved is a value. The dicts with fixed keys are records, and the texts of human stops are kept as their reasons.
- Delivery: a step that fails may leave the fields half moved; they are not saved, so a failed step is no transition of a run.
- Consumer: the wait before a reclaim, consumer names on pending entries, idle times, trimming of the dead stream, and loss of the Redis instance. Which idle entries a claim gives is any choice of them.
- Consumer: a Redis error in the middle of a pass is the event Abandon of the protocol; the loops of ConsumerLoop are followed while Redis answers.
- Sessions: access tokens, the denylist, and concurrent refreshes of one token; each operation is serialised, for the code takes no row lock. Hashing is taken as injective and new tokens and ids as new.
- Names: the Unicode tables. Normal forms, case folding, refused characters and white space are parameters with the laws of `Names.Lawful`; lone surrogates are outside Dafny's characters.
- Dedupe.SecondRunChangesNothing: asks that every number given leave room, because a name that is not in stored form is repaired again by the next run; it does not say that a second run always changes such names.
- Uuid7: the lock and threads; calls are taken in the order the lock gives them.
- Pagination: `uuid.UUID` as a parser is any function that reads back what `str` writes; base64 is read as the standard library's lenient reader does, without its error texts.
- Messages: the claim of attachments and its refusals, reactions, summaries and direct messages; whether the caller can see the channel or is its admin is an input. Resolving a root and inserting the reply are one step, which no other operation could come between to any effect.
- Search: query validation, analysis of the words, and Elasticsearch errors.
- Keys: the HTTP call and the parsing of the key set, which come as the fetch's outcome: keys, a caught error, or a fetch cut short; StaticKeySource.
- Directory: the query cache, which is idle only when the fetch it waits for has landed or finally failed, keeps its data while it waits, tries a failed load once more at most, and holds a load back while offline. A fetch is cancelled only to be fetched again at once, as `src/frontend/src/features/settings/useProfile.ts:46-60` does; the cancelled load goes on.
- Simple guards such as last owner, last admin and upload limits would only add easy members.
