# Verification of an online judge

A Dafny model of the server side of an online judge and proofs about it: the judging queue and worker
pool under every interleaving, the hidden test-case store and its replacement on disk, SHA-256 and the
password codec, the loose output comparison, the two verdict aggregations, the CSV export and the
statistics, and user administration with problem visibility.

Check everything with `dafny verify dfyconfig.toml`.

## How the model is organised

| files | what they model |
|---|---|
| `JudgeQueue`, `Pipeline`, `PipelineSafety`, `PipelineStranding`, `PipelineLiveness` | the blocking queue with its condition variable, and the step system of HTTP threads, queue and workers: what every run keeps, exactly when a submission is stranded, and that every backlog ends |
| `Verdict`, `JudgeOne` | classification of one run, first failure in order against maximum by rank, and `judge_one` as a path through the step system |
| `Decimal`, `CaseFiles`, `TestStore`, `RenameFaults`, `AddRaces` | file names and formats of a test-case directory, its operations refining a list of cases with scores, what failing renames and crashes lose, and overlapping additions |
| `DirSwap`, `Replacement`, `SwapRaces`, `ProblemImport` | the tmp/bak swap with crashes and failures, the call in the program's order, several calls at once, creating and deleting problems |
| `Sha256Spec`, `Sha256Constants`, `Sha256Example`, `Sha256`, `Password` | FIPS 180-4 as functions, its constants as roots of primes, one known digest round by round, the loops against it, the password codec |
| `Normalizer`, `LooseComparison` | the character-at-a-time normalizer and the text equivalence it decides |
| `Csv`, `Stats` | the CSV printer against an RFC 4180 reader; counts, totals and rounded rates |
| `Database`, `Accounts`, `AccountRaces`, `Visibility` | the tables with their cascades, user administration one request at a time and interleaved, the three visibility rules |

Concurrency is modelled by events: each database statement, each critical section of the queue, each test
of `running_` and each file operation is one atomic event, and a run is any sequence of enabled events.
The outcome of a child process, new ids, tokens and salts are inputs; so are file-system failures of the swap and of
problem creation, and database failures of judging, rejudging, and creating or deleting problems.
Strings of the source are byte strings.

## Findings

- `src/judge/worker.h:54` says that `stop()` drains the queue. The code tests `running_` before each `pop`
  (`src/judge/worker.cpp:162`), so it does not: `StopLeaves` says how many ids stay, with requests that still
  push meanwhile (the server stops the pool before the HTTP listener, `src/server.cpp:908-915`).
- A submission is left without an owner exactly when the terminal write of its only judging in flight fails
  before the row is terminal, until it is rejudged or deleted (`StrandedExactlyWhen`).
- `delete_test_case` ignores failed renames. A failed one followed by a successful one of the next number
  overwrites a case (`NothingLostExactlyWhen`).
- After a crash between the two renames of one number, the next deletion below it overwrites an output
  (`NextDeleteLosesExactlyWhen`).
- `write_file` (`src/problem.cpp:33-42`) tests the stream before it is flushed, so a write that fails at the flush
  goes unnoticed. On a full disk `update_problem` then installs empty files, drops the old set and returns
  (`FullDiskLosesBothSets`); a call that returns leaves the new set exactly if no write was cut short
  (`CallOutcome`, `ReplaceCases`). The same holds of new problems (`ImportProblem`).
- Two overlapping replacements of the same test cases can install a mixture of both (`OverlapMixesSets`).
  A call installs its own set if no other acts on `id.tmp` while it relies on it (`UndisturbedInstallsItsSet`);
  the old set survives if no other acts on the backup between its renames (`UndisturbedKeepsOldSet`).
- Overlapping `add_test_case` calls lose a case exactly when one writes between the scan and the write of another
  (`AdditionsLoseExactlyWhen`).
- A directory left under a new problem's id mixes with the imported cases (`ImportProblem`).
- On a non-empty set without a score file, `add_test_case` with a score and then `delete_test_case` of the
  new case leave a score file of zeros behind (`AddThenDelete`).
- A failed roll-back in `import_problem` leaves a row without a directory (`ImportProblem`).
- The self-test can say AC where the judge would not, and stay silent where the judge would say AC
  (`SelfTestDisagreesExactlyWhen`).
- Two administrators can disable each other at the same time, after which nobody can administer
  (`MutualDisabling`); `LastOneLostExactlyWhen` gives the exact condition. One request at a time this cannot
  happen, and the refusal "last administrator" can never occur (`LastAdminIsNeverRefused`).
- `update_user` accepts any status above 1 on oneself; only the request handler keeps it out (`SelfUpdate`).
- An administrator with a class who is made a student keeps the class (`StudentsGetClassesExactlyWhen`).
- A salt with a colon makes the right password fail (`OwnPasswordAcceptedIff`); generated salts are digits.

## Model

| member | source | states |
|---|---|---|
| `JudgeQueueModel.JudgeQueue.Push` | src/judge/queue.cpp:7-11 | appends the id and wakes one sleeper if there is one, field by field; wakeups are not lost |
| `JudgeQueueModel.JudgeQueue.TryPop` | src/judge/queue.cpp:13-22 | one pass of the wait loop: the front id exactly if there is one, the end exactly if the queue is empty and stopped, otherwise to sleep; every field of the new state |
| `JudgeQueueModel.JudgeQueue.Shutdown` | src/judge/queue.cpp:34-38 | sets the flag and wakes every sleeper; nothing else changes |
| `JudgeQueueModel.PushKeepsWakeups` | src/judge/queue.cpp:7-11 | whichever sleeper is notified, at most as many ids are queued as threads have been woken while someone sleeps |
| `JudgeQueueModel.SpuriousKeepsWakeups` | src/judge/queue.cpp:15 | a spurious wakeup keeps that bound |
| `JudgeQueueModel.AttemptKeepsWakeups` | src/judge/queue.cpp:13-22 | a pass of `pop`, by a woken thread or a newcomer, keeps it |
| `JudgeQueueModel.NeverAllAsleepOverWork` | src/judge/queue.cpp:7-22 | a non-empty queue never coexists with all threads of the pool asleep |
| `Pipeline.StepConservesTokens` | src/judge/worker.cpp:104-180 | every step conserves the tokens of an id, except that a request adds one and a terminal write spends one |
| `Pipeline.StepKeepsQueue` | src/judge/worker.cpp:147-180 | every step keeps the wakeup bound and that only threads inside `pop` sleep or contend |
| `Pipeline.StepKeepsWorkers` | src/judge/worker.cpp:126-158 | at most 8 workers, none exits while the pool runs, none is left when `stop` returns |
| `Pipeline.StepKeepsCovered` | src/judge/worker.cpp:160-331 | every step keeps: a row that is not terminal has a token or lost its terminal write |
| `Pipeline.RunKeepsInv` | src/judge/worker.cpp:104-331 | the whole invariant over runs of any length |
| `PipelineSafety.NoSubmissionStranded` | src/judge/worker.cpp:104-331 | in every reachable state a PENDING, COMPILING or RUNNING submission whose last terminal write did not fail is with a producer, queued or held by a worker |
| `PipelineSafety.IdleMeansJudged` | src/judge/worker.cpp:160-331 | with nothing in flight every submission whose last terminal write did not fail is terminal |
| `PipelineSafety.FailedTerminalWriteStrands` | src/judge/worker.cpp:167-177 | a run in which a failed terminal write strands a RUNNING row |
| `PipelineStranding.StepStrandsExactlyWhen` | src/judge/worker.cpp:167-177 | a step strands a submission exactly if it is the failed terminal write of its last token on a row that is not terminal; only a rejudge or a deletion ends it |
| `PipelineStranding.StrandedExactlyWhen` | src/judge/worker.cpp:104-331 | the same over every run from the start: stranded at the end if and only if such a write happened with no rejudge or deletion since |
| `PipelineStranding.LostExactlyWhen` | src/judge/worker.cpp:167-177 | an id is recorded as lost exactly if its last terminal write failed with no rejudge since |
| `PipelineSafety.EachRequestJudgedOnce` | src/judge/worker.cpp:104-118 | with nothing in flight, terminal writes of an id are exactly as many as its submits and rejudges |
| `PipelineSafety.FirstInFirstOut` | src/judge/queue.cpp:7-22 | over every run ids are taken in the order they were pushed |
| `PipelineLiveness.InternalDecreases` | src/judge/worker.cpp:160-331 | every step of the pool decreases the lexicographic measure |
| `PipelineLiveness.EveryBacklogEnds` | src/judge/worker.cpp:160-331 | no infinite run without new requests and with finitely many spurious wakeups |
| `PipelineLiveness.QuietMeansIdle` | src/judge/queue.cpp:13-22 | a running pool with a worker can only come to rest with nothing in flight: no deadlock |
| `PipelineLiveness.QuietMeansJudged` | src/judge/worker.cpp:160-331 | and then every submission whose last terminal write did not fail has its verdict |
| `PipelineLiveness.StopLeaves` | src/server.cpp:908-915 | the exact number of ids `stop` leaves, for every run: queued and pushed ids and workers that found none, less the threads inside `pop`; with a lower and an upper bound that need no count of the latter |
| `PipelineLiveness.StopLeavesExcess` | src/judge/worker.cpp:147-166 | without pushes the queue is drained if and only if there are at most as many ids as threads in `pop` |
| `PipelineLiveness.PushDuringStopStays` | src/server.cpp:908-915 | with a push that condition does not suffice: a run in which the pushed id stays |
| `PipelineLiveness.StopLeavesUnjudgedQueued` | src/judge/worker.cpp:147-180 | after `stop` an unjudged submission is still queued or with a producer, unless its last terminal write failed |
| `PipelineLiveness.StopNeedNotDrain` | src/judge/worker.cpp:162-166 | a run in which `stop` returns with an id in the queue |
| `Verdicts.RunTestcase` | src/judge/runner.cpp:147-222 | each flag exactly under its condition on the wait status, the memory peak (95 percent of the limit) and the exit code |
| `Verdicts.ClassifiedIsExclusive` | src/judge/runner.cpp:197-222 | at most one flag; none exactly for exit code 0 below 95% of the memory limit |
| `Verdicts.VerdictOfProcess` | src/judge/runner.cpp:147-222 | each verdict on a case exactly under its condition on what the kernel reported and what the program wrote |
| `Verdicts.CpuLimitBeforeWallClock` | src/judge/runner.cpp:76-87 | the CPU limit in whole seconds lies between the time limit and the wall-clock deadline |
| `Verdicts.FailureOf` | src/judge/worker.cpp:277-317 | a case is reported exactly when it does not pass, with its classification |
| `Verdicts.JudgeCases` | src/judge/worker.cpp:262-328 | AC with the maxima of time and memory exactly when all cases pass; otherwise the first failure in order with its own time and memory; no cases is SYSTEM_ERROR |
| `Verdicts.JudgedIsUnique` | src/judge/worker.cpp:269-328 | that description admits one report only |
| `Verdicts.RunCustomCases` | src/judge/run.cpp:159-220 | a verdict for every case, and overall the most severe one, NONE if none was checked |
| `Verdicts.OverallIgnoresOrder` | src/judge/run.cpp:211-217 | permuting the cases does not change the overall verdict |
| `Verdicts.OverallAccepts` | src/judge/run.cpp:211-217 | AC overall exactly if some case was checked and every checked one passed |
| `Verdicts.OverallBySeverity` | src/judge/run.cpp:52-60 | each overall verdict exactly if it is present and none that is more severe: SYSTEM_ERROR, TLE, MLE, RE, WA, AC, none |
| `Verdicts.SelfTestAgreesWithJudge` | src/judge/run.cpp:167-218 | with expected outputs given, AC in the self-test exactly when the judge says AC, and never milder |
| `Verdicts.SelfTestDisagreesExactlyWhen` | src/judge/run.cpp:196-217 | for every list of cases, exactly when the self-test says AC and the judge does not (an unchecked output is not blank), and the other way round (nothing was checked and all outputs are blank) |
| `Judging.EnqueueRejudge` | src/judge/worker.cpp:104-118 | the row becomes PENDING without time and memory, all others stay, and the id is queued last; nothing changes for a missing row or a failed UPDATE |
| `Judging.ExitEarly` | src/judge/worker.cpp:182-260 | which report ends a judging before the first case, and that there is none exactly if row, problem, language, work directory and compilation are in order |
| `Judging.RunCases` | src/judge/worker.cpp:262-331 | RUNNING, then the verdict of the cases with its time and memory in the row |
| `Judging.JudgeOne` | src/judge/worker.cpp:182-331 | status, time, memory and error flag of the final row for every early exit and every verdict, problem and language kept, all other rows untouched, and the sequence of statuses written |
| `Judging.JudgingIsPipelineRun` | src/judge/worker.cpp:182-331 | the effect of every judging, early exits included, when its database writes succeed and nothing comes between: the verdict in the row, nothing else touched |
| `Judging.CrashedJudgingIsPipelineRun` | src/judge/worker.cpp:167-177 | the same for one that an exception cuts short anywhere, reported as SYSTEM_ERROR |
| `Judging.JudgingInterleaves` | src/judge/worker.cpp:160-331 | whatever other threads do in between and whichever of its database writes fail, every judging is a path of one worker: its next step is always possible, and it ends at the loop top |
| `Judging.JudgeOneMayFinish` | src/judge/worker.cpp:167-331 | the stage and verdict of every `JudgeOne`, and an exception after any stage, are such judgings |
| `Decimal.ParseOfToString` | src/admin/admin_problem.cpp:98-119 | `strtol` reads back what `to_string` prints, negative numbers included |
| `Decimal.PrintedByPosition` | src/admin/admin_problem.cpp:112-119 | `to_string` prints positional decimal notation |
| `Decimal.ParsedExactlyWhen` | src/admin/admin_problem.cpp:98-109 | `strtol` reads a text without NUL to its end exactly if it is empty or a number: spaces, a sign, digits |
| `Decimal.ParseOfNumber` | src/admin/admin_problem.cpp:98-109 | its value is the number's, or the nearest 64-bit integer |
| `Decimal.ToInt32Wraps` | src/admin/admin_problem.cpp:87-91 | the conversion to `int` is the only one congruent modulo 2^32 |
| `CaseFiles.NamesDiffer` | src/problem.cpp:195-197 | the file names of different cases and the score file never coincide |
| `CaseFiles.CaseNumExactlyWhen` | src/admin/admin_problem.cpp:76-96 | a name counts as a case exactly if something before `.in` reads as a positive number |
| `CaseFiles.ScanCaseNums` | src/admin/admin_problem.cpp:76-96 | the sorted numbers, one for every name that reads as a positive number |
| `CaseFiles.CanonicalScan` | src/judge/worker.cpp:79-100 | with canonical names: strictly ascending, exactly the numbers present |
| `CaseFiles.ReadScoreFile` | src/admin/admin_problem.cpp:99-109 | one score a line, 0 for a line that is no number |
| `CaseFiles.LineScore` | src/admin/admin_problem.cpp:99-109 | a line that is a number of 32 bits scores its value, one that is no number 0 |
| `CaseFiles.WriteScoreFile` | src/admin/admin_problem.cpp:112-119 | one line a score |
| `CaseFiles.ScoresRoundTrip` | src/admin/admin_problem.cpp:98-119 | reading what was written gives the scores back, for every list of 32-bit integers |
| `TestStore.RepresentsOne` | src/problem.cpp:193-210 | a directory represents at most one list of cases with scores |
| `TestStore.ScanOfStore` | src/admin/admin_problem.cpp:76-96 | scanning a directory that represents n cases gives exactly 1 to n in order |
| `TestStore.TestDir.ShiftDown` | src/admin/admin_problem.cpp:265-275 | with any numbering, gaps included: numbers below `num` stay, each input above moves down by one and none is overwritten; an output moves with its input, one without an input stays |
| `TestStore.TestDir.RemoveCase` | src/admin/admin_problem.cpp:260-275 | removal and renaming together, for every directory with canonical names |
| `TestStore.TestDir.SyncScoreFile` | src/admin/admin_problem.cpp:277-291 | whatever the score file held, afterwards every remaining case reads its own score, 0 if it had none, with exactly one line a case, and no file without cases; if the cases represent the shorter list, so does the directory |
| `TestStore.TestDir.DeleteTestCase` | src/admin/admin_problem.cpp:246-292 | removes one element of the list and its score, every later file being found under the number before; refuses without change exactly for a missing case |
| `TestStore.TestDir.ExtendScoreFile` | src/admin/admin_problem.cpp:230-237 | every old case reads its own score, 0 if it had none, and the last line is the new case's; if the cases represent the longer list, so does the directory |
| `TestStore.TestDir.AddTestCase` | src/admin/admin_problem.cpp:205-237 | appends one element to the list and returns its number; both texts are in the files of that number and no other file but the scores changes; texts over 4 MiB are refused without change |
| `TestStore.TestDir.ListTestCases` | src/admin/admin_problem.cpp:172-189 | every case with its number, its score and the text of its files, whole or the first 4096 characters with a mark |
| `TestStore.TestDir.WriteInlineCases` | src/problem.cpp:193-210 | the written directory represents exactly the given cases, each text in its file; scores only if one was given, missing ones 0 |
| `TestStore.AddThenDelete` | src/admin/admin_problem.cpp:192-292 | deleting an added case restores the list, exactly unless the addition created the score file |
| `TestStore.Replay` | src/admin/admin_problem.cpp:192-292 | any sequence of additions and deletions on the directory is that sequence on the list |
| `RenameFaults.ShiftSlots` | src/admin/admin_problem.cpp:267-275 | where every file is after the loop, for every set of failing renames and of numbers the scan missed |
| `RenameFaults.NothingLostExactlyWhen` | src/admin/admin_problem.cpp:267-275 | every file is kept exactly if none that stays is followed by one that moves; otherwise fewer files are left |
| `RenameFaults.CrashLosesNothing` | src/admin/admin_problem.cpp:267-275 | a crash after any number of renames of the inputs or of the outputs loses none of them |
| `RenameFaults.PairKeptExactlyWhen` | src/admin/admin_problem.cpp:267-275 | after both loops input and output of a case have one number exactly if neither is overwritten and both moved or both stayed |
| `RenameFaults.RemoveCaseLosesExactlyWhen` | src/admin/admin_problem.cpp:260-275 | on every directory with canonical names a deletion keeps all other inputs, and loses an output exactly if above it one without an input is followed by a pair |
| `RenameFaults.NextDeleteLosesExactlyWhen` | src/admin/admin_problem.cpp:260-275 | after a deletion that crashed anywhere, the next one loses an output exactly if the crash fell between the two operations of a number that lies above the deleted one and is not the last |
| `AddRaces.AdditionsLoseExactlyWhen` | src/admin/admin_problem.cpp:224-228 | for any number of overlapping additions: every added case is there at the end if and only if no call wrote between the scan and the write of another |
| `DirSwap.StepKeepsInv` | src/problem.cpp:349-387 | every file operation, noticed or unnoticed failure and crash keeps the swap invariant; the set in force changes only at an installation, to the files as stored |
| `DirSwap.LastInstalledIsInForce` | src/problem.cpp:349-387 | over any calls one after the other, from any disk, with crashes, failures and retries: live, or the backup when there is no live directory, is exactly the set installed last |
| `DirSwap.SwapIsCrashSafe` | src/problem.cpp:349-387 | live is absent or complete, and live or the backup is, if and only if the set installed last is complete; and so whenever no set with a file cut short is installed |
| `DirSwap.CallOutcome` | src/problem.cpp:349-387 | on return nothing but the stored files is left, and they are the new set exactly if no write was cut short; on an exception the old set is live or the backup |
| `DirSwap.StoredInFullExactlyWhen` | src/problem.cpp:193-210 | files stored under different names make up the wanted set exactly if each is stored in full |
| `DirSwap.FullDiskLosesBothSets` | src/problem.cpp:33-42 | for any old set and any file that is not empty, a call that returns with an empty file live and the old set gone |
| `SwapRaces.UndisturbedInstallsItsSet` | src/problem.cpp:352-381 | however calls overlap: if no other call acts on `id.tmp` while one relies on it, that one installs exactly the files it stored, and its own set if none was cut short |
| `SwapRaces.UndisturbedKeepsOldSet` | src/problem.cpp:357-382 | however calls overlap: if no other call acts on the backup or the live name between a call's renames, the old set stays in the backup or goes back to live unless the call installs |
| `SwapRaces.ConsiderateRunsAreSafe` | src/problem.cpp:349-387 | any overlapping calls with crashes and failures keep live absent or complete, and live or the backup complete, if nobody acts on `id.tmp` while another relies on it, nobody removes from the backup while there is no live directory, and no cut set is installed |
| `SwapRaces.ExclusiveRunsAreSafe` | src/problem.cpp:349-387 | calls on any threads that do not overlap keep it as long as the installed sets were stored complete |
| `SwapRaces.OverlapMixesSets` | src/problem.cpp:353-382 | for any two sets of one case there is a run after which live has the input of one and the output of the other, and a call returned |
| `Replacement.WritesMakeTheSet` | src/problem.cpp:193-210 | the single writes add up to the directory that represents the cases |
| `Replacement.StoredExactlyWhen` | src/problem.cpp:193-210 | the stored files are the wanted set exactly if no write was cut short |
| `Replacement.ProblemDir.WriteCases` | src/problem.cpp:193-210 | the writes into `id.tmp`: the files as stored, cut short or not, unless a failure is noticed |
| `Replacement.ProblemDir.Install` | src/problem.cpp:357-381 | the renames and the restoration of the backup for every combination of failures |
| `Replacement.ProblemDir.ReplaceCases` | src/problem.cpp:349-387 | success exactly when no failure is noticed, the exact disk for each combination of failures, live the new set exactly if no write was cut short, and the call as a run of the step system |
| `ProblemImport.Problems.ImportProblem` | src/problem.cpp:259-315 | success exactly when no failure is noticed, with the row; the new directory is the given set exactly if no write was cut short and nothing of another name was left there; a failed import leaves no directory, and a row only if the roll-back failed |
| `ProblemImport.Problems.DeleteProblem` | src/problem.cpp:392-411 | the row and the live, temporary and backup directories go, nothing else; a failed DELETE throws without change |
| `ProblemImport.DeleteUndoesImport` | src/problem.cpp:259-411 | deleting a new problem restores the rows and leaves no directory of its id |
| `Sha256.SigmasByShifts` | src/hash.cpp:43-45 | the two-shift rotations are the rotations of FIPS 180-4 |
| `Sha256.ChoiceOfOnes` | src/hash.cpp:66 | where the first word has a one the choice function takes the second |
| `Sha256.ChoiceOfZeros` | src/hash.cpp:66 | where it has a zero, the third |
| `Sha256.MajorityOfBits` | src/hash.cpp:69 | the majority function has a one where two of its words have one |
| `Sha256Constants.PrimesInOrder` | src/hash.cpp:29-41 | the table behind the constants is the first primes in order: it starts with 2, every entry is prime, and no prime lies between two neighbours |
| `Sha256Constants.ConstantsAreCubeRoots` | src/hash.cpp:29-41 | every round constant is the first 32 bits of the fractional part of the cube root of its prime (section 4.2.2 of FIPS 180-4) |
| `Sha256Constants.InitialValueIsSquareRoots` | src/hash.cpp:93-94 | the initial hash value, likewise of the square roots of the first eight (section 5.3.3) |
| `Sha256.LoadBlock` | src/hash.cpp:49-53 | the first sixteen schedule words are the block in big-endian order |
| `Sha256.ExpandSchedule` | src/hash.cpp:54-60 | the in-place loop computes the message schedule of section 6.2.2 |
| `Sha256.RunRounds` | src/hash.cpp:62-79 | the rotating registers compute the 64 rounds of section 6.2.2 |
| `Sha256.Sha256Block` | src/hash.cpp:48-88 | the new hash value is the compression of the old one with the block |
| `Sha256.PadMessage` | src/hash.cpp:96-104 | the loops build the padded message |
| `Sha256.PadIsPadding` | src/hash.cpp:96-104 | it is the padding of section 5.1.1, the length field taken modulo 2^64 |
| `Sha256.LeastZeroBits` | src/hash.cpp:98-101 | with the least number of zero bits that aligns the block |
| `Sha256.UnpadInvertsPad` | src/hash.cpp:96-104 | an explicit inverse of padding, for messages of every length |
| `Sha256.PadIsInjective` | src/hash.cpp:96-104 | different messages have different paddings |
| `Sha256.HashMessage` | src/hash.cpp:106-108 | the block loop folds the blocks as in section 6.2.2 |
| `Sha256.Sha256Hex` | src/hash.cpp:92-115 | the whole function computes the digest of the specification |
| `Sha256.DigestsEqualIffHashesEqual` | src/hash.cpp:110-114 | rendering in hex neither merges nor splits hash values |
| `Sha256Example.MessageDigest` | sql/schema.sql:114-119 | the digest of the built-in account's salted password, through every word and round, is the stored one |
| `Sha256Example.BuiltinPasswordIsAccepted` | sql/schema.sql:114-120 | the stored value of the built-in account accepts its password |
| `Password.ConstTimeEqual` | src/hash.cpp:16-26 | the accumulated OR is zero exactly for equal byte strings |
| `Password.VerifyPassword` | src/hash.cpp:135-144 | without a colon the stored value itself is compared; otherwise the digest of attempt and salt with what follows the colon |
| `Password.VerifyAfterEncode` | src/hash.cpp:130-144 | for a colon-free salt the attempt is accepted exactly if the salted hashes are equal, and the value is never taken for plaintext |
| `Password.OwnPasswordAcceptedIff` | src/hash.cpp:130-144 | the right password is accepted exactly if the salt has no colon |
| `Normalizer.Normalize` | src/judge/compare.cpp:13-40 | the loop computes: split at `\n` and `\r`, trim, drop blank lines |
| `Normalizer.SpacesAndLineEnds` | src/judge/compare.cpp:16-30 | the whitespace characters and line ends by their codes |
| `Normalizer.NoLinesOfBlank` | src/judge/compare.cpp:13-40 | no line is left exactly of a text that is all whitespace |
| `LooseComparison.SameLinesIffEquivalent` | src/judge/compare.cpp:13-46 | texts normalize alike exactly if whitespace edits beside line boundaries turn one into the other |
| `LooseComparison.LooseCompare` | src/judge/compare.cpp:44-46 | the comparison decides that equivalence |
| `LooseComparison.EquivalentSymmetric` | src/judge/compare.cpp:44-46 | the edits form a symmetric relation |
| `LooseComparison.EquivalentTransitive` | src/judge/compare.cpp:44-46 | and a transitive one |
| `LooseComparison.NormalizeIsIdempotent` | src/judge/compare.cpp:13-40 | normalizing the joined lines gives the same lines |
| `LooseComparison.LinesAreClean` | src/judge/compare.cpp:16-30 | lines are non-empty, without newlines and without whitespace at the ends |
| `Csv.CsvEscape` | src/admin/admin_stats.cpp:52-73 | whatever the text and whatever follows, an RFC 4180 reader takes exactly the text out of the result |
| `Csv.UnquotedOnlyIfPlain` | src/admin/admin_stats.cpp:52-62 | a text is read back without quoting exactly if it has none of the four special characters |
| `Csv.FileRoundTrip` | src/admin/admin_stats.cpp:210-226 | any table of arbitrary texts is read back exactly |
| `Csv.RawColumnsArePlain` | src/admin/admin_stats.cpp:216-224 | the columns printed without escaping never need it |
| `Csv.RowRoundTrip` | src/admin/admin_stats.cpp:210-226 | a row with its numbers, language, status and time is read back from its nine fields |
| `Csv.PrintRow` | src/admin/admin_stats.cpp:216-224 | one line is the nine columns of the row, escaped, and CRLF |
| `Csv.ExportCsv` | src/admin/admin_stats.cpp:210-226 | behind the byte order mark a reader finds the nine named columns and exactly the fields of every row, and reads each row back from its fields |
| `Stats.RateIsUnique` | src/admin/admin_stats.cpp:21-23 | the rate is the only number within half a point, half rounded up, and at most 100 |
| `Stats.SelectedRows` | src/admin/admin_stats.cpp:84-148 | which problems and students are listed for a teacher: the own problems, and the students of the own class |
| `Stats.CountedRows` | src/admin/admin_stats.cpp:84-148 | which submissions the rows of an administrator count |
| `Stats.CountedRowsOfTeacher` | src/admin/admin_stats.cpp:84-148 | which the rows of a teacher count: those to the teacher's problems |
| `Stats.CountedTotals` | src/admin/admin_stats.cpp:84-148 | and which the totals count |
| `Stats.Totals` | src/admin/admin_stats.cpp:107-117 | the accumulators are the sums |
| `Stats.TotalRateIsBetween` | src/admin/admin_stats.cpp:107-159 | the rounded total rate lies between the least and greatest rate of the problems with submissions |
| `Stats.SumsCount` | src/admin/admin_stats.cpp:85-148 | grouped counts add up to the number of submissions with these keys, none counted twice |
| `Stats.QueryAdminStats` | src/admin/admin_stats.cpp:82-163 | exact groups with titles or names, counts and rates, for teachers and administrators; totals are all submissions in scope; the students' rows add up to them for an administrator and to no more for a teacher |
| `Database.UserCascadeIsForced` | sql/schema.sql:28-99 | deleting a user leaves the greatest part of the tables without the user that has integrity |
| `Database.ProblemCascadeIsForced` | sql/schema.sql:71-72 | the same for a problem and its submissions |
| `Database.ClassCascadeIsForced` | sql/schema.sql:85-97 | the same for the class of a teacher and its memberships |
| `Database.UserInsertedExactlyWhen` | sql/schema.sql:8-18 | a user is inserted exactly if the names stay unique |
| `Database.SessionInsertedExactlyWhen` | sql/schema.sql:21-30 | a session exactly for a user that exists |
| `Database.ProblemInsertedExactlyWhen` | sql/schema.sql:33-50 | a problem exactly if titles stay unique and its creator exists |
| `Database.SubmissionInsertedExactlyWhen` | sql/schema.sql:53-73 | a submission exactly for a user and a problem that exist |
| `Database.ClassInsertedExactlyWhen` | sql/schema.sql:76-87 | a class exactly for a teacher that exists and has none, under a free code |
| `Database.MemberInsertedExactlyWhen` | sql/schema.sql:90-100 | a membership exactly for a class and a student that exist |
| `Accounts.UserAdmin.CreateUser` | src/admin/admin_user.cpp:66-124 | exactly when it succeeds and with which error it does not, the new row, no change otherwise |
| `Accounts.UserAdmin.RefuseUpdate` | src/admin/admin_user.cpp:129-182 | every error exactly under its condition; the checks amount to: nobody weakens himself or demotes the built-in account, one administrator remains |
| `Accounts.UserAdmin.UpdateUser` | src/admin/admin_user.cpp:126-217 | exactly when it succeeds, which fields of which rows change, and that a demoted teacher loses the class |
| `Accounts.UserAdmin.DeleteUser` | src/admin/admin_user.cpp:219-256 | exactly when it succeeds, with the cascade, and every error exactly under its condition |
| `Accounts.ActsExactlyWhen` | src/auth.cpp:201-252 | a session acts as administrator exactly if it is one of an enabled administrator |
| `Accounts.LoginExactlyWhen` | src/auth.cpp:130-174 | a session is opened exactly for an enabled user |
| `Accounts.CreateClassExactlyWhen` | src/ojclass.cpp:44-73 | a class is created exactly for staff without one, under a free code |
| `Accounts.JoinClassExactlyWhen` | src/ojclass.cpp:132-179 | only students become members, exactly of classes that exist |
| `Accounts.RequestKeepsIntegrity` | sql/schema.sql:7-100 | every request keeps every declared key |
| `Accounts.SelfUpdate` | src/server.cpp:553-562 | the actor of an allowed self-update stays an enabled administrator exactly for a status of at most 1 |
| `Accounts.ActorStays` | src/admin/admin_user.cpp:151-163 | an enabled administrator is one after his own request, and after everybody's requests that are no user updates |
| `Accounts.SequentialRunsKeepAdmins` | src/auth.cpp:201-252 | over any sequence of requests the keys hold and there is an enabled administrator |
| `Accounts.RequestKeepsBuiltin` | src/admin/admin_user.cpp:165-174 | every request keeps the built-in account an administrator |
| `Accounts.LastAdminIsNeverRefused` | src/admin/admin_user.cpp:174-181 | with the built-in account the count check never decides |
| `Accounts.StudentsGetClassesExactlyWhen` | src/admin/admin_user.cpp:184-192 | an update leaves a class to a student exactly if it demotes an administrator who has one |
| `Accounts.RequestKeepsStaffOwners` | src/admin/admin_user.cpp:184-192 | and no other request does |
| `AccountRaces.AdminsNeverRunOut` | src/admin/admin_user.cpp:126-256 | under every interleaving of single queries and statements the built-in account stays an administrator |
| `AccountRaces.LastOneLostExactlyWhen` | src/admin/admin_user.cpp:151-202 | a step takes away the last enabled administrator exactly if a request whose own actor is no longer one writes to it and weakens it |
| `AccountRaces.FreshRunsKeepAdmins` | src/auth.cpp:242-252 | without such stale writes there is always an enabled administrator |
| `AccountRaces.UninterruptedIsSequential` | src/admin/admin_user.cpp:126-256 | the steps of a request that is not interrupted are the request of the sequential model |
| `AccountRaces.MutualDisabling` | src/admin/admin_user.cpp:157-163 | a run after which two administrators have disabled each other |
| `Visibility.QueryProblemList` | src/problem.cpp:431-509 | exactly the problems shown to the user, by id, each with title, difficulty, the submission count and rate of the statistics, and the progress from the user's submissions |
| `Visibility.Submissions.CreateSubmission` | src/submission.cpp:52-91 | exactly when it succeeds and the PENDING row, no change otherwise |
| `Visibility.WhoIsShownWhat` | src/problem.cpp:418-551 | staff is shown every problem, a visitor none, a student the global ones and those of the teachers of the classes joined; for the list and the detail |
| `Visibility.WhoMaySubmit` | src/submission.cpp:31-48 | who may submit to which problem, in the same terms |
| `Visibility.RulesAgree` | src/submission.cpp:31-48 | list and detail agree for everybody; submitting agrees except for a visitor and a global problem |
| `Visibility.RulesAlwaysAgree` | src/problem.cpp:422-551 | after any requests the three rules agree for every logged-in user |
| `Visibility.JoiningShowsTheTeachersProblems` | src/ojclass.cpp:132-179 | joining a class adds the teacher's problems and nothing else |
| `Visibility.DeletionMakesProblemsGlobal` | sql/schema.sql:48-49 | deleting a user hides nothing from the others and shows them the user's problems |
| `Visibility.DemotionHidesProblems` | src/admin/admin_user.cpp:184-192 | making a student of a teacher hides exactly that teacher's problems |

## Left out

- MySQL client code, HTTP routing, JSON, cookies, logging, configuration and the command-line tools: plumbing
  around what is modelled. A statement is an atomic step on tables kept as maps.
- fork, exec, rlimits and the polling loop of `run_process`: the wait status, memory peak and outputs are
  arbitrary inputs to the classification. The compiler run is reduced to its result, and exceptions in `judge_one` to where they strike.
- Texts of error messages and of the judging report, and truncation inside them.
- Restarting a pool after `stop()`.
- Ids and counters are natural numbers; 32-bit truncation of ids in request paths is not modelled.
- Usernames and titles are compared byte by byte; the table collation ignores case.
- Randomness of tokens, salts and invite codes.
- Directory removal is taken to finish unless a crash interrupts it.
- A crash keeps every completed write and rename; the source never syncs, so a power failure may lose more.
- Database failures of user administration, submitting and the statistics, which end in an error reply.
- `copy_test_dir` and importing problems from the command line.
- The SQL filters of the CSV export: the printer is proved for every list of rows.
- Renewing invite codes, editing problem metadata and limits, and configuration values: single-row updates.
- PipelineLiveness.EveryBacklogEnds: assumes finitely many spurious wakeups, since nothing bounds them in the source.
- Stats.PassRate: exact rational arithmetic instead of floating point.
- TestStore.TestDir.DeleteTestCase: renames succeed when their source exists; RenameFaults treats the failing ones.
- TestStore.TestDir.AddTestCase: writes succeed (`write_file` of src/judge/util.cpp reports no failure), there are
  fewer than 2^31 - 1 cases, and calls do not overlap; AddRaces treats overlapping additions, and deletions that
  overlap with others are not modelled.
- RenameFaults.ShiftSlots: follows inputs or outputs by case number, each being renamed on its own.
- DirSwap.SwapIsCrashSafe: calls for one problem do not overlap; SwapRaces treats overlapping ones.
- DirSwap.CallOutcome: which failures the stream notices is left open; any write may fail either way.
- SwapRaces.ConsiderateRunsAreSafe: a removal finishes even while another call writes into the directory.
- Replacement.ProblemDir.ReplaceCases: the check for another problem with the same title and the metadata update come before it.
- Accounts.Handled: requests that create users accept any valid role; the invite-code check is not modelled.
- AccountRaces.AdminsNeverRunOut: only updates and deletions of users are split into their single statements;
  the other requests touch no existing row of the users table and are one step each.
