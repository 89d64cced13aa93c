# RubiXDb: verified models

Dafny models of the parts of RubiXDb where the argument is harder than the code: the group-commit
prototype and its durability promise, the fault-rule registry, the SQL session registry, and the
bounded or closed-form bookkeeping around them. Concurrent code is modelled as a step system: a state,
the steps each thread can take, and theorems about every state of every run, with any number of
threads. Objects that change in place are classes whose methods are proved against functions of the
history; the theorems are about those functions. `dafny verify dfyconfig.toml` checks everything.

| file | models |
|---|---|
| `CommitState`, `GroupCommit`, `CommitRuns`, `ParkStranding` | the commit pipeline prototype: append, elect a leader, write, sync, publish, wake |
| `FlatCombining`, `CombinedCommit` | the combining queue in front of `append`, and the two systems side by side |
| `Calendar`, `Temporal`, `Text` | dates, times and timestamps as the API prints them and the SQL layer reads them |
| `FaultSpec`, `FaultRegistry`, `FaultChance` | the fault-rule language, the rule evaluator, the probabilistic trigger |
| `SqlSessions`, `SessionInterleaving` | the session registry, call by call and under concurrency |
| `EditDistance` | the "did you mean" distance |
| `VersionRing` | the bounded reference model of the compaction soak |
| `RateLimiter`, `Metrics` | the token bucket and the request metrics |
| `SecurityLine`, `SecurityRead`, `SecurityLog` | a line of the security log as it is written and read back, and the rotated log |

Some promises turn out to hold only under a condition, and each has its exact condition:

- Dates and timestamps before year 0 are printed but refused as parameters; the round trip holds if
  and only if the value is not before 0000-01-01 (`DateRoundTrip`, `TimestampRoundTrip`). No text is
  ever read as such a value (`YearsReadAreNotNegative`), so everything that came in as text can be
  echoed (`ParsedDateEchoes`, `ParsedTimeEchoes`, `ParsedTimestampEchoes`): the failure is about
  values that code stores without going through the parser.
- The date parser is meant to answer any text with a value or a controlled error, never a panic. Its
  day arithmetic overflows instead if and only if the fields are accepted and the count of days from
  0000-03-01 is not an `i64` (`DateOverflowsExactly`, and `TimestampOverflowsExactly` for
  timestamps); the year 10^18 is such a text (`OverflowingText`).
- `prob=1` does not fire at every hit: a draw among the topmost 1024 of the 2^64 becomes 1.0 as a
  double, and 1.0 is not below 1.0 (`CertainFiresExactly`). For every point and hit there is a seed
  that misses it (`CertainRuleMisses`).
- The security log's documented disk bound holds for all events if and only if the cap is at least
  5517 bytes, the longest line the clipping of fields allows (`DiskBoundExactly`). The logs the
  product opens have a cap of 1 MiB and keep the promise (`DefaultsKeepPromise`). The 5517 bytes are
  for everything the log itself accepts: control characters in every text field and a 64-bit clock at
  its maximum. The product's own codes, outcomes and object kinds are short words from closed sets, so
  the lines it emits are shorter.
- `sessions` and `meta` agree whenever the lock is free if and only if no shutdown clears `meta` while a
  statement is out (`AgreeExactly`); under that condition the per-principal cap on open sessions holds
  too (`CapHolds`). At the moment of clearing it is also the exact condition for the cap: with a
  statement out the run can go on to more open sessions than the cap, without one it cannot
  (`CapExactly`). Both losses are reached from the start, for every cap that admits a session
  (`AgreementLost`, `CapLost`).
- `list` calls a running session expired if and only if `take` or `put_back` is between its two maps and
  the recorded times are past a limit (`ListOfRunning`), which can happen whatever the limits
  (`RunningListedExpired`).

And one safety net is load-bearing: no wake-up is ever lost (`NoLostWakeup`), yet when nobody runs a
writer is asleep if and only if some record is not durable (`StrandedExactly`), which does happen
(`SleeperStranded`); the timeout then makes the sleeper elect itself (`SleeperElectsItself`).

## Model

| member | source | states |
|---|---|---|
| `GroupCommit.CrashSafety` | examples/commit_pipeline_proto.rs:68-397 | in every state of every run of every variant, whatever part of the file at least as long as the last completed sync survives passes the recovery oracle: gap-free from 1, every acknowledged operation at its number, each writer's operations a prefix with at most one beyond the acknowledged |
| `GroupCommit.RunGood` | examples/commit_pipeline_proto.rs:68-397 | the invariant behind it holds in every state of every run: roles, numbering, where the log is, what the watermark covers, acknowledgements, waiters |
| `GroupCommit.StepKeepsGood` | examples/commit_pipeline_proto.rs:173-274 | every step of every thread keeps that invariant |
| `GroupCommit.OneOfEach` | examples/commit_pipeline_proto.rs:281-333 | at most one collecting leader, one flush in flight and one holder of the lock; outside the pipelined form no leader collects while another flushes |
| `GroupCommit.RunGrows` | examples/commit_pipeline_proto.rs:241-265 | over any stretch of a run the watermark does not decrease, the file and the log are only appended to, and no acknowledgement changes |
| `GroupCommit.DurableBySecondSync` | examples/commit_pipeline_proto.rs:173-333 | a record appended before two further syncs complete is on disk by then, and under the watermark once the second is published, plain and pipelined |
| `GroupCommit.NoLostWakeup` | examples/commit_pipeline_proto.rs:361-397 | while the lock is free every registered waiter is above the watermark, a sleeper on a durable record has its unpark pending or under way, any other sleeper is registered |
| `GroupCommit.SleepersCanLead` | examples/commit_pipeline_proto.rs:377-392 | when nobody runs, a sleeper's record is not durable, the lock is free and so is the leader slot |
| `CommitRuns.SleeperElectsItself` | examples/commit_pipeline_proto.rs:361-392 | its own steps from the timeout on are all enabled and make it leader |
| `CommitRuns.StrandedExactly` | examples/commit_pipeline_proto.rs:377-392 | in a state where nobody runs, of any run of any variant, some writer is asleep if and only if some record is not durable |
| `CommitRuns.SleeperWaitsOn` | examples/commit_pipeline_proto.rs:361-392 | with a leader active the sleeper that times out goes back to the test before sleeping and nothing shared changes: it does not register again |
| `CommitRuns.TokenExactly` | examples/commit_pipeline_proto.rs:361-392 | in every run an unpark is pending for a thread if and only if one was made since it last came back from sleep |
| `CommitRuns.NobodyStuck` | examples/commit_pipeline_proto.rs:173-397 | in every state of every run a thread inside an operation has a step that moves it on, unless it is about to take the lock and somebody has it, and whoever has it has such a step |
| `CommitRuns.DurableReturns` | examples/commit_pipeline_proto.rs:335-397 | a writer whose record is durable returns by its own steps, without the lock unless it is already on its way to it |
| `CommitRuns.LeaderReturns` | examples/commit_pipeline_proto.rs:235-274 | a leader that stored its watermark has its own record covered and can acknowledge at once, in the park form after draining the list |
| `ParkStranding.SleeperStranded` | examples/commit_pipeline_proto.rs:383-390 | a run of the park form that ends that way, with no leader and no unpark coming: only the timeout moves the sleeper |
| `CommitState.DrainPartitions` | examples/commit_pipeline_proto.rs:241-265 | draining the waiters loses, duplicates or misplaces none of them and wakes one thread for each removed |
| `CommitState.RoundIsConsecutive` | examples/commit_pipeline_proto.rs:113-171 | a combining round numbers its batch consecutively and writes the frames in that order |
| `CommitState.Shared.Append` | examples/commit_pipeline_proto.rs:68-83 | one append: the next number, its frame in the file or in the buffer, nothing else changed |
| `CommitState.Shared.AppendBatch` | examples/commit_pipeline_proto.rs:129-150 | a combining round through the shared state is the batch numbered in queue order |
| `CommitState.Shared.Decide` | examples/commit_pipeline_proto.rs:361-397 | under the lock a waiting writer returns, becomes leader or registers, by the watermark and the leader flag |
| `CommitState.Shared.Collect` | examples/commit_pipeline_proto.rs:218-233 | closing a batch takes the buffer and the highest number so far |
| `CommitState.Shared.Publish` | examples/commit_pipeline_proto.rs:241-265 | publishing stores the watermark, frees the role and splits the waiters |
| `FlatCombining.OneCombiner` | examples/commit_pipeline_proto.rs:92-171 | in every reachable state at most one thread combines or is being handed the role, and a non-empty queue has one |
| `FlatCombining.OneRound` | examples/commit_pipeline_proto.rs:120-168 | a combiner's own slot is in the batch it takes, so its loop runs once |
| `FlatCombining.ReturnsQueuePlace` | examples/commit_pipeline_proto.rs:113-171 | an append returns its place in the queueing order, and its frame is in the file by then |
| `FlatCombining.TicketsAreUnique` | examples/commit_pipeline_proto.rs:113-171 | each append is queued once, and no number is returned to two appends |
| `FlatCombining.ReturnedStays` | examples/commit_pipeline_proto.rs:113-171 | what an append returned never changes |
| `FlatCombining.RoundIsBatchAppend` | examples/commit_pipeline_proto.rs:129-150 | the steps of a round add up to the batch append of the shared state |
| `FlatCombining.SomebodyMoves` | examples/commit_pipeline_proto.rs:113-171 | in every state of every run, while an append is under way the holder of the role has a next step, or the append's own slot is done and it returns |
| `CombinedCommit.RoundRuns` | examples/commit_pipeline_proto.rs:136-157 | with the lock free and the batch queued, the protocol's steps of a round are enabled one after the other and amount to the batch append |
| `CombinedCommit.Simulates` | examples/commit_pipeline_proto.rs:113-397 | the commit protocol's side of every joint run of queue and protocol is itself a run of the protocol, with the same file and agreeing about every thread |
| `CombinedCommit.CombiningCrashSafety` | examples/commit_pipeline_proto.rs:113-397 | so with flat combining, in every state of every joint run, every surviving part of the file from the last completed sync on passes the recovery oracle |
| `FlatCombining.RunInv` | examples/commit_pipeline_proto.rs:92-171 | roles, queueing order, numbering and marks are consistent in every state of every run |
| `Calendar.CivilIsTheDate` | api/src/sql_params.rs:192-204 | for every day count the computed year, month and day are a Gregorian date whose independently defined day count is the input |
| `Calendar.DateIsRecovered` | api/src/sql_params.rs:192-204 | for every Gregorian date the computation finds it from its day count |
| `Calendar.ConsecutiveDates` | api/src/sql_params.rs:192-204 | consecutive day counts are consecutive dates (Appendix C of RFC 3339) |
| `Calendar.YearOfEraBounds` | api/src/sql_params.rs:195-198 | within an era no unsigned subtraction underflows, and the year formula picks the year whose days contain the day |
| `Calendar.DateArithmeticFits` | api/src/sql_params.rs:192-204 | for every 32-bit day count the signed intermediates stay inside 64 bits, and how far the year reaches |
| `Calendar.ParserCountAgrees` | sql/src/temporal.rs:24-32 | the parser's own day count of a date is the independent one |
| `Calendar.ParserCountExactly` | sql/src/temporal.rs:24-32 | the parser's 64-bit day arithmetic gives that count if and only if the count, and the count from 0000-03-01, fit; otherwise it overflows |
| `Temporal.DateRoundTrip` | api/src/sql_params.rs:126-204 | echoing a printed date back gives the same date if and only if it is not before 0000-01-01; earlier ones are refused |
| `Temporal.TimeRoundTrip` | api/src/sql_params.rs:206-217 | echoing a printed time of day back gives the same value if and only if it is within the day |
| `Temporal.TimestampRoundTrip` | api/src/sql_params.rs:219-223 | echoing a printed timestamp back gives the same instant if and only if it is not before 0000-01-01T00:00:00 |
| `Temporal.YearsReadAreNotNegative` | sql/src/temporal.rs:62-84 | no text is read as a date before year 0 |
| `Temporal.NegativeYearRefused` | sql/src/temporal.rs:56-84 | the printed text of a date before year 0 is refused |
| `Temporal.ParsedDateEchoes` | api/src/sql_params.rs:126-204 | every text accepted as a date: printing the value gives a text read as the same value |
| `Temporal.DateOverflowsExactly` | sql/src/temporal.rs:24-60 | for every text, the parser's day arithmetic overflows if and only if the fields are accepted and the count of days from 0000-03-01 is not an `i64` |
| `Temporal.OverflowingText` | sql/src/temporal.rs:53-60 | a text that does that, although no text is supposed to |
| `Temporal.ParsedTimeEchoes` | api/src/sql_params.rs:206-217 | the same for every text accepted as a time |
| `Temporal.ParsedTimestampEchoes` | api/src/sql_params.rs:219-223 | the same for every text accepted as a timestamp |
| `Temporal.TimestampOverflowsExactly` | sql/src/temporal.rs:127-140 | a timestamp text, cut at its separator, overflows if and only if its time is accepted and its date overflows |
| `Temporal.TimestampParsed` | sql/src/temporal.rs:127-140 | the parser reads back the printed text of every date from year 0 on and every time of day that fit a 64-bit microsecond count |
| `Temporal.TimePartsRoundTrip` | sql/src/temporal.rs:87-123 | every time of day is read back field by field, with and without fraction |
| `Temporal.DateReads` | sql/src/temporal.rs:62-84 | three digit strings of any length joined by `-` are read as the date they denote, and refused exactly when that is none or the year does not fit |
| `Temporal.TimeReads` | sql/src/temporal.rs:87-123 | three digit strings joined by `:` are read as the time they denote, a fraction of one to six digits as that many decimals of a second; anything else is refused |
| `Temporal.TimestampReads` | sql/src/temporal.rs:127-140 | behind a printed date and either separator a time text is read that way, to the instant of both |
| `Text.SignsRead` | sql/src/temporal.rs:62-84 | a plus sign changes no number, a minus sign is read by signed numbers only, a sign alone is none |
| `Temporal.TimestampShape` | api/src/sql_params.rs:206-223 | a printed timestamp of the years 0000 to 9999 has its separators at fixed places and a fraction of six digits or none |
| `Temporal.ClockRecombines` | api/src/sql_params.rs:206-217 | the printed time fields recombine to the value and are in range exactly for a time of day |
| `Temporal.TimestampDayFits` | api/src/sql_params.rs:219-223 | the day of every 64-bit microsecond count fits 32 bits and the rest is a time of day |
| `Temporal.TimestampInjective` | api/src/sql_params.rs:192-223 | different instants print differently, negative years included |
| `Temporal.TimestampOrder` | api/src/sql_params.rs:192-223 | for years 0000 to 9999 text order is time order, with and without fraction |
| `FaultSpec.RoundTrip` | src/faults.rs:397-570 | every list of rules that can fire, written with the logged labels in the documented grammar, a separator between each two, is read back as itself |
| `FaultSpec.ParseSpec` | src/faults.rs:451-491 | the loop over the statements returns what the specification function says, stopping at the first error |
| `FaultSpec.AcceptedExactly` | src/faults.rs:449-491 | a spec gives one rule per statement, in order, each able to fire at its point, or is refused with the error of its first bad statement |
| `FaultSpec.SpecsJoin` | src/faults.rs:451-491 | specs joined by a semicolon read as their rule lists joined, errors included |
| `FaultSpec.ParsedRuleOk` | src/faults.rs:467-480 | an accepted rule has a non-zero `nth`, a probability in (0, 1], 64-bit numbers, and an action its point can carry |
| `FaultSpec.TriggerReads` | src/faults.rs:397-420 | every trigger's label is read back as that trigger |
| `FaultSpec.ActionReads` | src/faults.rs:422-447 | every action's label is read back as that action |
| `FaultSpec.KindReadsAnyCase` | src/faults.rs:234-247 | an error kind is read however its letters are cased |
| `FaultSpec.RuleReadsExactly` | src/faults.rs:449-491 | a rule is read from the texts that spell it and from no others: point, optional scope, trigger and action in the documented grammar, at a point that can carry the action |
| `FaultSpec.TriggerReadsExactly` | src/faults.rs:397-420 | a trigger is read from the texts that spell it and from no others |
| `FaultSpec.ActionReadsExactly` | src/faults.rs:422-447 | an action is read from the texts that spell it and from no others |
| `FaultSpec.TrimExactly` | src/faults.rs:453 | trimming a statement takes off the white space at both ends, all of it and nothing else |
| `FaultSpec.RuleRefused` | src/faults.rs:454-470 | a rule without `=`, with an unknown point, an unknown scope or without `:` is refused for that reason, the leftmost first |
| `FaultSpec.EffectRefused` | src/faults.rs:468-483 | then for the trigger, the action, or what its point cannot carry, in that order |
| `FaultSpec.TriggerRefused` | src/faults.rs:397-420 | which trigger texts are refused and why |
| `FaultSpec.ActionRefused` | src/faults.rs:422-447 | which action texts are refused and why |
| `FaultRegistry.Registry.Evaluate` | src/faults.rs:572-702 | each hit keeps counters, flags, hit table and log equal to what the whole hit history says, and the answer is what the rule that fires at it asks for: its error, its short write, going on, or not coming back; an unarmed registry does not count |
| `FaultRegistry.Registry.Scan` | src/faults.rs:608-637 | the loop over the rules advances exactly the matching counters and picks and marks the first rule that fires |
| `FaultRegistry.Registry.Install` | src/faults.rs:752-764 | an accepted spec starts a fresh history, a refused one changes nothing |
| `FaultRegistry.Registry.Disarm` | src/faults.rs:737-742 | dropping the guard leaves no rules, counters or log, and an unarmed registry |
| `FaultRegistry.Registry.Fire` | src/faults.rs:704-710 | the error of an `error` rule that fires, no return from `abort`, `simcrash` and an endless `pause`, and otherwise going on |
| `FaultRegistry.Registry.WriteAll` | src/faults.rs:716-729 | with an `error` rule the error and nothing written, with a short write of n the smaller of n and one less than the buffer and then a write error, with no rule or a harmless one everything |
| `FaultRegistry.NthErrorAnswers` | src/faults.rs:572-710 | from text to answer: with `nth=N:error=K` alone, the N-th call at its point and in its scope fails with K and every other call goes on |
| `FaultRegistry.LogExactly` | src/faults.rs:638-662 | the log has exactly one entry for each hit at which some rule fired and none for the others, in order, numbered 1, 2, 3, with the winner's own count and labels |
| `FaultRegistry.OnceFiresExactly` | src/faults.rs:620-634 | a `once` rule fires at the first hit it is about that no earlier rule takes, and at no other |
| `FaultRegistry.NthFiresExactly` | src/faults.rs:620-634 | an `nth=N` rule fires exactly at its N-th hit, if no earlier rule takes that hit |
| `FaultRegistry.MaskedNthNeverFires` | src/faults.rs:620-634 | if an earlier rule takes its N-th hit it never fires |
| `FaultRegistry.AtMostOnce` | src/faults.rs:625-629 | only `prob` rules fire more than once |
| `FaultRegistry.CountersAddUp` | src/faults.rs:583-620 | each rule's counter is the matching total of the per-point, per-scope hit table |
| `FaultRegistry.ProbFiresExactly` | src/faults.rs:620-637 | a `prob` rule anywhere in the list fires exactly at its scheduled hits that no earlier rule takes |
| `FaultRegistry.FiresOnSchedule` | src/faults.rs:744-750 | a leading one, never masked, fires at exactly the hits its schedule lists |
| `FaultRegistry.ScheduleExactly` | src/faults.rs:744-750 | the schedule lists in ascending order exactly the hit numbers at which the trigger fires |
| `FaultRegistry.ProbSchedule` | src/faults.rs:746-750 | the loop over the hit numbers returns that schedule |
| `FaultRegistry.OutcomesFit` | src/faults.rs:472-483 | with an accepted spec an error comes up only at points that can carry one, a short write only at a wrapper |
| `FaultChance.CertainFiresExactly` | src/faults.rs:391-395 | with `p` = 1 the comparison succeeds if and only if the draw is below 2^64 - 1024 |
| `FaultChance.CertainRuleMisses` | src/faults.rs:371-395 | with the registry's own draw, for every table of names, point and hit number there is a 64-bit seed with which a `prob=1` rule misses that hit in every history |
| `FaultChance.CertainSchedule` | src/faults.rs:744-750 | for every way of drawing, what `prob=1` schedules: the hits whose draw is not among the topmost 1024 |
| `FaultChance.MoreLikelyFiresMore` | src/faults.rs:391-395 | raising `p` only adds firings |
| `FaultChance.FiresByDraw` | src/faults.rs:391-395 | for every probability a draw fires if it is more than 1024 below `p` times 2^64 and does not if it is 1024 above; below 2^53 the comparison is exact |
| `FaultChance.KnownValues` | src/faults.rs:374-389 | the hash and the generator give their published first values |
| `SessionInterleaving.AgreeBetweenCalls` | api/src/sql_session.rs:145-376 | on every interleaving in which no shutdown clears `meta` while a statement is out, the two maps agree whenever the sessions lock is free |
| `SessionInterleaving.AgreeExactly` | api/src/sql_session.rs:145-376 | for every run: the maps agree in each state with the sessions lock free if and only if no shutdown clears `meta` while a statement is out |
| `SessionInterleaving.ShutdownWhileOut` | api/src/sql_session.rs:236-259 | from any state with the lock free and a statement on its way back, a shutdown first leaves its session without a record, its age restarted |
| `SessionInterleaving.AgreementLost` | api/src/sql_session.rs:236-376 | that is reached from the start, for every limits that admit a session: a run whose maps disagree in the end |
| `SessionInterleaving.CapHolds` | api/src/sql_session.rs:145-180 | on every interleaving in which no shutdown clears `meta` while a statement is out, a principal's open sessions, held or checked out, are at most the cap, although counting and inserting are separate steps |
| `SessionInterleaving.RecordsCapped` | api/src/sql_session.rs:145-180 | on every interleaving at all, a principal's records are at most the cap |
| `SessionInterleaving.CapLost` | api/src/sql_session.rs:145-376 | for every cap of at least one there is a run, with `meta` cleared while a statement is out, that ends with one open session more than the cap |
| `SessionInterleaving.CapExactly` | api/src/sql_session.rs:145-376 | when a shutdown is about to clear `meta`, the cap is safe on every way the run can go on without another clearing if and only if no statement is out |
| `SessionInterleaving.ListOfRunning` | api/src/sql_session.rs:277-320 | in every run without such a clearing a session in a statement's hands is listed, and listed as executing except while `take` or `put_back` is midway; it is listed as expired if and only if one of them is and its recorded times are past a limit |
| `SessionInterleaving.RunningListedExpired` | api/src/sql_session.rs:188-225 | for every limits that admit a session, a run in which that happens: the idle timeout passes between the two halves of `take` |
| `SessionInterleaving.ListOfHeld` | api/src/sql_session.rs:277-320 | at any moment of a run without such a clearing a session in the registry is listed, except while `create` has not recorded it yet, and is listed as expired exactly when it is |
| `SessionInterleaving.HandedOutInTime` | api/src/sql_session.rs:188-225 | in a run without such a clearing a session handed out is no older than the maximum lifetime counted from its BEGIN, not idle too long, and the caller's own |
| `SessionInterleaving.TakeDecides` | api/src/sql_session.rs:188-225 | on every interleaving an expired session is rolled back whoever asks, a live one goes to its owner, and anybody else's `take` changes nothing |
| `SessionInterleaving.RolledBackOnlyLate` | api/src/sql_session.rs:188-376 | on every interleaving a transaction in the registry is rolled back only by a shutdown or when its session is idle or open too long at that moment |
| `SessionInterleaving.SweepRemovesAll` | api/src/sql_session.rs:341-363 | and a sweep removes every session that was idle or open too long when it began |
| `SessionInterleaving.HolderGoesOn` | api/src/sql_session.rs:145-376 | on every interleaving whoever holds the sessions lock has a next step |
| `SessionInterleaving.IdleSinceReturn` | api/src/sql_session.rs:227-259 | on every interleaving idle time counts from the session's latest `put_back`, or from its BEGIN before the first |
| `SessionInterleaving.ListTells` | api/src/sql_session.rs:277-320 | in a run without such a clearing, between calls: `list` tells whether a statement has the session, the time since its BEGIN, the time since its latest `put_back` and what is left of each limit |
| `SessionInterleaving.OnePlace` | api/src/sql_session.rs:188-259 | on every interleaving, whenever the registry is shut down, no transaction is under two ids, or in the registry and in a statement's hands |
| `SessionInterleaving.SomePlace` | api/src/sql_session.rs:145-376 | on every interleaving none gets lost: every transaction is being created, in the registry, in a statement's hands, rolled back or finished |
| `SessionInterleaving.RunningIsLeftAlone` | api/src/sql_session.rs:341-376 | on every interleaving nobody rolls back a transaction a statement is using; it goes back under its own id or ends with the statement |
| `SessionInterleaving.EndedForGood` | api/src/sql_session.rs:263-376 | on every interleaving a transaction that was rolled back or finished is nowhere from then on |
| `SqlSessions.PutBackAgreesExactly` | api/src/sql_session.rs:236-259 | putting a transaction back keeps the maps in agreement if and only if its session still has a record |
| `SqlSessions.ListPredictsTake` | api/src/sql_session.rs:277-320 | between calls, `list` says expired exactly when `take` would refuse the owner and the reaper would remove the session, and not of a running one |
| `SqlSessions.TakeAgrees` | api/src/sql_session.rs:188-225 | every outcome of `take` keeps the maps in agreement |
| `SqlSessions.ReapAgrees` | api/src/sql_session.rs:341-363 | the sweep keeps the maps in agreement |
| `SqlSessions.SqlSessionRegistry.Create` | api/src/sql_session.rs:145-180 | refused exactly at the cap, and then nothing changes; otherwise one entry in both maps |
| `SqlSessions.SqlSessionRegistry.Take` | api/src/sql_session.rs:188-225 | an expired session is rolled back and forgotten whoever asks, a live one is handed to its owner and marked, and to anybody else it is not found and nothing changes |
| `SqlSessions.SqlSessionRegistry.PutBack` | api/src/sql_session.rs:236-259 | the session returns active as of now, with its recorded creation time, the fallback only without a record |
| `SqlSessions.SqlSessionRegistry.Finish` | api/src/sql_session.rs:263-268 | forgets the record and leaves `sessions` alone |
| `SqlSessions.SqlSessionRegistry.Shutdown` | api/src/sql_session.rs:370-376 | empties both maps and rolls back exactly the transactions held |
| `SqlSessions.SqlSessionRegistry.ReapExpired` | api/src/sql_session.rs:341-363 | removes exactly the expired sessions from both maps and rolls back exactly their transactions |
| `SqlSessions.SqlSessionRegistry.List` | api/src/sql_session.rs:277-320 | the smallest ids in order, each with its view, none left out below the last shown |
| `EditDistance.Distance` | api/src/sql_hints.rs:15-28 | the two-row loop computes the full recurrence |
| `EditDistance.LevIsShortest` | api/src/sql_hints.rs:15-28 | the recurrence is the length of a shortest edit script: some script has it and none is shorter |
| `EditDistance.ZeroMeansEqual` | api/src/sql_hints.rs:15-28 | distance zero only between equal words |
| `EditDistance.Symmetric` | api/src/sql_hints.rs:15-28 | the distance is symmetric |
| `EditDistance.Triangle` | api/src/sql_hints.rs:15-28 | the distance obeys the triangle inequality |
| `EditDistance.ClosestIsFirstNearest` | api/src/sql_hints.rs:31-42 | the hint is the first candidate of least non-zero distance within the limit, and none exactly when there is no such candidate |
| `VersionRing.SlotIsNewest` | examples/compaction_soak.rs:188-203 | however records arrive, the slot is the newest part of the sorted complete history |
| `VersionRing.ArrivalOrderIrrelevant` | examples/compaction_soak.rs:188-203 | with distinct sequence numbers the slot does not depend on the order of arrival |
| `VersionRing.AnswersAreComplete` | examples/compaction_soak.rs:216-234 | every answer the bounded slot gives is the complete history's |
| `VersionRing.AnswersInFull` | examples/compaction_soak.rs:216-234 | so an answer is the value of a version recorded for the key, the highest not above the one asked for |
| `VersionRing.DeclinesExactly` | examples/compaction_soak.rs:216-234 | it declines exactly when something was recorded and all of what is kept is newer than asked for |
| `VersionRing.LookupIsHighest` | examples/compaction_soak.rs:216-234 | the lookup is the highest version not above the one asked for |
| `VersionRing.RecordInSlot` | examples/compaction_soak.rs:188-203 | the insertion loop with its trim is the sorted insertion cut to the newest |
| `VersionRing.QuerySlot` | examples/compaction_soak.rs:216-234 | the backward scan is that lookup |
| `VersionRing.RefModel.Record` | examples/compaction_soak.rs:188-203 | one record goes to its key's slot only, and the high-water mark is the highest number recorded |
| `VersionRing.RefModel.Latest` | examples/compaction_soak.rs:206-211 | a version recorded for the key, with the highest number recorded for it |
| `VersionRing.HighestIsHighest` | examples/compaction_soak.rs:206-211 | that number bounds every recorded one and is one of them or zero |
| `VersionRing.RefModel.OwnLatestSeq` | examples/compaction_soak.rs:161-168 | its sequence number, zero for a key never written |
| `VersionRing.RefModel.FreshestSafeSeq` | examples/compaction_soak.rs:172-179 | the highest sequence number recorded for any key, if any |
| `VersionRing.RefModel.Query` | examples/compaction_soak.rs:216-234 | a query answers with the highest version recorded not above the one asked for, or declines, under that condition |
| `RateLimiter.ClosedForm` | api/src/rate_limit.rs:32-48 | a request is admitted if and only if, counted from every earlier request, one more fits into the burst plus the refill since |
| `RateLimiter.WindowBound` | api/src/rate_limit.rs:32-48 | any window admits at most the burst plus rate times length |
| `RateLimiter.SpacedRequestAdmitted` | api/src/config.rs:214-224 | with a validated configuration a request one refill interval after the previous one is admitted |
| `RateLimiter.ZeroBurstRefusesAll` | api/src/config.rs:214-224 | a burst of zero, which validation refuses, would admit nothing |
| `RateLimiter.BackwardsRefillsNothing` | api/src/rate_limit.rs:32-48 | a clock that runs backwards refills nothing |
| `RateLimiter.PrincipalsIndependent` | api/src/rate_limit.rs:32-48 | a principal's bucket is a function of its own requests |
| `RateLimiter.Limiter.Check` | api/src/rate_limit.rs:32-48 | the decision is the one for this principal's own requests |
| `SecurityLog.KeptIsSuffix` | api/src/security_log.rs:236-310 | the retained files, oldest to newest, are a suffix of everything written |
| `SecurityLog.FilesStayBounded` | api/src/security_log.rs:277-310 | every file stays within the cap or holds a single line |
| `SecurityLog.GenerationsCapped` | api/src/security_log.rs:300-310 | there is never a generation beyond the configured number |
| `SecurityLog.OverCapExactly` | api/src/security_log.rs:23-27 | a file is over the cap exactly when it is one line larger than the cap |
| `SecurityLog.DiskBoundExactly` | api/src/security_log.rs:23-27 | the documented bound on total disk use holds after all sequences of events if and only if the cap is at least the longest line the clipping allows |
| `SecurityLog.DefaultsKeepPromise` | api/src/security_log.rs:192-210 | so it holds of every log opened with the default bounds |
| `SecurityLog.TotalStaysBounded` | api/src/security_log.rs:236-310 | with any cap, as long as the lines written fit it, total disk use stays within the cap times the number of files |
| `SecurityLog.OversizeLinesBreakBound` | api/src/security_log.rs:277-291 | a line over the cap is written all the same, and one for each file takes the total over the bound |
| `SecurityLog.TotalBound` | api/src/security_log.rs:23-27 | the bound for one set of files without an oversize line |
| `SecurityLine.LineBound` | api/src/security_log.rs:123-153 | no line, newline included, is longer than 5517 bytes |
| `SecurityLine.LineBoundReached` | api/src/security_log.rs:123-153 | and an event the clipping lets through has a line that long |
| `SecurityLine.OneLinePerEvent` | api/src/security_log.rs:18-21 | whatever the fields hold, the line has no control character, so an event is one line |
| `SecurityRead.LineReadsBack` | api/src/security_log.rs:14-21 | no forging: read as a JSON object, a line is the time and exactly the fields it was written from, each under its own name, whatever characters they hold |
| `SecurityLine.Utf8IsEncoding` | api/src/security_log.rs:260-270 | the size of a character is that of its bytes by section 3 of RFC 3629, which read back as the character |
| `SecurityLog.RotationDropsOldest` | api/src/security_log.rs:300-310 | a rotation loses the oldest generation and nothing else |
| `SecurityLog.Rotate` | api/src/security_log.rs:300-310 | the renaming loop shifts every generation by one |
| `SecurityLog.FailuresConserved` | api/src/security_log.rs:236-275 | failures received are the lines emitted plus the counts they carry plus the count still pending |
| `SecurityLog.AuthLinesSpaced` | api/src/security_log.rs:236-275 | authentication lines are at least the interval apart |
| `SecurityLog.WritesExactly` | api/src/security_log.rs:236-275 | in every run a failure less than the interval after the last authentication line writes nothing; every other event writes one line with its own time, on an authentication line with the number of failures since the one before |
| `SecurityLog.RotatesOnlyWhenFull` | api/src/security_log.rs:277-291 | and no file is rotated early: each retained generation had no room for the line that came after it |
| `SecurityLog.SecurityLog.Record` | api/src/security_log.rs:236-275 | one event leaves the gate, the pending count and the files as the history says; it writes nothing exactly when it is a failure too soon after the last authentication line |
| `Metrics.ReservoirIsNewest` | api/src/metrics.rs:52-81 | a route's reservoir holds exactly its last 1000 latencies, each as often as it occurred |
| `Metrics.CountsAndMaximum` | api/src/metrics.rs:52-81 | a route's counters are those of its finished requests, and its maximum bounds every latency and is one of them or zero |
| `Metrics.PercentilesOrdered` | api/src/metrics.rs:134-145 | the percentiles are ordered, come from the reservoir and do not exceed the lifetime maximum |
| `Metrics.PercentileRanks` | api/src/metrics.rs:134-145 | for every p below 1 at most that share of the latencies is below the percentile and more than that share at most it |
| `Metrics.SortSorts` | api/src/metrics.rs:134-145 | the sorted copy is ascending and holds the same latencies as often |
| `Metrics.CountsAddUp` | api/src/metrics.rs:118-125 | per-route counts sum to all finished requests |
| `Metrics.KeysCapped` | api/src/metrics.rs:52-81 | there are never more route keys than the cap plus the overflow key |
| `Metrics.BookedUnder` | api/src/metrics.rs:52-81 | every request is booked under its own route if that is among the first 128 seen, and under the overflow entry otherwise |
| `Metrics.EntriesAreBooked` | api/src/metrics.rs:52-81 | each entry is the statistics of exactly the requests booked under its key |
| `Metrics.ServiceMetrics.StartRequest` | api/src/metrics.rs:104-111 | one more request under way, nothing booked |
| `Metrics.ServiceMetrics.Abandon` | api/src/metrics.rs:45-49 | one fewer under way, nothing booked |
| `Metrics.ServiceMetrics.Finish` | api/src/metrics.rs:52-81 | one finished request updates its own entry, or the overflow entry, and no other |
| `Metrics.ServiceMetrics.RoutePercentiles` | api/src/metrics.rs:134-145 | the reported values are the 50th, 95th and 99th percentile of the newest latencies by rank, ordered and at most the maximum; none exactly when nothing was booked |

## Left out

- When a leader closes its batch (window, moving average, cohort and quiet-time heuristics, spinning, striped condition variables) is arbitrary choice, so every policy is covered and none is described; batch counters and latency figures are not modelled.
- Frames are whole records: a torn frame at the end of the file, and the group writes of the oracle's fourth check, are below this model.
- That `sync_all` and file writes succeed: an I/O error in the prototype panics, in the security log it is swallowed, in the fault log it is ignored; none of that is modelled.
- Progress: that nobody is stuck is proved, fairness and how long a thread waits are not.
- GroupCommit.NoLostWakeup: spurious wake-ups and timeouts are a step that is always possible, the length of the timeout is not modelled.
- FaultSpec.RoundTrip: the table of the 67 points is a parameter; the theorem is for every table whose names are distinct and made of lower-case letters, underscores and dots, as those of the source are.
- FaultSpec.RoundTrip: that a double's printed text is digits and a point and reads back as the same number is the standard library's, and is assumed for the probabilities of the rules at hand.
- FaultSpec.AcceptedExactly: errors are kinds, without the message text around them.
- FaultRegistry.Registry.WriteAll: the writer underneath accepts every byte.
- The fault log file, the trace lines, the ready file, the environment variables, the sorted listing of the hit table, thread names and times of firings.
- FaultRegistry.Registry.Evaluate: counters are unbounded; the source's are 64-bit.
- Calendar.ParserCountExactly: 64-bit overflow is an outcome of its own, since it panics or wraps depending on the build.
- RateLimiter.ClosedForm: tokens and times are reals, so rounding of doubles is not modelled; the clock does not run backwards.
- Metrics.PercentilesOrdered: latencies are reals.
- SecurityLog.KeptIsSuffix: renames succeed.
- SecurityLog.DiskBoundExactly: at most 2^64 - 1 events, so that the suppressed count fits its integer.
- VersionRing.RefModel.Record: slot and high-water mark change in one step, the source raises the mark after releasing the slot's lock.
- SqlSessions.SqlSessionRegistry.Create: ids are numbers, drawn fresh by `create`; what a transaction does, and whether its rollback succeeds, is outside.
- The real write-ahead log, storage engine, SQL binder and executor, HTTP layer, authentication, configuration apart from the rate limit, and the command line.
