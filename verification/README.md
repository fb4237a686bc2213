# Minstrel rate control: a Dafny model and its proofs

This project models the Minstrel transmit-rate controller of the w1 driver, in its
HT/VHT form (`rc80211_minstrel_ht.c`) and its legacy form (`rc80211_minstrel.c`), and
the two driver functions around it that build a retry chain and report its outcome.
A station keeps counters and moving averages per rate, ranks its rates, and spends a
small budget on sampling other rates in the order of a random table. The proofs are
about all inputs, runs and states that meet the preconditions listed below.

## How the model is laid out

| file | content |
|---|---|
| `FixedPoint.dfy` | the scaled arithmetic, its ranges, and convergence of the moving average |
| `RateStats.dfy` | one cell of statistics and all runs of events on it |
| `Ranking.dfy` | the bounded ranked list: insertion, merge, uniqueness |
| `MostProbable.dfy` | the challenges that decide the most probable rate |
| `SampleTable.dfy`, `SampleCursor.dfy` | filling the sampling tables and walking them |
| `HtSampler.dfy`, `HtSeek.dfy`, `HtSampling.dfy` | whose turn it is to be sampled, the open-ended search, the budget |
| `Retransmit.dfy` | how many tries fit a segment |
| `HtRates.dfy` | groups, durations, throughput estimate, hardware encoding |
| `HtModel.dfy`, `HtFeedback.dfy`, `HtStation.dfy` | what an HT station's operations compute, and the station itself |
| `HtRun.dfy` | whole runs of statuses on an HT station |
| `LegacyModel.dfy`, `LegacySampling.dfy`, `LegacyStation.dfy`, `LegacyRun.dfy` | the same for a legacy station |
| `Driver.dfy`, `DriverRun.dfy` | building a frame's chain, the status that comes back, and the life of a station from its association on |

The two stations are classes whose methods work in place, loop by loop as the source
does. Each method's contract ties the new state to a function of the old one, and the
lemmas prove what the source promises about those functions. A C struct stored by value
in an array is a value in a Dafny array; the rates of HT group g are cells 10 g .. 10 g + 9
of one array, which is the numbering the source uses for every stored rate index.
Bit masks are sequences of booleans. Random bytes, the clock (an `expired` flag of a
status) and what the received signal allows are inputs.

## What the preconditions say

* Counters are unsigned 32-bit and their sums are written with the wrap. Reports ask that
  the attempts of the running interval fit; `RateStats.WrapBreaksSoundness` and
  `RateStats.ReportSoundIff` show why and say exactly when it matters. Nothing is asked of
  the lifetime counters, which wrap on a long-lived link: what then still holds of them is
  `RateStats.EveryRunHistoricIff` and the congruence in `RateStats.EveryRunConserves`.
* A recomputation asks that the interval leave an average aggregate length of at least
  one subframe, which the throughput estimate divides by. `HtModel.AverageUsableIff` states
  this in the interval's counts, `HtModel.TooManySubframes` shows a failing interval, and
  fewer than 2^20 subframes always suffice, also for the counters
  (`HtRun.PacedIsSustained`). For the statuses that the driver makes, one subframe each,
  this bound is exact (`HtModel.OneSubframeIff`, `DriverRun.ServeAll`).
* A reported chain names existing cells, its first entry was really tried if it names a
  supported rate, and no more subframes are acknowledged than were sent. The later
  entries need no such condition: the source checks them.
* A legacy station supports some rate of its band and reports only rate numbers of that
  band; the source would read outside its tables otherwise.

## Where the code and its comments part

* Rule (1) of the comment on the most probable legacy rate (`rc80211_minstrel.c`, lines
  286-291) is not what the loop does; `LegacyModel.RuleOneIff` gives the exact condition.
* The list that the legacy sort builds is thrown away; only the estimates that it stores
  survive, and the chain is found by a second pair of loops.
* A group's list of fast rates holds the best rates of all groups up to it, because the
  temporary list is not cleared between groups. That is what makes downgrades descend.
* The sampled HT rate need not be supported: the result of the search is ignored by its
  caller, and a rate far above the best is moved to a neighbour without asking. The
  probability test for the second slot reads the group that was current before the
  search. The model does the same.
* The rules for the most probable HT rate (`rc80211_minstrel_ht.c`, lines 428-436) are met
  unless the rate selected before got worse: until its own turn the pass compares it by
  its old statistics. `MostProbable.HighestIff` and `MostProbable.FastestIff` say exactly
  when the rules are met.
* The association ranks its start statistics without writing the rate table, which lags
  behind the chosen rates until the first interval ends or a rate is downgraded.
* A frame that was not acknowledged is put down to its first entry with that entry's two
  tries, however often it was sent and at whatever rates.
* The signed product in the throughput estimate overflows an `int` above 52%; the model
  follows the wrap and the cast to unsigned, under which the value is exact.

## Model

| member | source | states |
|---|---|---|
| FixedPoint.FracWithin | project_w1/vmac/rc80211_minstrel.h:19-22 | the scaled ratio of a part to a whole is at most 4096, even if the unsigned shift wraps |
| FixedPoint.FracExact | project_w1/vmac/rc80211_minstrel.h:19-22 | below 2^20 the scaled ratio is the exact rounded-down quotient |
| FixedPoint.EwmaMoves | project_w1/vmac/rc80211_minstrel.h:35-44 | one averaging step goes a quarter of the way, rounded down, and stands still exactly when old and new differ by less than 4 |
| FixedPoint.EwmvRange | project_w1/vmac/rc80211_minstrel.h:49-57 | the variance never leaves 0..3072 |
| FixedPoint.EwmvMoves | project_w1/vmac/rc80211_minstrel.h:49-57 | the variance takes in the distance times its rounded-down quarter, whatever its direction, and keeps three quarters of the sum |
| FixedPoint.NeverOvershoots | project_w1/vmac/rc80211_minstrel.h:35-44 | under a steady ratio the average stays between its start and the ratio, and its distance follows one fixed decay |
| FixedPoint.SettlesIn27 | project_w1/vmac/rc80211_minstrel.h:35-44 | any steady ratio is reached from any average to within 3/4096 in at most 27 intervals, and the average then rests |
| FixedPoint.SettlesNoSooner | project_w1/vmac/rc80211_minstrel.h:35-44 | 26 intervals are not enough to come down from certainty |
| RateStats.CalcRateStats | project_w1/vmac/rc80211_minstrel.c:169-195 | the in-place recomputation of a cell computes the recomputed cell whose properties the lemmas below state |
| RateStats.MeasuredInRange | project_w1/vmac/rc80211_minstrel.c:172-185 | the new average and variance fit their 16-bit fields without truncation and nothing else changes |
| RateStats.RecalculatedSound | project_w1/vmac/rc80211_minstrel.c:169-195 | whatever the lifetime counters hold, a recomputation keeps the cell sound and sets the average to the ratio when the lifetime counter of attempts is zero and to the moving average otherwise |
| RateStats.StepSound | project_w1/vmac/rc80211_minstrel_ht.c:396-425 | each event of a cell's life (report, recomputation, clear, fresh start) keeps success <= attempts and both averages in range, as long as the interval's attempts fit 32 bits |
| RateStats.EveryRunSound | project_w1/vmac/rc80211_minstrel_ht.c:556-566 | those bounds hold after every run of events, in any order and however long |
| RateStats.WrapBreaksSoundness | project_w1/vmac/rc80211_minstrel_ht.c:683-686 | a concrete run in which the 32-bit attempt counter wraps and a probability of five times certainty is stored |
| RateStats.ReportSoundIff | project_w1/vmac/rc80211_minstrel_ht.c:683-686 | exactly when one honest report keeps a cell sound, in terms of the two interval counters before it |
| RateStats.StepHistoricIff | project_w1/vmac/rc80211_minstrel.c:187-194 | an event keeps succ_hist <= att_hist exactly if it is no recomputation or the sums do not wrap, both wrap, or only the attempts do and end above the successes |
| RateStats.EveryRunHistoricIff | project_w1/vmac/rc80211_minstrel.c:187-194 | over every run succ_hist <= att_hist holds throughout exactly if every recomputation meets that condition |
| RateStats.HistoryWraps | project_w1/vmac/rc80211_minstrel.c:187-194 | a lifetime counter of attempts that wraps leaves more past successes than past attempts, while the probability stays in range |
| RateStats.StepConserves | project_w1/vmac/rc80211_minstrel.c:187-194 | a report adds what it reports, a recomputation loses nothing but whole wraps of the lifetime counters |
| RateStats.EveryRunConserves | project_w1/vmac/rc80211_minstrel.c:187-194 | over every run without resets, history plus interval counters grow by what was reported: exactly while the sum fits 32 bits, and up to multiples of 2^32 for ever |
| RateStats.SmallReportsFit | project_w1/vmac/rc80211_minstrel.c:371-375 | a few honest reports are counted exactly in a cell with room |
| RateStats.IntervalsSettle | project_w1/vmac/rc80211_minstrel.c:172-194 | intervals that measure one ratio, with any number of tries each and idle ones in between, leave the average where as many averaging steps as there were active intervals lead, or at the ratio itself after a zero lifetime counter |
| RateStats.SteadyRatioIsLearned | project_w1/vmac/rc80211_minstrel.c:172-194 | after 27 active intervals of one ratio, however often the rate was tried in each, the stored probability is within 3/4096 of it, and the next interval leaves it alone or makes it exact |
| Ranking.InsertPos | project_w1/vmac/rc80211_minstrel_ht.c:223-234 | the scan from the back stops below exactly the entries that the candidate does not beat |
| Ranking.InsertSplits | project_w1/vmac/rc80211_minstrel_ht.c:236-240 | an insertion trades the candidate against exactly one evicted entry |
| Ranking.InsertKeepsTop | project_w1/vmac/rc80211_minstrel_ht.c:209-241 | an insertion keeps the list sorted, drawn from the candidates, and with no omitted candidate above its last entry |
| Ranking.InsertAllKeepsTop | project_w1/vmac/rc80211_minstrel_ht.c:468-504 | so does offering any sequence of candidates |
| Ranking.MergeIsTop | project_w1/vmac/rc80211_minstrel_ht.c:319-325 | inserting one ranking into another ranks the union of what both were chosen from |
| Ranking.TopIsUnique | project_w1/vmac/rc80211_minstrel_ht.c:209-241 | a ranking is determined by its candidates up to ties |
| Ranking.TopIs | project_w1/vmac/rc80211_minstrel_ht.c:209-241 | along a ranking throughput never rises and among equals probability does not, and nothing left out is faster than an entry or as fast and more probable |
| Ranking.SpareCopies | project_w1/vmac/rc80211_minstrel_ht.c:456-460 | copies of a candidate beyond the length of the list do not matter |
| SampleTable.FreeSlot | project_w1/vmac/rc80211_minstrel.c:538-543 | a free slot exists whenever the probing loop is entered |
| SampleTable.FirstFreeUnique | project_w1/vmac/rc80211_minstrel.c:539-541 | where a probe ends does not depend on which free slot shows that it ends |
| SampleTable.Place | project_w1/vmac/rc80211_minstrel.c:543 | storing a rate in a free slot leaves exactly one more rate placed |
| SampleTable.FilledIsPermutation | project_w1/vmac/rc80211_minstrel.c:526-545 | for all random bytes a filled column holds every rate exactly once and no 0xff |
| SampleTable.EachWhereItProbed | project_w1/vmac/rc80211_minstrel_ht.c:1345-1350 | every rate ends up at the first slot, from (rate + its random byte) modulo the column on, that no lower rate took |
| SampleTable.LegacyWhereItProbed | project_w1/vmac/rc80211_minstrel.c:537-544 | in a legacy column the byte is that of the rate number modulo 8 |
| SampleTable.FillHtColumn | project_w1/vmac/rc80211_minstrel_ht.c:1345-1350 | the HT probing loops terminate and fill a column as specified, leaving the other columns alone |
| SampleTable.InitHtTable | project_w1/vmac/rc80211_minstrel_ht.c:1333-1352 | every column of the shared table is so filled |
| SampleTable.FillLegacyColumn | project_w1/vmac/rc80211_minstrel.c:537-544 | the legacy probing loops terminate and fill a column as specified, with random byte i & 7 for rate i |
| SampleTable.InitLegacyTable | project_w1/vmac/rc80211_minstrel.c:526-545 | every column of a station's table is so filled, also for a station without rates |
| SampleCursor.FilledTableFair | project_w1/vmac/rc80211_minstrel_ht.c:1333-1352 | a table filled with any random bytes is fair: every column is a permutation |
| SampleCursor.Advance | project_w1/vmac/rc80211_minstrel.c:409-415 | the cursor never leaves the table |
| SampleCursor.Slice | project_w1/vmac/rc80211_minstrel.c:404-417 | draws inside a column read it in order |
| SampleCursor.WholeColumns | project_w1/vmac/rc80211_minstrel.c:404-417 | m whole columns return every rate m times |
| SampleCursor.OneColumnIsPermutation | project_w1/vmac/rc80211_minstrel.c:404-417 | n draws from row 0 return each rate once |
| SampleCursor.FullTurn | project_w1/vmac/rc80211_minstrel.c:404-417 | from any position, as many draws as the table has entries return each rate once per column and lead back |
| SampleCursor.ToZeroDecreases | project_w1/vmac/rc80211_minstrel_ht.c:877-889 | each draw that is not rate 0 brings the cursor one step nearer to a rate 0, at most 2(n-1) steps away |
| HtSampler.Rest | project_w1/vmac/rc80211_minstrel_ht.c:595-611 | the open-ended search for a group ends, in a group with rates |
| HtSampler.NextShape | project_w1/vmac/rc80211_minstrel_ht.c:592-612 | only the cursor of the group that comes next moves, and by one place |
| HtSampler.TicksMakeVisits | project_w1/vmac/rc80211_minstrel_ht.c:592-612 | turns of the search loop and visits keep pace around the groups |
| HtSampler.OriginNext | project_w1/vmac/rc80211_minstrel_ht.c:592-612 | a search that starts at a group without rates goes the same way as from the group with rates before it |
| HtSampler.OneRound | project_w1/vmac/rc80211_minstrel_ht.c:592-612 | in one round, from any state, every group with rates is visited exactly once and the others never |
| HtSampler.ManyRounds | project_w1/vmac/rc80211_minstrel_ht.c:592-612 | m rounds, from any state, draw m consecutive table entries for every group with rates |
| HtSampler.EveryRateEquallyOften | project_w1/vmac/rc80211_minstrel_ht.c:592-612 | over a full cycle, from any state, every group with rates draws each MCS index exactly once per column, the others nothing, all cursors recur, and the turn recurs or has moved to the group with rates before its start |
| HtSeek.TotalAfter | project_w1/vmac/rc80211_minstrel_ht.c:877-890 | a look that does not find rate 0 uses up exactly one step of the total distance |
| HtSeek.Seek | project_w1/vmac/rc80211_minstrel_ht.c:871-895 | the while(1) search ends from every state |
| HtSeek.SeekEnds | project_w1/vmac/rc80211_minstrel_ht.c:871-895 | it ends after at most 2(n-1) looks per group with rates and one more, on a supported rate within the limit or on an unsupported one |
| HtSeek.SeekPasses | project_w1/vmac/rc80211_minstrel_ht.c:871-895 | look by look: every look before the last found a supported rate above the limit, and the last one found what the search ends with |
| HtSampling.SamplesArePaidFor | project_w1/vmac/rc80211_minstrel_ht.c:667-672 | over every run between recomputations, samples issued + sample_tries + 2 * sample_count is constant |
| HtSampling.IntervalBound | project_w1/vmac/rc80211_minstrel_ht.c:517-518 | an interval issues at most the tries left over and 20 per supported group |
| HtSampling.PauseHolds | project_w1/vmac/rc80211_minstrel_ht.c:911-914 | while w requests are to be skipped, no run with at most w requests samples, whatever statuses arrive in between |
| HtSampling.RefillPauses | project_w1/vmac/rc80211_minstrel_ht.c:667-672 | a refill is followed by ten requests that do not sample, and leaves two samples for afterwards |
| HtSampling.ClimbsSlowly | project_w1/vmac/rc80211_minstrel_ht.c:941-949 | a sample is at most two MCS steps above the faster of the two best rates, and not above it when a struggling link's search succeeds |
| HtRates.DurationBound | project_w1/vmac/rc80211_minstrel_ht.h:91-198 | every duration that the group initialisers list is at least 0.4 ms, the others are 0 |
| HtRates.GroupsInOrder | project_w1/vmac/rc80211_minstrel_ht.h:108-149 | which group number has which width, guard interval and kind |
| HtRates.BitsPerSymbol | project_w1/vmac/rc80211_minstrel_ht.h:115-172 | the bits per symbol in the group tables are data carriers times bits per carrier times coding rate, rounded down |
| HtRates.SymbolTime | project_w1/vmac/rc80211_minstrel_ht.h:85-99 | a listed MCS or VHT duration is a sixteenth of the time of just as many symbols as 16 subframes of 24000 bytes need, at 4 or 3.6 microseconds |
| HtRates.CckDurations | project_w1/vmac/rc80211_minstrel_ht.h:175-198 | the eight CCK durations |
| HtRates.DurationOrder | project_w1/vmac/rc80211_minstrel_ht.h:91-172 | a higher index, a wider channel and a shorter guard interval never make a frame longer |
| HtRates.OverheadFrames | project_w1/vmac/rc80211_minstrel.c:806-871 | the two OFDM durations behind the per-frame overheads |
| HtRates.PerSecondExact | project_w1/vmac/rc80211_minstrel_ht.c:193-199 | up to 90% no step of the estimate wraps in 32 bits, and it is at most 224 |
| HtRates.TpAvgMonotone | project_w1/vmac/rc80211_minstrel_ht.c:173-200 | the throughput estimate grows with probability and with aggregate length, shrinks with the duration of the frames and with the overhead, across all cells with a duration, and is at most 224 |
| HtRates.EstimateIs | project_w1/vmac/rc80211_minstrel_ht.c:173-200 | the estimate is exactly zero below 10% and otherwise the scaled quotient of the certainty, capped at 90%, by the frame time: the duration for a CCK rate, and for any other the duration and the rounded-down share of the overhead that one of the aggregate's whole subframes pays |
| HtRates.CckPaysNothing | project_w1/vmac/rc80211_minstrel_ht.c:183-184 | the estimate of a CCK rate depends neither on the overhead nor on the average length |
| HtRates.RoundTrip | project_w1/vmac/rc80211_minstrel_ht.c:110-161 | the (idx, flags) written for a rate decodes to the same cell exactly when the group lists the rate and, for CCK, no earlier rate shares its index and the long-preamble bit tells the two cells apart |
| HtModel.FinalSound | project_w1/vmac/rc80211_minstrel_ht.c:478-481 | a recomputed cell is sound and estimable, its interval counters are cleared and its retry counts are marked outdated; unsupported cells are untouched |
| HtModel.FinalConserves | project_w1/vmac/rc80211_minstrel_ht.c:478-481 | a recomputation pass loses no counts but whole wraps of the lifetime counters |
| HtModel.HalfwayKeys | project_w1/vmac/rc80211_minstrel_ht.c:470-498 | during the pass every comparison already uses final keys |
| HtModel.RanksNext | project_w1/vmac/rc80211_minstrel_ht.c:486-495 | the next supported rate is inserted into a ranking of the rates before it |
| HtModel.RanksDescend | project_w1/vmac/rc80211_minstrel_ht.c:494-506 | the list copied to a group names rates of that group or lower ones only |
| HtModel.HeadsDecide | project_w1/vmac/rc80211_minstrel_ht.c:302-319 | comparing the two list heads decides whether some supported CCK rate is faster than rate 0 and every supported MCS rate |
| HtModel.AssignedIsTop | project_w1/vmac/rc80211_minstrel_ht.c:302-326 | the station's list ranks four copies of rate 0, all supported MCS rates, and all supported CCK rates exactly when one of them wins |
| HtModel.ContendersAre | project_w1/vmac/rc80211_minstrel_ht.c:302-326 | which rates that list ranks: every supported rate outside the CCK group, and the CCK rates exactly if one of them is faster than rate 0 and all of those |
| HtModel.PassEnds | project_w1/vmac/rc80211_minstrel_ht.c:456-511 | after the pass every cell stores its own current estimate and the cells are fit for the next pass |
| HtModel.BestProb | project_w1/vmac/rc80211_minstrel_ht.c:246-293 | one challenge leaves the previous most probable rate or takes the challenger |
| HtModel.ProbNext | project_w1/vmac/rc80211_minstrel_ht.c:497-498 | each supported rate, in order, challenges the rate selected so far by what the cells hold at that moment |
| HtModel.CckStaysOut | project_w1/vmac/rc80211_minstrel_ht.c:266-272 | a recomputation never turns to a CCK rate while the top rate is none |
| HtModel.ProbAfterHighest | project_w1/vmac/rc80211_minstrel_ht.c:497-498 | with no eligible rate above 75% the most probable rate of a recomputation has the highest new probability of all eligible rates, except exactly when the previous choice comes after that rate, is not below it by its old probability and is below it by its new one |
| MostProbable.HighestIff | project_w1/vmac/rc80211_minstrel_ht.c:246-293 | the same for any keys before and after the pass and any set of eligible rates |
| MostProbable.FastestIff | project_w1/vmac/rc80211_minstrel_ht.c:246-293 | with an eligible rate above 75%, the chosen rate is the fastest of those exactly if the fastest one beats what its predecessor shows at that moment, or the predecessor is such a rate and already recomputed |
| HtModel.FallenChoiceStays | project_w1/vmac/rc80211_minstrel_ht.c:246-293 | a previous choice that falls from 3000 to 2250 stays selected although another rate stands at 2900 |
| HtModel.AverageStays | project_w1/vmac/rc80211_minstrel_ht.c:446-451 | with 1..255 subframes per status, an interval that meets the condition below leaves an average aggregate length between one subframe and 255 |
| HtModel.AverageMoves | project_w1/vmac/rc80211_minstrel_ht.c:446-451 | below 2^20 subframes the average goes exactly a quarter of the way to the subframes per status |
| HtModel.AverageUsableIff | project_w1/vmac/rc80211_minstrel_ht.c:446-451 | exactly when an interval leaves an average that can still be divided by, in terms of its subframes, its statuses and the average before it |
| HtModel.FewSubframesKeep | project_w1/vmac/rc80211_minstrel_ht.c:446-451 | fewer than 2^20 subframes in an interval always meet that condition |
| HtModel.TooManySubframes | project_w1/vmac/rc80211_minstrel_ht.c:446-451 | 4113 aggregates of up to 255 subframes each, 2^20 in all, make the average fall below one and its truncation, the divisor, zero |
| HtModel.OneSubframeIff | project_w1/vmac/rc80211_minstrel_ht.c:446-451 | with one subframe per status the average stays exactly one subframe if an interval holds fewer than 2^20 statuses, and falls below it otherwise |
| HtFeedback.ChainLength | project_w1/vmac/rc80211_minstrel_ht.c:677-689 | a chain has one to three entries that count |
| HtFeedback.EntryByEntry | project_w1/vmac/rc80211_minstrel_ht.c:677-689 | in the fields of a status: what each entry of the chain counts with and without aggregation information, when it gets the success, and when it ends the chain |
| HtFeedback.ReportsHonest | project_w1/vmac/rc80211_minstrel_ht.c:677-689 | every report for a supported rate acknowledges no more than it tried |
| HtFeedback.TakenSound | project_w1/vmac/rc80211_minstrel_ht.c:677-689 | taking in a status keeps supported cells sound, counts exactly what it reports and touches no probability |
| HtFeedback.CreditedOnce | project_w1/vmac/rc80211_minstrel_ht.c:680-688 | a status credits its acknowledgements to the last rate of its chain only, and to none exactly when all four entries are in use |
| HtFeedback.LowerGroup | project_w1/vmac/rc80211_minstrel_ht.c:619-635 | the downgrade search finds a lower group with rates and no more streams, or none |
| HtFeedback.DowngradeDescends | project_w1/vmac/rc80211_minstrel_ht.c:614-636 | a downgrade strictly lowers the group of the rate or leaves the rate alone |
| HtFeedback.DowngradeIs | project_w1/vmac/rc80211_minstrel_ht.c:614-636 | the first rate goes to the best, the second to the second best of the nearest lower group with rates and no more streams, and stays where there is none |
| HtFeedback.DowngradesRunOut | project_w1/vmac/rc80211_minstrel_ht.c:695-707 | along any descent by fixed lists, the group of a rate changes no more often than there are groups below it |
| HtFeedback.StepDown | project_w1/vmac/rc80211_minstrel_ht.c:334-338 | the new top rate works half the time or is the lowest of its group, and every skipped rate works less |
| HtFeedback.ModifiedIsRobust | project_w1/vmac/rc80211_minstrel_ht.c:328-367 | both rates keep their group, the top rate only steps down, and the most probable MCS index ends strictly below it unless both are 0 |
| HtFeedback.RobustIsFixed | project_w1/vmac/rc80211_minstrel_ht.c:328-367 | the normaliser is idempotent |
| Retransmit.Retries | project_w1/vmac/rc80211_minstrel_ht.c:739-774 | retry_count is the largest number of tries granted by the segment up to max(3, max_retry), retry_count_rtscts the largest up to retry_count with the RTS overhead |
| Retransmit.LargestIsThreshold | project_w1/vmac/rc80211_minstrel_ht.c:761-774 | a number of tries is granted exactly up to that largest number |
| Retransmit.SlowerGetsNoMore | project_w1/vmac/rc80211_minstrel_ht.c:743-775 | a slower rate or a longer overhead is never granted more tries |
| Retransmit.WindowIs | project_w1/vmac/rc80211_minstrel_ht.c:746-750 | the contention window of a try in closed form: (cw_min + 1) times a power of two, less one, up to the cap |
| Retransmit.ThreeFit | project_w1/vmac/rc80211_minstrel_ht.c:739-774 | with the driver's settings three tries of up to 1836 microseconds each fit a segment |
| Retransmit.SpentFits | project_w1/vmac/rc80211_minstrel_ht.c:757-769 | with the driver's windows the sums for up to 256 tries do not wrap in 32 bits |
| HtStation.Station.constructor | project_w1/vmac/rc80211_minstrel_ht.c:1086-1204 | a fresh station is valid, uses a robust top rate, has a fully written rate table, overheads 108 and 228 us, an average of one subframe and the initial sampling budget |
| HtStation.Station.FirstUpdate | project_w1/vmac/rc80211_minstrel_ht.c:1200-1202 | the initial recomputation ranks the rates of a station whose statistics are all zero |
| HtStation.Station.SortBest | project_w1/vmac/rc80211_minstrel_ht.c:209-241 | the in-place scan, shift and store is the specified insertion, and stores the candidate's estimate |
| HtStation.Station.SetBestProb | project_w1/vmac/rc80211_minstrel_ht.c:246-293 | the most probable rate of station and group are the specified challenge's, and nothing else changes |
| HtStation.Station.AssignBest | project_w1/vmac/rc80211_minstrel_ht.c:302-326 | the in-place merge is the specified one and changes no statistics |
| HtStation.Station.RefreshCell | project_w1/vmac/rc80211_minstrel_ht.c:473-498 | one supported cell: recomputed, inserted into its two lists, challenging the most probable rate |
| HtStation.Station.RefreshAll | project_w1/vmac/rc80211_minstrel_ht.c:462-507 | the pass over all groups: all supported cells recomputed, all lists ranked, supported groups counted |
| HtStation.Station.UpdateStats | project_w1/vmac/rc80211_minstrel_ht.c:437-531 | all supported cells recomputed, the station's and the groups' lists rank exactly the right candidates, the most probable rate is the pass's, 10 * groups batches of samples are granted, and the invariant holds; it asks only that the average stays usable |
| HtStation.Station.ModifyTpRates | project_w1/vmac/rc80211_minstrel_ht.c:328-367 | the in-place loops bring about the specified normal form |
| HtStation.Station.CalcRetransmit | project_w1/vmac/rc80211_minstrel_ht.c:719-775 | the retry counts of the cell are the largest granted ones, or 1 below 10%, and nothing else changes |
| HtStation.Station.RetriesFit | project_w1/vmac/rc80211_minstrel_ht.c:739-775 | the costs behind these counts: data time in whole microseconds, exact while the product fits 32 bits, and the station's overheads for MCS and VHT rates only; below 10% one try |
| DriverRun.ThreeTriesIff | project_w1/vmac/rc80211_minstrel_ht.c:719-775 | on a station as the driver associates it and with one subframe per aggregate a rate of at least 10% gets three tries exactly if it is quick, and two otherwise |
| DriverRun.QuickIff | project_w1/vmac/rc80211_minstrel_ht.h:91-198 | quick are, of all listed rates, those at 40 MHz from index 6 and at 80 MHz from index 3, one lower at 40 MHz with the short guard interval, and under protection one higher at 80 MHz with the long one |
| HtStation.Station.SetRate | project_w1/vmac/rc80211_minstrel_ht.c:778-821 | the slot of the rate table holds the rate's encoding, flags and retry counts, with protection after the first slot; writing a rate twice changes nothing |
| HtStation.SlotIs | project_w1/vmac/rc80211_minstrel_ht.c:779-821 | the counts and the protection of a slot in terms of probability, retry counts and slot number |
| HtStation.Station.UpdateRates | project_w1/vmac/rc80211_minstrel_ht.c:833-862 | the rates are normalised, the table holds their complete slots and the end marker, and the retry counts of its cells are kept or, if outdated, planned anew |
| HtStation.Station.GetStats | project_w1/vmac/rc80211_minstrel_ht.c:127-161 | the lookup loop finds the specified cell |
| HtStation.Station.ReportChain | project_w1/vmac/rc80211_minstrel_ht.c:677-689 | the loop over the chain takes in exactly the specified reports |
| HtStation.Station.DowngradeRate | project_w1/vmac/rc80211_minstrel_ht.c:614-636 | the search loop performs the specified downgrade |
| HtStation.Station.CheckDeath | project_w1/vmac/rc80211_minstrel_ht.c:691-707 | exactly the dying ones of the two best rates are downgraded |
| HtStation.DyingIff | project_w1/vmac/rc80211_minstrel_ht.c:691-703 | a rate is dying exactly if it has more than 30 attempts and 4096 times its successes, modulo 2^32, are fewer than 819 times its attempts |
| HtStation.Station.TxStatus | project_w1/vmac/rc80211_minstrel_ht.c:638-717 | a whole status: ignored with nothing changed; or budget refilled, reports counted exactly, averages and aggregate counters moved on; then on expiry everything recomputed, ranked and normalised, and otherwise the dying rates downgraded and the table rewritten exactly if there are any, with lists, rates and table untouched if not; the invariant holds |
| HtStation.Station.StatusCounts | project_w1/vmac/rc80211_minstrel_ht.c:653-665 | in the station's fields: an aggregated frame without status information changes nothing, any other adds its subframes and itself, and an expired interval takes the average from both |
| HtStation.StatusConserves | project_w1/vmac/rc80211_minstrel_ht.c:677-711 | whether or not the interval expired, each supported rate's totals grow by exactly what the status reports for it, up to wraps of the lifetime counters |
| HtRun.TakeOne | project_w1/vmac/rc80211_minstrel_ht.c:638-717 | a status whose load fits keeps the station valid, and between recomputations only moves its two best rates down by unchanged lists |
| HtRun.TakeAll | project_w1/vmac/rc80211_minstrel_ht.c:638-717 | over every run of statuses whose load is sustained the station stays valid, every supported rate's totals grow by exactly what the run reports, and the choices of rates follow one another as stated |
| HtRun.PacedIsSustained | project_w1/vmac/rc80211_minstrel_ht.c:446-451 | every run whose intervals carry fewer than 2^20 subframes of 1..255 per status is sustained: no counter overflows and the average stays usable |
| HtRun.DowngradesPaidFor | project_w1/vmac/rc80211_minstrel_ht.c:614-636 | over every run of statuses the downgrades of a rate number at most the groups below its start and ten more per recomputation |
| HtRun.IntervalDescends | project_w1/vmac/rc80211_minstrel_ht.c:691-707 | between two recomputations the lists stay, both rates descend by them, and the group changes at most as often as there are groups below |
| HtStation.Station.SetNextSampleIdx | project_w1/vmac/rc80211_minstrel_ht.c:592-612 | the for(;;) loop terminates in the specified next state |
| HtStation.Station.CheckSampleIdx | project_w1/vmac/rc80211_minstrel_ht.c:871-895 | the while(1) loop terminates where the specified search does |
| HtStation.Station.GetSampleRate | project_w1/vmac/rc80211_minstrel_ht.c:897-996 | when a request samples, which cell, in which slot, with which encoding, and what it costs; cursors move as specified |
| HtStation.SampleIs | project_w1/vmac/rc80211_minstrel_ht.c:922-975 | which rate a draw becomes and in which slot, in terms of durations, indices and probabilities: the reference is the one of the two best rates with the shorter frames, neither the first of them nor the most probable rate is sampled, and a sample goes to the second slot exactly if all four conditions of the source hold |
| HtStation.Station.GetRate | project_w1/vmac/rc80211_minstrel_ht.c:998-1025 | a request keeps the whole invariant, costs what the budget says, and a sample carries the encoding of its cell, which is neither the first best nor the most probable rate, in the second slot exactly if the rule for slow samples says so |
| HtStation.Station.ClearUnfit | project_w1/vmac/rc80211_minstrel_ht.c:396-425 | exactly the supported rates two or more above the index that ever succeeded are reset, the station stays valid and its table up to date |
| HtStation.Station.InitStartStats | project_w1/vmac/rc80211_minstrel_ht.c:533-570 | the fresh start of the expected rate and of rate 2 is what the following recomputation updates, ranks and selects from; average, aggregate counters, budget and cursors are those after that recomputation |
| HtStation.RestartedIs | project_w1/vmac/rc80211_minstrel_ht.c:541-567 | which cells get which start: the expected rate and rate 2 of the groups of the given bandwidth that support the expected rate |
| LegacyModel.ChainLink | project_w1/vmac/rc80211_minstrel.c:305-318 | each rate of the chain is below its predecessor until rate 0, no faster, and faster than every rate skipped |
| LegacyModel.ChainFalls | project_w1/vmac/rc80211_minstrel.c:305-318 | so along the whole chain indices fall strictly until 0 and throughput never rises |
| LegacyModel.ChainUnique | project_w1/vmac/rc80211_minstrel.c:305-318 | the chain is determined by the throughputs |
| LegacyModel.BelowThreshold | project_w1/vmac/rc80211_minstrel.c:286-302 | rule (2): with all rates below 95% the most probable rate has the highest probability, the highest-numbered of equals |
| LegacyModel.RuleOneIff | project_w1/vmac/rc80211_minstrel.c:286-302 | rule (1) is met exactly when the fastest rate of at least 95% is as fast as the rate selected before it |
| LegacyModel.RuleOneFails | project_w1/vmac/rc80211_minstrel.c:286-302 | two rates for which rule (1) is not met |
| LegacyModel.IndicesComplete | project_w1/vmac/rc80211_minstrel.c:576-590 | every supported rate gets an entry |
| LegacyModel.SearchInverts | project_w1/vmac/rc80211_minstrel.c:72-81 | rix_to_ndx maps each entry's rate number back to the entry and exactly the unsupported numbers to -1 |
| LegacyModel.TriesFor | project_w1/vmac/rc80211_minstrel.c:388-401 | a protected frame is tried at least twice, and more often exactly as far as the plain and the protected count both allow |
| LegacyModel.EstimateIs | project_w1/vmac/rc80211_minstrel.c:83-100 | the legacy estimate in numbers, with its cap at 90% |
| LegacyModel.TpAvgMonotone | project_w1/vmac/rc80211_minstrel.c:83-100 | it grows with the probability, stays from 90% on, and shrinks with the frame time |
| LegacyModel.UpdatedIs | project_w1/vmac/rc80211_minstrel.c:260-283 | read from the stored probability: above 95% or below 10% the limit is 100 and the tries are at most two, between them there is no limit and all tries are allowed |
| LegacyModel.PlanRetries | project_w1/vmac/rc80211_minstrel.c:596-626 | the plain retry count is the largest that fits the segment up to max(2, max_retry), the protected ones the largest that fit up to max_retry and the rounds of the loop |
| LegacyModel.DriverPlan | project_w1/vmac/rc80211_minstrel.c:596-626 | the three counts that the driver's settings give, in microseconds of frame and acknowledgement time |
| LegacyModel.FittingIsThreshold | project_w1/vmac/rc80211_minstrel.c:596-626 | a number of tries fits exactly up to that largest number |
| LegacyModel.MoreProtectionFewerTries | project_w1/vmac/rc80211_minstrel.c:596-626 | RTS and CTS together never grant more tries than CTS alone |
| LegacyModel.ReportsHonest | project_w1/vmac/rc80211_minstrel.c:360-376 | every report acknowledges no more than it tried |
| LegacyModel.CreditedOnce | project_w1/vmac/rc80211_minstrel.c:371-374 | each entry counts its tries, an acknowledged chain of up to three rates credits its last rate once, no other entry, and a chain of four none |
| LegacyModel.TakenSound | project_w1/vmac/rc80211_minstrel.c:360-376 | taking in a status keeps every rate sound and counts exactly what it reports |
| LegacySampling.AskIs | project_w1/vmac/rc80211_minstrel.c:419-499 | a request in full: when it samples, when in the first and when in the second slot, in terms of frame times and limits, and what becomes of every counter, the cursor and the limits |
| LegacySampling.BacklogCapped | project_w1/vmac/rc80211_minstrel.c:452-464 | a request that samples leaves at most two samples per rate owed, however far sampling had fallen behind |
| LegacySampling.EveryRunWithinBudget | project_w1/vmac/rc80211_minstrel.c:431-491 | over every run: first-slot samples between resets number at most a tenth of the packets and one, and a rate that carries a limit is sampled there at most 100 times between recomputations |
| LegacySampling.EveryRunSlots | project_w1/vmac/rc80211_minstrel.c:469-492 | over every run a first-slot sample never takes longer than the fastest rate of the moment, and a second-slot sample always does |
| LegacySampling.NeverTwiceInARow | project_w1/vmac/rc80211_minstrel.c:441-446 | after a request that sampled the next one does not, whatever happens in between |
| LegacySampling.EveryRunBounded | project_w1/vmac/rc80211_minstrel.c:433-452 | over every run of driver-made statuses the packet counter stays within 10000, so the counters never wrap |
| LegacyStation.Station.constructor | project_w1/vmac/rc80211_minstrel.c:558-641 | the table lists exactly the supported rates in order with planned retry counts, the sampling table is filled as specified, the lowest supported rate is found and the rate table written |
| LegacyStation.Station.RixToNdx | project_w1/vmac/rc80211_minstrel.c:72-81 | the downward loop is the specified search |
| LegacyStation.Station.SortBest | project_w1/vmac/rc80211_minstrel.c:103-126 | the estimates left behind are current, and only those of the candidate and of list entries are touched |
| LegacyStation.Station.RefreshRates | project_w1/vmac/rc80211_minstrel.c:260-303 | every rate is recomputed, its limit and retry count fit its new probability, and the most probable rate is the specified choice |
| LegacyStation.Station.RankChain | project_w1/vmac/rc80211_minstrel.c:305-321 | the two nested loops find the chain |
| LegacyStation.Station.UpdateStats | project_w1/vmac/rc80211_minstrel.c:247-336 | all of this together, with fresh estimates, limits and retry counts that fit the new probabilities, a written rate table, and the invariant kept whatever the lifetime counters hold |
| LegacyStation.Station.UpdateRates | project_w1/vmac/rc80211_minstrel.c:138-164 | the table holds the complete slots of first, second and third rate of the chain as far as the hardware takes them, and the lowest rate last |
| LegacyStation.Station.TxStatus | project_w1/vmac/rc80211_minstrel.c:350-386 | a whole status: reports counted exactly, sampling counters adjusted, and on expiry everything recomputed and ranked |
| LegacyStation.Station.GetNextSample | project_w1/vmac/rc80211_minstrel.c:404-417 | the draw at the cursor, which moves on |
| LegacyStation.Station.GetRate | project_w1/vmac/rc80211_minstrel.c:419-499 | the slot and the rate of a sample in terms of the station's counters, frame times and limits, the new state, and the chain entry with its number of tries; nothing else changes |
| LegacyRun.CountedOnce | project_w1/vmac/rc80211_minstrel.c:360-381 | with or without a recomputation a status adds exactly what it reports to the totals of a rate |
| LegacyRun.PlayAll | project_w1/vmac/rc80211_minstrel.c:350-499 | over every run of requests and statuses the station stays valid, every rate's totals grow by exactly what is reported for it, the sampling state and every decision are those of the mirrored run of sampling events, within its budget, and from the first recomputation on a rate whose stored probability is above 95% or below 10% has had at most 100 first-slot samples since the last one |
| Driver.FillStaTable | project_w1/vmac/rc80211_minstrel_init.c:542-574 | unasked slots take the rate table with two tries up to the first empty one; the fourth slot is empty |
| Driver.ChainIs | project_w1/vmac/rc80211_minstrel_init.c:542-574 | a kept sample is in its slot with one try, the other slots name the rates of the table in order with two tries, the fourth ends the chain, and the hardware gets 2, 2 and 96 |
| Driver.BuildChain | project_w1/vmac/rc80211_minstrel_init.c:794-821 | the hardware entries are the filled chain with 2, 2 and 96 tries |
| Driver.CheckFitable | project_w1/vmac/rc80211_minstrel_init.c:576-615 | a sample is kept exactly if its bandwidth is at least and its rate at most what the signal allows; one of too high a rate also clears statistics, and nothing else does |
| Driver.FitableIff | project_w1/vmac/rc80211_minstrel_init.c:576-615 | the same in terms of the sampled cell: the width of its group and its index against what the signal allows |
| Driver.DropClears | project_w1/vmac/rc80211_minstrel_init.c:605-610 | exactly the supported rates two or more above the allowed one that ever succeeded are left with a single failed attempt, no history and their old probability, all other cells are untouched |
| Driver.FindRate | project_w1/vmac/rc80211_minstrel_init.c:697-827 | a request costs what the budget says, a hopeless sample clears what it must, and the entries name the cell of the kept sample in its slot and otherwise the labels of the table, with 2, 2 and 96 tries |
| Driver.CompleteTask | project_w1/vmac/wifi_drv_xmit.c:1420-1460 | the entries of a completed frame are set to what was tried: up to the entry that the last retry fell in if it was acknowledged, and to the first entry alone if not |
| Driver.RetriesAdd | project_w1/vmac/wifi_drv_xmit.c:1420-1432 | the retries of a frame are the sum of the two four-bit counters |
| Driver.RewrittenCounts | project_w1/vmac/wifi_drv_xmit.c:1430-1459 | for every retry count each entry shows the tries made with it, and they add up to one more than the retries; an unacknowledged frame shows the tries of its first entry |
| Driver.TxComplete | project_w1/vmac/rc80211_minstrel_init.c:865-883 | the status names exactly the entries with tries, and carries only the acknowledgement |
| Driver.NamesDecodes | project_w1/vmac/rc80211_minstrel_ht.c:110-161 | every encoding can be looked up, and the lookup finds the cell it was made for exactly if the cell is recognised |
| Driver.WrittenTable | project_w1/vmac/rc80211_minstrel_ht.c:833-862 | a table that was just written is labelled with the chosen rates, which are recognised unless they are CCK rates |
| Driver.FeedbackReaches | project_w1/vmac/wifi_drv_xmit.c:1420-1479 | for every retry count and outcome the status is well formed, its chain ends at the entry the frame ended at, each entry reports the tries made with it, the last one alone is credited, once and only if acknowledged, and each finds its cell exactly if that is recognised |
| Driver.CellFeedback | project_w1/vmac/wifi_drv_xmit.c:1420-1479 | every cell is told exactly the tries made at it and the acknowledgement if the last try was made at it |
| Driver.Complete | project_w1/vmac/wifi_drv_xmit.c:1420-1479 | a frame completed at any later time keeps the station valid and its average at one subframe, each supported cell counts exactly the tries made at it, and the table keeps its labels or is written anew for the chosen rates |
| Driver.Serve | project_w1/vmac/rc80211_minstrel_init.c:697-883 | one frame end to end: what it tells counts on top of what a dropped sample left of the cells |
| DriverRun.ServeAll | project_w1/vmac/rc80211_minstrel_init.c:697-883 | over every run of frames sent and completed in any order the station stays valid, its average stays at one subframe, every supported cell has counted exactly the tries made at it since the start or since it was last cleared, only a sample too fast for its signal clears cells and only those it should, a sample that suits is in its slot, an interval takes at most four samples and twenty more per group with rates, and after the first recomputation the table is up to date |
| DriverRun.SentCell | project_w1/vmac/rc80211_minstrel_init.c:605-610 | a frame that goes out leaves the account of a cell as it was, or starts it over at one attempt if it clears the cell |
| DriverRun.DoneCell | project_w1/vmac/wifi_drv_xmit.c:1420-1479 | a frame that is completed adds exactly its tries and acknowledgement at a cell to the cell's account |
| DriverRun.Associate | project_w1/vmac/rc80211_minstrel_init.c:420-497 | the association leaves a valid station with the driver's settings, overheads of 108 and 228 microseconds, an average of one subframe, its initial budget and a labelled table that may lag behind the chosen rates |
| DriverRun.Live | project_w1/vmac/rc80211_minstrel_init.c:420-497 | all of this holds for every run of frames from the association on |

## Left out

- HtStation.Station.GetSampleRate: does not claim that the sampled rate is supported, because the code does not ensure it.
- HtStation.Station.SetBestProb: no ranking is claimed for the rate of a group, which the code only reads to reduce streams and with one stream never uses.
- LegacyStation.Station.constructor: the durations of a rate's frames and acknowledgements are inputs.
- Driver.FeedbackReaches: is about chains that reach the hardware as they were chosen; on a weak signal the driver replaces all rates of a chain by one from a threshold table before it is sent, and the feedback then goes to that rate.
- Driver.CellFeedback: the same limit.
- Driver.Complete: the same limit.
- Driver.Serve: the same limit.
- DriverRun.ServeAll: the same limit; sampled frames that share an aggregate with others keep their own entries in the model.
- DriverRun.Live: the same limit.
- LegacyRun.PlayAll: asks for fewer than about four million statuses in an interval, which is sufficient for the counters and not necessary.
- Driver.CompleteTask: only data frames that expect an acknowledgement and whose station is awake come to this part; for others nothing is reported.
- Retransmit.SpentFits: the product of duration and aggregate length before it may wrap for aggregates above 145 subframes; `CalcRetransmit` follows that wrap.
- Dispatch between the two controllers, the fallback of a station without HT rates, allocation, attach and detach.
- The debugfs fixed rate, simulator branches, and debug printing with the divisions inside it.
- HT `total_packets` and `sample_packets`, which nothing reads, and the rule that port-control frames are not used for sampling on single-rate hardware.
- `minstrel_ht_prob_rate_reduce_streams`: every group has at most one stream, so it changes nothing.
- Building the masks of supported rates from the peer's capabilities; the model takes any masks of the shape that code produces.
- The thresholds that turn the received signal into an allowed bandwidth and rate, and the vendor rate codes: lookup tables. The checks that use the thresholds are modelled.
- The hardware flag that marks a sampled chain shares a word with the rate flags; the model keeps the rate flags apart.
- Expected-throughput reporting, and everything outside the rate controller.
