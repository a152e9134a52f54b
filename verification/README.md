# Verified model of the sending engine

A Dafny model of the parts of the WhatsApp bot crate that decide when, how often
and to whom something is sent, and of the text it sends and reads:

- the **pacer** (`Schedule`, `Pacer*`, `TokenBucket`): a schedule of slots per business number, with slots given back,
  slow-downs, recovery and a clock that may step back;
- the **broadcast run** (`Backoff`, `Book`, `Dedupe*`, `Broadcast*`): workers that share a book of recipients, a heap of
  retries, the pacer and a halt flag, as a transition system over any interleaving, any answers and a cancel at any time;
- the **text splitter** (`Texts`, `TextLines`, `Splitter`, `SplitterResults`, `PackResults`), the **table layouts** (`Tables`,
  `TableResults`) and the **tree builder** (`Nesting*`);
- the **argument lexer** (`Lexer`, `LexerResults`), with the flag check at build time, and the **router** (`Router`,
  `Routing`, `RoutingResults`);
- **cooldowns** on an expiring store (`Cooldown*`), and the **two other retry loops** (`Retry`).

Code that changes state in place is a class or a method with loops, each proved against a function of the state; what the
program promises is proved about those functions over whole runs. The answers of the outside (sends, clocks, random bytes,
the report sink, the parser) are parameters, so every result holds whatever they are. Times are nanoseconds.

Four claims of the code or its comments do not hold as they stand. Each has a concrete input, and the exact condition under
which the code keeps the claim:

- A burst above one does not bound a one-second window at `rate + burst - 1` starts once the number slows down: its
  tolerance grows with the interval (`PacerBounds.FourInOneSecond`). At rates of up to 31,622 a second the claim holds
  exactly for buckets that never slow down (`PacerBounds.OneSecondExactly`). Above, where rounding the interval up can save
  it (`PacerBounds.RoundingKeepsOneSecond`), it holds when the start that would be one too many is out of reach, and only
  then if slow-downs can come fast enough (`PacerMost.OneSecondAtAnyRate`). In windows of every width it holds, at all
  rates, exactly if no slow-down lengthens the interval (`PacerMost.ConformsExactly`).
- At the largest 32-bit rate a slow-down can pass its check and still wrap the divisor around, to zero at a factor of two
  (`PacerSlowDowns.WrappedDivisor`; in a build without overflow checks). It happens exactly to adaptive buckets at that rate
  whose recovery is longer than the spacing (`PacerSlowDowns.WrapsExactly`).
- The build refuses flag names that hold a closing curly quote as impossible to type, though they can be typed
  (`LexerResults.RefusedThoughTyped`, `LexerResults.AcceptedExactly`).
- A cooldown can notify more than once, in two ways: refusals that reach their marker when it is over
  (`CooldownResults.LateMarksNotifyTwice`), and a caller that gives up because each cooldown that refused it was over by its
  read (`CooldownResults.GivingUpNotifiesTwice`). Those late refusals are all there is: of the refusals made in time at most
  one notifies, and the count is exact (`CooldownResults.OneNoticeExactly`).

## Model

| member | source | states |
|---|---|---|
| Schedule.IntervalIsLeast | crates/meta-whatsapp-bot/src/pacer.rs:124-136 | the interval is the least one at which the divided rate fits a second |
| Schedule.IntervalMonotone | crates/meta-whatsapp-bot/src/pacer.rs:128-136 | a higher rate or a lower divisor never lengthens the interval |
| PacerRun.PlayKeeps | crates/meta-whatsapp-bot/src/pacer.rs:547-657 | in every run of reserve, release, slow_down and set_rate the slots not given back do not overlap, and the booked list is tied to them slot by slot, its last entry live and ending at `due` |
| PacerBounds.WindowBound | crates/meta-whatsapp-bot/src/pacer.rs:584-606 | in any window of any run, what its slots cost but for the last one's takes less than the window and the burst's tolerance |
| PacerBounds.RateBound | crates/meta-whatsapp-bot/src/pacer.rs:124-136 | with a burst of one, no one-second window of any run holds more slot starts than the highest rate set, whatever was given back, slowed down or changed |
| PacerBounds.CostBound | crates/meta-whatsapp-bot/src/pacer.rs:584-606 | the same bound on the sends those slots cost, but for the last slot's |
| PacerBounds.BurstBound | crates/meta-whatsapp-bot/src/pacer.rs:584-606 | at a constant interval a one-second window holds at most rate + burst - 1 starts |
| PacerBounds.OneSecondExactly | crates/meta-whatsapp-bot/src/pacer.rs:474-477 | at rates of up to 31,622 a second, every one-second window of every run at the configured rate holds at most `burst - 1` starts more than the rate if and only if the burst is one or no slow-down can divide the rate |
| PacerBounds.OneTooMany | crates/meta-whatsapp-bot/src/pacer.rs:584-606 | at any rate, a second's slots and the burst booked at once, a slow-down and one more put rate + burst starts into one second, when the tolerance grows by more than the last one's place is past it |
| PacerBounds.RoundingKeepsOneSecond | crates/meta-whatsapp-bot/src/pacer.rs:128-136 | at 999,999,999 a second, with a burst of two and a factor of two, a bucket that slows down keeps the claim, the interval being rounded up to two nanoseconds |
| PacerMost.NoMoreStarts | crates/meta-whatsapp-bot/src/pacer.rs:584-606 | in every run at a configured rate, whatever it is, a window holds no more starts than find a place within reach, slowing down as late as possible |
| PacerMost.MostIsReached | crates/meta-whatsapp-bot/src/pacer.rs:584-606 | and some run puts as many starts into one window, when the slow-downs it takes can come within the window |
| PacerMost.OneSecondAtAnyRate | crates/meta-whatsapp-bot/src/pacer.rs:474-477 | so at any rate the claim holds for every one-second window if the start that would be one too many is out of reach, and only if it is with as many slow-downs as can come within the second |
| PacerMost.ConformsExactly | crates/meta-whatsapp-bot/src/pacer.rs:595-597 | windows of every width hold fewer starts than their width in intervals and the burst, over all runs and at every rate, if and only if the burst is one or no slow-down lengthens the interval |
| PacerBounds.FourInOneSecond | crates/meta-whatsapp-bot/src/pacer.rs:474-477 | a run at two a second and a burst of two that puts four starts into one second |
| PacerReleases.ScheduleIsChained | crates/meta-whatsapp-bot/src/pacer.rs:555-564 | in every run each booked slot begins where the one before ends, the last ending at `due` |
| PacerReleases.ForwardBegins | crates/meta-whatsapp-bot/src/pacer.rs:555-564 | on a clock that never steps back the first booked slot begins no later than the time last seen |
| PacerReleases.WaitBound | crates/meta-whatsapp-bot/src/pacer.rs:584-606 | on such a clock no wait is longer than the slots still booked take together |
| PacerReleases.StartsWhenTold | crates/meta-whatsapp-bot/src/pacer.rs:547-556 | and re-based time is the clock's own: each slot starts at the caller's `now` and its wait, so the window bounds are of the clock's windows |
| PacerReleases.ReleaseOfUnknown | crates/meta-whatsapp-bot/src/pacer.rs:609-627 | giving back a slot that is not booked, or no longer, changes nothing |
| PacerReleases.ReleaseAllAtOnce | crates/meta-whatsapp-bot/src/pacer.rs:609-627 | giving slots back one by one, in any order and however often, comes to giving them all back at once |
| PacerReleases.ReleaseOrder | crates/meta-whatsapp-bot/src/pacer.rs:609-627 | in every run the order slots are given back in does not matter |
| PacerRates.RateIsLast | crates/meta-whatsapp-bot/src/pacer.rs:457-460 | in every run the rate is the one of the last `set_rate`, or the configured one before any |
| PacerRates.BooksAsAsked | crates/meta-whatsapp-bot/src/pacer.rs:584-606 | and a slot booked then takes that rate's interval, divided as the slow-downs left it, for each send it is of |
| PacerClock.RebasedAgrees | crates/meta-whatsapp-bot/src/pacer.rs:547-556 | on any clock a run books the slots of a run fed the clock with each backward step cancelled, its booked list forgotten at each step |
| PacerClock.CapNeverStopsShort | crates/meta-whatsapp-bot/src/pacer.rs:568-577 | capping the recovery at 32 divisions gives what all of them would |
| PacerClock.PollingIsFree | crates/meta-whatsapp-bot/src/pacer.rs:565-579 | catching up at any times on the way leaves the bucket as catching up once at the last |
| PacerClock.AlikeAnswersAlike | crates/meta-whatsapp-bot/src/pacer.rs:547-579 | and buckets that differ only in a recovery already over answer alike from then on |
| PacerSlowDowns.SlowDownExactly | crates/meta-whatsapp-bot/src/pacer.rs:646-649 | a slow-down that passes its check multiplies the divisor by the factor, but exactly when the rate is the largest and the product does not fit |
| PacerSlowDowns.WrappedDivisor | crates/meta-whatsapp-bot/src/pacer.rs:629-657 | a run of 32 slow-downs, a spacing apart, leaves the largest rate with a divisor of zero |
| PacerSlowDowns.WrapsExactly | crates/meta-whatsapp-bot/src/pacer.rs:629-657 | every slow-down of every run at the configured rate that passes its check divides by the factor once more, if and only if the bucket is not adaptive, its rate is not the largest, or it recovers within the spacing |
| PacerSlowDowns.SlowDownsKeep | crates/meta-whatsapp-bot/src/pacer.rs:629-657 | below that rate, in every run the divisor is a power of the factor and the slow-downs that count are at least the spacing apart |
| PacerSlowDowns.RestartsRecovery | crates/meta-whatsapp-bot/src/pacer.rs:646-651 | in every run a slow-down that counts, at the lowest rate too, starts the recovery anew: the divisor stays for a whole period and is divided once when it is over |
| TokenBuckets.TokenBucket.CatchUpTo | crates/meta-whatsapp-bot/src/pacer.rs:547-581 | the loop that follows the clock leaves the bucket the schedule's catch-up leaves |
| TokenBuckets.TokenBucket.Reserve | crates/meta-whatsapp-bot/src/pacer.rs:584-606 | books the slot, and answers the wait, that the proved schedule does, touching no other number |
| TokenBuckets.TokenBucket.Release | crates/meta-whatsapp-bot/src/pacer.rs:609-627 | unbooks from the end exactly what the proved schedule does |
| TokenBuckets.TokenBucket.SlowDown | crates/meta-whatsapp-bot/src/pacer.rs:629-657 | slows the number as the proved schedule does |
| TokenBuckets.TokenBucket.SetRate | crates/meta-whatsapp-bot/src/pacer.rs:457-460 | the number's rate is that one from now on, higher or lower, and no other number's changes |
| TokenBuckets.TokenBucket.RaiseRate | crates/meta-whatsapp-bot/src/pacer.rs:465-473 | the rate rises or stays, and says which |
| TokenBuckets.NumbersAreApart | crates/meta-whatsapp-bot/src/pacer.rs:584-657 | whatever the other numbers do, a number's bucket is that of the run of its own calls |
| BroadcastRetries.RetriedByRule | crates/meta-whatsapp-bot/src/broadcast.rs:961-988 | in every run, under any policy, each send to a recipient but the last was a failure on which the policy may promise a retry and which proves nothing was sent |
| BroadcastRetries.RetriedWithinPolicy | crates/meta-whatsapp-bot/src/broadcast.rs:287-313 | in every run under the default kind of policy, a recipient sent to again failed each time before retryably, with a kind that stops nothing, below the most attempts, and was promised waits of at most the longest delay each |
| Backoffs.RetriedExactly | crates/meta-whatsapp-bot/src/broadcast.rs:287-313 | the verdict is to stop exactly for the kinds that stop, to retry exactly below the most attempts for a retryable failure, after the failure's own delay or the longest |
| Backoffs.WaitsWithin | crates/meta-whatsapp-bot/src/broadcast.rs:287-313 | whatever a recipient's failures, its waits add up to at most the longest delay for each send but the first |
| Backoffs.WaitsDouble | crates/meta-whatsapp-bot/src/broadcast.rs:299-311 | `n` equal failures wait for the base delay 2^n - 1 times, until the attempts or the longest delay are reached |
| Backoffs.PairWaitsAddUp | crates/meta-whatsapp-bot/src/broadcast.rs:299-306 | `n` pair-rate refusals wait for a third of 4^n - 1 seconds, likewise |
| Backoffs.DefaultWaits | crates/meta-whatsapp-bot/src/broadcast.rs:193-204 | by default, five sends that meet the same retryable failure span 85 seconds under the pair rate limit, 80 in maintenance, and 15 otherwise |
| Backoffs.DelaysMultiply | crates/meta-whatsapp-bot/src/broadcast.rs:299-311 | pair-rate refusals wait 1, 4, 16... seconds, maintenance 20 seconds, other failures the base delay doubling |
| Backoffs.DelaysNeverShrink | crates/meta-whatsapp-bot/src/broadcast.rs:287-313 | failing the same way again never waits less |
| Books.Book.ReadClock | crates/meta-whatsapp-bot/src/broadcast.rs:694-706 | reads and moves the run's time as the re-based clock does |
| Books.Book.NextTurn | crates/meta-whatsapp-bot/src/broadcast.rs:708-726 | the loop gives the turn, and the book, of the proved transition |
| Books.Book.DeferSend | crates/meta-whatsapp-bot/src/broadcast.rs:729-732 | puts the retry where the heap pops it, at the run's time plus its delay; `BroadcastTimes.RetriesInTime` says what that comes to in a run |
| Books.TimeIsRebased | crates/meta-whatsapp-bot/src/broadcast.rs:690-706 | the run's time goes forward by what the clock goes forward, and stands still while it steps back |
| Books.InsertKeeps | crates/meta-whatsapp-bot/src/broadcast.rs:640-644 | a push adds the one retry and keeps the order of popping: time, then index |
| Books.NeverEarly | crates/meta-whatsapp-bot/src/broadcast.rs:708-714 | no retry is taken before its time, and the earliest is taken first |
| Books.WaitIsEnough | crates/meta-whatsapp-bot/src/broadcast.rs:722-726 | a worker told to wait finds someone due once it has waited that long |
| Dedupe.Duplicates | crates/meta-whatsapp-bot/src/broadcast.rs:606-622 | the loops list exactly the repeated listings, in order, each under its first |
| Dedupe.RepeatedExactly | crates/meta-whatsapp-bot/src/broadcast.rs:604-622 | a listing is a duplicate if and only if it shares an identity with an earlier one |
| Dedupe.KeptAreApart | crates/meta-whatsapp-bot/src/broadcast.rs:604-622 | two listings that are kept share no identity |
| Dedupe.DuplicateOfTheSame | crates/meta-whatsapp-bot/src/broadcast.rs:614-618 | a duplicate names an earlier listing that is kept, linked to it by a chain of shared identities |
| DedupeResults.SharesExactly | crates/meta-whatsapp-bot/src/broadcast.rs:580-602 | two listings share an identity exactly if they have the digits of one phone number, one user or one group; one of another kind shares none |
| DedupeResults.StandsUnder | crates/meta-whatsapp-bot/src/broadcast.rs:604-622 | a repeated listing stands where the first of its phone does or, without one, the first of its user or group |
| BroadcastSafety.StepKeeps | crates/meta-whatsapp-bot/src/broadcast.rs:875-989 | every event of a run, whatever it answers, keeps every recipient in one place with a record that fits it, and the heap and the book in step |
| BroadcastSafety.Run | crates/meta-whatsapp-bot/src/broadcast.rs:783-789 | and so does every run, from the first state on |
| BroadcastReport.InOnePlace | crates/meta-whatsapp-bot/src/broadcast.rs:708-732 | in every interleaving a recipient is untaken, with one worker, in the heap once, settled, or left by a halt: exactly one of these |
| BroadcastReport.SettledForGood | crates/meta-whatsapp-bot/src/broadcast.rs:1026-1053 | a recipient settled stays so, as it was, and is never sent to again |
| BroadcastReport.NeverResentBlindly | crates/meta-whatsapp-bot/src/broadcast.rs:971-975 | every send to a recipient but the last failed with an error that proves nothing was sent, and `attempts` counts them |
| BroadcastReport.RetriesWhenDue | crates/meta-whatsapp-bot/src/broadcast.rs:640-644 | in every run a retry is taken only when its time has come, the earliest first |
| BroadcastTimes.RetriesInTime | crates/meta-whatsapp-bot/src/broadcast.rs:708-732 | read from the events alone: a recipient is sent to again only once the run's time is that of the verdict that put it off, and the delay it asked for |
| BroadcastTimes.DueIsTaken | crates/meta-whatsapp-bot/src/broadcast.rs:708-721 | from then on a worker that looks for its turn takes somebody put off and due, the earliest first, and nobody new before |
| BroadcastTimes.NapsUntilDue | crates/meta-whatsapp-bot/src/broadcast.rs:722-726 | a worker that naps does so until exactly the time the first is due |
| BroadcastReport.EachPersonOnce | crates/meta-whatsapp-bot/src/broadcast.rs:1251-1268 | a deduped run sends to no identity under two listings |
| BroadcastReport.DuplicatesUntried | crates/meta-whatsapp-bot/src/broadcast.rs:1263-1268 | a duplicate is settled from the start and never sent to |
| BroadcastEnd.StepEnds | crates/meta-whatsapp-bot/src/broadcast.rs:783-949 | every event keeps the counters equal to the outcomes, the halt reason and whom it names true, each held slot with one worker, and, until a halt, some worker up while a retry waits |
| BroadcastEnd.RunEnds | crates/meta-whatsapp-bot/src/broadcast.rs:783-949 | and so in every run |
| BroadcastFinish.FirstReasonSticks | crates/meta-whatsapp-bot/src/broadcast.rs:511-521 | a halted run keeps its first reason and whom it names |
| BroadcastFinish.NoSendOnceHalted | crates/meta-whatsapp-bot/src/broadcast.rs:895-937 | a send starts only while the run is not halted, in a slot its worker held; `BroadcastTimes.SendsInTime` says when |
| BroadcastTimes.SendsInTime | crates/meta-whatsapp-bot/src/broadcast.rs:917-936 | read from the events alone: a worker begins to send at a clock reading no earlier than its last booking's and the wait it was told then |
| BroadcastTimes.SendsWhenDue | crates/meta-whatsapp-bot/src/broadcast.rs:917-936 | and while the run is not halted, at such a reading it does |
| BroadcastCauses.InHandAtOnce | crates/meta-whatsapp-bot/src/broadcast.rs:783-789 | in every run there are as many workers as the concurrency allows, or as there are recipients, one at least, and each has at most one recipient in hand: so no more sends are in flight at once |
| BroadcastCauses.CancelHalts | crates/meta-whatsapp-bot/src/broadcast.rs:511-521 | a cancel leaves every run halted |
| BroadcastCauses.StopsHalt | crates/meta-whatsapp-bot/src/broadcast.rs:976-983 | so does a verdict to stop, or a limiter that fails, once its recipient is settled, at once or when its line is taken |
| BroadcastCauses.StoppedRunEndsHalted | crates/meta-whatsapp-bot/src/broadcast.rs:917-983 | so no run whose workers have all returned had a cause to halt and did not |
| BroadcastCauses.RefusalHalts | crates/meta-whatsapp-bot/src/broadcast.rs:1043-1053 | and a line the sink refuses |
| BroadcastCauses.RecordsAreTrue | crates/meta-whatsapp-bot/src/broadcast.rs:940-989 | each recipient's sends are recorded as the answers given, in order, and it is settled as failed only with an error the run met |
| BroadcastCauses.VerdictIsFollowed | crates/meta-whatsapp-bot/src/broadcast.rs:961-988 | what the policy is asked about, and how often the recipient failed, are as they were; a retry is put off exactly if promised and the error proves nothing was sent |
| BroadcastFinish.SlotPerSend | crates/meta-whatsapp-bot/src/broadcast.rs:917-938 | in every run a recipient was sent to as often as slots were spent on it |
| BroadcastFinish.FatesAreSealed | crates/meta-whatsapp-bot/src/broadcast.rs:930-937 | a slot sent in or given back stays so, and when all workers have returned every slot is one or the other |
| BroadcastTail.NobodyLeft | crates/meta-whatsapp-bot/src/broadcast.rs:875-891 | when the workers return from a run nothing halted, the heap is empty and everyone is settled |
| BroadcastTail.KeepErrors | crates/meta-whatsapp-bot/src/broadcast.rs:790-798 | the last error of each recipient left over, and of nobody else, is kept |
| BroadcastTail.SkipTheRest | crates/meta-whatsapp-bot/src/broadcast.rs:799-815 | those never sent to are counted, and their lines handed to the sink in order, up to the first it refuses |
| BroadcastTail.LinesOf | crates/meta-whatsapp-bot/src/broadcast.rs:833-851 | one line a recipient, with its sends, its outcome, and its last error if it was skipped after one |
| BroadcastTail.EndIsTrue | crates/meta-whatsapp-bot/src/broadcast.rs:822-832 | a run that completed skipped nobody, a cancelled one somebody, one that stopped names a recipient that failed |
| BroadcastTail.Finish | crates/meta-whatsapp-bot/src/broadcast.rs:783-867 | after any run: sent + failed + skipped + duplicates is the total, each counter is the number of outcomes of its kind, and the report's lines or those handed over at the end, and the end, are true |
| BroadcastLines.OneLineEach | crates/meta-whatsapp-bot/src/broadcast.rs:445-458 | whatever the sink answers, the lines handed to it over a run and at its end are true and nobody has two; one that refuses nothing gets exactly one a recipient, the duplicates' first |
| BroadcastProgress.BackoffIsBounded | crates/meta-whatsapp-bot/src/broadcast.rs:296-298 | the default policy always answers, and promises a retry only below its most attempts |
| BroadcastProgress.RunFew | crates/meta-whatsapp-bot/src/broadcast.rs:909-988 | under such a policy nobody is sent to more often than that, in any run |
| BroadcastProgress.StepGoes | crates/meta-whatsapp-bot/src/broadcast.rs:875-988 | every event that changes anything lowers the work left, but a nap, which does not raise it |
| BroadcastProgress.RunsEnd | crates/meta-whatsapp-bot/src/broadcast.rs:875-988 | so in every run the events but naps are at most a number fixed at the start |
| BroadcastProgress.NeverStuck | crates/meta-whatsapp-bot/src/broadcast.rs:875-905 | while a worker has not returned, it can do some of that work itself within two events, or the sink can take the line that comes first; no cancel is needed |
| BroadcastProgress.CanFinish | crates/meta-whatsapp-bot/src/broadcast.rs:875-905 | from every reachable state some schedule without a cancel brings every worker home |
| BroadcastNaps.SteadyRunsEnd | crates/meta-whatsapp-bot/src/broadcast.rs:875-905 | on a clock that does not step back, whatever is answered, all the events of a run that change anything, naps included, are at most a number fixed at the start |
| BroadcastNaps.EndsAtHome | crates/meta-whatsapp-bot/src/broadcast.rs:875-905 | and when no event on such a clock but a cancel changes anything any more, every worker has returned: every run that goes on while it can ends, cancelled or not |
| BroadcastNaps.EndsSettled | crates/meta-whatsapp-bot/src/broadcast.rs:783-832 | and if nothing halted it, everybody has been settled and nobody waits for a retry |
| TextLines.UnitsAreUtf16 | crates/meta-whatsapp-bot/src/markdown.rs:869-873 | the length a message is measured by is that of its UTF-16 encoding |
| Splitter.Words | crates/meta-whatsapp-bot/src/markdown.rs:1224-1269 | pieces within the limit that hold the line's words in order, each whole unless longer than the limit itself; no two in a row would fit as one, but for those of a word that is cut |
| Splitter.CutWord | crates/meta-whatsapp-bot/src/markdown.rs:1229-1249 | a word longer than the limit goes between characters into chunks that are each as full as can be |
| Splitter.Lines | crates/meta-whatsapp-bot/src/markdown.rs:1189-1222 | the same of a text by lines: lines that fit are whole, no two pieces in a row would fit as one, no piece is blank and only blanks are lost |
| Splitter.Cut | crates/meta-whatsapp-bot/src/markdown.rs:1166-1187 | a long block's pieces hold its own words and lines so; a code block's are its content's, fenced again where they can be, within the limit fences and all |
| Splitter.Pack | crates/meta-whatsapp-bot/src/markdown.rs:1131-1164 | the messages are the greedy packing of the blocks' pieces |
| SplitterResults.Split | crates/meta-whatsapp-bot/src/markdown.rs:130-142 | for every text and limit: no part blank, each within the limit (or one wide character under a limit of one), the text's words in order, whole where they fit, and every line that fits a line of some part |
| SplitterResults.NothingButSpaceIsLost | crates/meta-whatsapp-bot/src/markdown.rs:130-142 | the parts hold exactly the text's characters other than white space, in order; from a limit of two units on, each part is within it |
| SplitterResults.FittingWordIsWhole | crates/meta-whatsapp-bot/src/markdown.rs:1224-1226 | a word between spaces that fits the limit is whole in some part |
| SplitterResults.CodeIsKept | crates/meta-whatsapp-bot/src/markdown.rs:1166-1184 | a cut code block keeps its characters, each fenced piece within the limit |
| SplitterResults.FencedExactly | crates/meta-whatsapp-bot/src/markdown.rs:1036-1044 | a piece is fenced again exactly if no fence is in it and no backtick at its ends |
| SplitterResults.FittingBlocksAreTightest | crates/meta-whatsapp-bot/src/markdown.rs:1131-1164 | blocks that each fit are packed whole, and no grouping of them in order has fewer messages |
| SplitterResults.PackingIsTightest | crates/meta-whatsapp-bot/src/markdown.rs:1146-1158 | the same of any pieces that fit, those of a cut block never joined to the message before |
| PackResults.PackHolds | crates/meta-whatsapp-bot/src/markdown.rs:1131-1187 | whatever the blocks, code among them, and the limit: every message fits, none is blank, and together they hold the blocks' characters other than white space in order and no more, but for the fences around the pieces of a cut code block, which hold its content's |
| Lexer.Words | crates/meta-whatsapp-bot/src/command.rs:376-425 | the loop gives the words the lexing function does |
| Lexer.Split | crates/meta-whatsapp-bot/src/command.rs:441-464 | the loop gives the arguments and flags the sorting function does |
| Lexer.TypedReadsBack | crates/meta-whatsapp-bot/src/command.rs:316-330 | any line of quoted strings, flags with or without quoted values and `--` reads back as what was typed, in order, in both modes |
| Lexer.QuotedStringsReadBack | crates/meta-whatsapp-bot/src/command.rs:428-439 | quoting any strings free of quotes and joining them with spaces reads back as exactly those arguments, in both modes |
| Lexer.FlagReadsBack | crates/meta-whatsapp-bot/src/command.rs:349-373 | a typed flag is read as that flag with its value; a quoted string never is, even one written like a flag |
| LexerResults.RestartsAtWordEnd | crates/meta-whatsapp-bot/src/command.rs:376-425 | lexing again from the end of the first word gives exactly the remaining words |
| LexerResults.SubcommandArguments | crates/meta-whatsapp-bot/src/command.rs:466-474 | a subcommand's arguments, in its own mode, are the words after its name |
| LexerResults.SplitsAtFirstSpace | crates/meta-whatsapp-bot/src/command.rs:466-474 | a subcommand is looked up by exactly what was typed before the first space, with all the text after it; by nothing when a quote comes before any space |
| LexerResults.AcceptedExactly | crates/meta-whatsapp-bot/src/bot.rs:989-1001 | which names can be typed as a flag's, and that the build accepts exactly those of them without a closing curly quote |
| LexerResults.RefusedThoughTyped | crates/meta-whatsapp-bot/src/bot.rs:989-1001 | a name the build refuses though it can be typed |
| LexerResults.CheckGuards | crates/meta-whatsapp-bot/src/bot.rs:974-1010 | refuses a zero cooldown, one without a store, a flag not accepted and one declared twice, and nothing else |
| Cooldowns.StepKeeps | crates/meta-whatsapp-bot/src/guard.rs:268-307 | every store operation of any caller keeps the record the last cooldown's, a notice live exactly while some refusal marked is about one still running, and each refusal logged with the cooldown it is about, which is over if its caller gave up |
| CooldownResults.StartedApart | crates/meta-whatsapp-bot/src/guard.rs:229-234 | over any interleaving, two callers told they started a cooldown did so at least the earlier one's period apart |
| CooldownTimes.GoesOn | crates/meta-whatsapp-bot/src/guard.rs:268-307 | read from the events alone: a caller starts a cooldown exactly if none that began still runs; refused, it marks exactly if one runs when it reads, else tries once more, and then gives up |
| CooldownTimes.BeganApart | crates/meta-whatsapp-bot/src/guard.rs:229-234 | each cooldown begins when the one before has lasted as long as its caller asked |
| CooldownTimes.ToldTimeLeft | crates/meta-whatsapp-bot/src/guard.rs:281-306 | a refused caller is told exactly the time left by its own clock, at most its period, or its period and to notify if it gave up |
| CooldownResults.NotifiesExactly | crates/meta-whatsapp-bot/src/guard.rs:286-306 | a refusal notifies if and only if its caller gave up, or no refusal marked before is about a cooldown still running |
| CooldownResults.FirstInTimeNotifies | crates/meta-whatsapp-bot/src/guard.rs:218-221 | of the refusals that mark while their cooldown runs exactly the first notifies |
| CooldownResults.OneNoticeExactly | crates/meta-whatsapp-bot/src/guard.rs:229-234 | in every run, by either route, a cooldown notifies once if some refusal marked it in time and once for each late refusal whose caller gave up or found nothing marked running; so at most once if and only if there is no such late refusal, or one alone |
| CooldownResults.ToldAsLogged | crates/meta-whatsapp-bot/src/guard.rs:286-306 | a refused caller was told to notify as its own refusal is logged, about a cooldown started by then |
| CooldownResults.LateMarksNotifyTwice | crates/meta-whatsapp-bot/src/guard.rs:286-299 | two callers refused in time that mark late both notify |
| CooldownResults.GivingUpNotifiesTwice | crates/meta-whatsapp-bot/src/guard.rs:301-306 | one caller marks a cooldown in time, and another, refused by it and an earlier one in turn, finds each over and gives up: both notify about it |
| Cooldowns.Store.TryStart | crates/meta-whatsapp-bot/src/guard.rs:268-307 | alone at the store, a caller starts one exactly if none is live, and a refusal notifies exactly if no notice is |
| Routers.TakePayloads | crates/meta-whatsapp-bot/src/bot.rs:1012-1026 | succeeds exactly if no payload is blank or taken, and then enters each |
| Routers.BuildSubs | crates/meta-whatsapp-bot/src/bot.rs:1092-1119 | subcommands are accepted exactly if each is good, one level deep, and no word or payload is taken twice |
| Routers.Build | crates/meta-whatsapp-bot/src/bot.rs:1064-1150 | commands are accepted exactly if every word, guard and payload is good and none is taken twice; the router is then the one of those commands |
| Routing.WordsLeadHome | crates/meta-whatsapp-bot/src/bot.rs:1079-1088 | in every accepted router a word leads to a command if and only if it is its name or alias |
| Routing.SubWordsLeadHome | crates/meta-whatsapp-bot/src/bot.rs:1101-1109 | the same of a command's subcommands |
| Routing.PayloadsLeadHome | crates/meta-whatsapp-bot/src/bot.rs:1111-1123 | a payload runs a command or subcommand if and only if that one declared it |
| Routing.DispatchAgrees | crates/meta-whatsapp-bot/src/bot.rs:117-208 | whatever a message invokes is dispatched to the very command and subcommand that matched, so neither error of dispatch is reached |
| RoutingResults.FindsCommand | crates/meta-whatsapp-bot/src/bot.rs:117-208 | in every accepted router a typed name or alias, in a caption too while they count, runs its command on all the text after it, read as that command reads it, when the first argument calls no subcommand |
| RoutingResults.FindsSubcommand | crates/meta-whatsapp-bot/src/bot.rs:117-208 | and when it does, that subcommand, on what is left after it |
| RoutingResults.FindsUnknown | crates/meta-whatsapp-bot/src/bot.rs:141-162 | a typed name that calls no command is unknown |
| RoutingResults.FindsPayload | crates/meta-whatsapp-bot/src/bot.rs:141-162 | a tapped id runs what declared it, without arguments |
| RoutingResults.FindsNothing | crates/meta-whatsapp-bot/src/bot.rs:141-176 | and any other message invokes nothing |
| Routing.ReadAgainUnchanged | crates/meta-whatsapp-bot/src/bot.rs:213-226 | reading an invocation's arguments again when it runs changes nothing |
| Retries.DelayWithinCaps | crates/meta-whatsapp-client/src/retry.rs:61-80 | a wait the server asked for is that long, unless the policy's longest cuts it; another is at most the attempt's cap, which never shrinks |
| Retries.CapsDouble | crates/meta-whatsapp-client/src/retry.rs:66-79 | the cap is the base delay doubling up to the longest |
| Retries.JitterIsFull | crates/meta-whatsapp-client/src/retry.rs:71-79 | without a server's word, exactly the waits up to the cap can come |
| Retries.GraphRequest.Materialize | crates/meta-whatsapp-client/src/request.rs:62-91 | a fixed body any number of times, a stream once |
| Retries.GraphRequest.SendRaw | crates/meta-whatsapp-client/src/request.rs:397-430 | every attempt carries the same body and is made again exactly when the policy allows, within its retries; each wait is what the server asked, cut at the longest, or within the cap of its attempt; a stream is sent at most once |
| Retries.NeverBlindlyAgain | crates/meta-whatsapp-client/src/retry.rs:47-58 | a send that is not idempotent is sent again only after an error that proves nothing was done |
| Retries.RepeatedExactly | crates/meta-whatsapp-client/src/retry.rs:47-58 | and it is sent again exactly within the retries, if it is idempotent and the error retryable, or the error proves nothing was done |
| Retries.Send | crates/meta-whatsapp-bot/src/pacer.rs:959-973 | the same of the paced outbound, each send in a slot of its own |
| Retries.MarkRead | crates/meta-whatsapp-bot/src/pacer.rs:975-999 | and of read receipts, idempotent unless they show a typing indicator |
| NestingResults.OpenSound | crates/meta-whatsapp-bot/src/markdown.rs:636-643 | opening a quote or list, beyond the cap or not, keeps the frames those of the open tags kept, `kept` their number, and every leaf |
| Nesting.Builder.CloseContainer | crates/meta-whatsapp-bot/src/markdown.rs:645-650 | says whether the innermost had a frame |
| Nesting.Builder.PushNode | crates/meta-whatsapp-bot/src/markdown.rs:652-662 | the node goes into the innermost frame |
| Nesting.Builder.Take | crates/meta-whatsapp-bot/src/markdown.rs:673-840 | one event leaves the builder the proved transition does |
| Nesting.Builder.Finish | crates/meta-whatsapp-bot/src/markdown.rs:842-861 | the tree is the open frames closed from the inside out |
| NestingResults.BuiltSound | crates/meta-whatsapp-bot/src/markdown.rs:596-671 | whatever the cap, after any well-nested events the frames are those of the open tags kept, `kept` is how many containers are marked, and the leaves are what was written |
| NestingResults.QuoteSound | crates/meta-whatsapp-bot/src/markdown.rs:785-792 | a quote's end pops its own frame and loses no leaf |
| NestingResults.ListSound | crates/meta-whatsapp-bot/src/markdown.rs:793-800 | a list's end pops its own frame and loses no leaf |
| NestingResults.ItemSound | crates/meta-whatsapp-bot/src/markdown.rs:801-813 | an item's end pops its own frame and loses no leaf, whatever holds it |
| NestingResults.CapLosesNothing | crates/meta-whatsapp-bot/src/markdown.rs:589-594 | the tree has the same leaves in the same order under every cap |
| NestingDepth.CapHolds | crates/meta-whatsapp-bot/src/markdown.rs:589-594 | and nests quotes and lists no deeper than the cap |
| NestingDepth.Tree | crates/meta-whatsapp-bot/src/markdown.rs:589-861 | the builder itself: at most sixteen deep, with the leaves written |
| NestingShape.WrittenReadsBack | crates/meta-whatsapp-bot/src/markdown.rs:596-861 | a document written out as events is built as it was, when it nests no deeper than the cap |
| NestingShape.WrittenIsFitted | crates/meta-whatsapp-bot/src/markdown.rs:589-594 | and whatever the cap, with each quote or list that does not fit replaced by what it holds |
| NestingShape.ReadBack | crates/meta-whatsapp-bot/src/markdown.rs:589-861 | the builder itself does so, up to sixteen deep |
| NestingShape.OnlyBreaksTrimmed | crates/meta-whatsapp-bot/src/markdown.rs:677-683 | of a code block only the line breaks at its end are left out, all of them |
| Tables.Records | crates/meta-whatsapp-bot/src/markdown.rs:907-950 | the records whole, or nothing when they are empty or longer than the budget; the length counted before writing is exact |
| Tables.NothingUnrecorded | crates/meta-whatsapp-bot/src/markdown.rs:907-950 | every value of the body is in the records, after its label |
| Tables.PaddingFits | crates/meta-whatsapp-bot/src/markdown.rs:974-982 | every cell fits its column, so the padding is never negative |
| Tables.PaddedColumns | crates/meta-whatsapp-bot/src/markdown.rs:952-995 | the columns exactly when width and area fit; `TableResults.ColumnsShow` says what they show |
| Tables.ColumnsLength | crates/meta-whatsapp-bot/src/markdown.rs:965-971 | the columns never exceed lines times (width + 1) |
| Tables.Layout | crates/meta-whatsapp-bot/src/markdown.rs:875-885 | which layout is chosen, and how long it is at most; `TableResults.FormatTable` says so of the cells alone |
| TableResults.ColumnsShow | crates/meta-whatsapp-bot/src/markdown.rs:974-994 | in the columns each cell stands in its row's line at its column's offset, with only spaces up to the next separator; only white space at a line's end is left out |
| TableResults.PlainRowsShow | crates/meta-whatsapp-bot/src/markdown.rs:887-905 | a plain row is its cells in order up to the last that is not empty, so no value is lost |
| TableResults.RecordsShow | crates/meta-whatsapp-bot/src/markdown.rs:907-950 | the records are a block for each row with a value, a line for each value, after its label if that is not empty |
| TableResults.FormatTable | crates/meta-whatsapp-bot/src/markdown.rs:875-885 | a table's text is columns as wide as their widest cells exactly if a line and the whole fit, else the records if there are any within the budget, else the plain rows; at most the longest of the rows, growth times those and 4096 characters |

## Left out

- Saturation: times and durations are unbounded integers; the saturating additions of the program never saturate here. The
  32-bit divisor's saturating check and wrapping product are modelled.
- Late callers: the window bounds are about slot starts (`now + wait`); a caller that wakes late can bunch real sends together.
- The pacer's `now` is read before its lock is taken, so calls may arrive out of order: an earlier `now` is then a clock that
  steps back, which the runs allow. `PacerReleases.ForwardBegins` and `PacerReleases.WaitBound` need times that do not decrease.
- PacerBounds.OneSecondExactly: for rates of up to 31,622 a second, whose square is within 10^9: past them rounding counts
  against the tolerance, and `PacerMost.OneSecondAtAnyRate` takes over.
- PacerMost.OneSecondAtAnyRate: an if-and-only-if when the slow-downs that can be in force together can all come within a
  second. With a longer spacing it is one condition under which the claim holds and one under which it fails, which do not
  meet; and it does not speak of a divisor that wraps around (`PacerSlowDowns.WrapsExactly`).
- PacerSlowDowns.SlowDownsKeep: for rates below the largest 32-bit one; `PacerSlowDowns.WrapsExactly` says when the largest
  one needs that.
- Broadcast workers are events of a transition system rather than loops: each point a worker waits at is a state, and any
  event may come next, which includes more interleavings than one task polling its workers has. A cancel may come between
  any two events; one from another thread between a worker's halt check and its send is not modelled.
- Books.Book: the heap of retries is kept as the sequence it would be popped in.
- A message's content, its composing and the recipients' own fields: composing may fail, and that is all that is seen of it.
- BroadcastNaps.SteadyRunsEnd: on a clock that steps back a worker may wake before anybody is due, and nap again as often as
  the clock steps; only `BroadcastProgress.RunsEnd` bounds such a run, but for its naps.
- BroadcastProgress.CanFinish: says a schedule exists on any clock, with answers of its choice; `BroadcastNaps` is about all.
- A policy that keeps a state of its own is any relation between a failed send and the verdicts it may get.
- What an error is: `is_retryable`, `may_resend` and the maintenance test are free predicates of each error.
- Splitter: blocks come as text; the rendering of a parsed document into blocks, and escaping, are not part of this model.
- Lexer: offsets count characters, not bytes. The program's comparisons are between offsets into one text, so they agree.
- Normalising names and parsing prefixes: any functions do.
- Cooldowns: expiries always fit the store's range, and keys of different users or commands never meet (their digests differ).
- Listeners, guards other than flags and cooldowns, help texts and the menu: single branches over values shown elsewhere.
- Retries: a longest delay below 2^64 - 1 nanoseconds, which the program adds one to. The random bytes are a number.
- Nesting: a run of text is its characters, without styles and links; a table is one event with its text.
- NestingShape.WrittenReadsBack: for documents without empty runs, and code that is not blank and does not end in a line break,
  since the builder leaves those out; each run is written as a paragraph of its own.
- NestingResults.CapLosesNothing: for events whose starts and ends match, the only ones the parser gives.
- Tables: `chars(rows) * growth` does not saturate.
- The durable rate limiter and jobs, HTTP, webhooks, stores and adapters: code of their own, or input and output.
