# Croniq, verified

Croniq schedules jobs from a text file, the Croniqfile, and hands the due executions to runners over HTTP. This project models the parts of it that are hardest to get right by inspection and proves, for every input and every interleaving, what they are for. `dafny verify dfyconfig.toml` checks all of it.

- **The Go runner** (`RunnerParts.dfy`, `RunnerProtocol.dfy`, `RunnerSafety.dfy`, `RunnerPacing.dfy`): one poll loop, any number of run goroutines, the in-flight map and the one-slot "slot freed" channel, as a state machine whose steps interleave freely. Deleting an execution and signalling the freed slot are two separate steps. Server replies are arbitrary; timers are steps that may happen at any time. The state changes the methods make are the ones the machine takes (`Slots`).
- **The log writer** (`LogWriter.dfy`, `LogProtocol.dfy`): the bounded command channel, the flusher and its buffer, the shutdown drain, as a second state machine, with the flusher's loops as methods.
- **The configuration hash** (`KeyOrder.dfy`, `JsonScalars.dfy`, `CanonicalJson.dfy`, `JsonReader.dfy`, `Fingerprint.dfy`): canonical JSON over values of any depth, with objects as lists of entries in hash-map order, and the normalisation of a job's JSON before it is hashed. That the text is JSON is shown by a reader written from RFC 8259, with its own table of escapes (section 7) and its own numbers (section 6): it reads every text as the value it was written for.
- **Edit distance** (`EditDistance.dfy`): the two-row table against edit scripts, and the suggestion built on it.
- **Schedules** (`Calendar.dfy`, `NextFire.dfy`, `ScheduleLaws.dfy`): the next-fire search on the proleptic Gregorian calendar, and what a compiled schedule fires on.
- **Cron conversion** (`Convert.dfy`): fixed-time cron lines to schedule text and back through the schedule parser, compared by the instants they name.
- **The formatter's emitters** (`Format.dfy`, `WeekdayText.dfy`): quoting, weekday lists down to the characters the parser reads back, lost comments.
- **The compiler's job pass** (`Folds.dfy`, `Compile.dfy`, `CompileLaws.dfy`, `FileLaws.dfy`, `DefaultsLaws.dfy`, `Words.dfy`, `BodyWords.dfy`, `VarsLaws.dfy`, `SwapLaws.dfy`, `BlockLaws.dfy`): variables, concurrency groups, defaults, calendars, jobs with their metadata stamps, what each setting comes to in the words of the file, and which parts of a file may change places. The environment and the file system are one arbitrary function from placeholder text to an optional value.
- **The fingerprint of a compiled job** (`JobHash.dfy`, `JobJson.dfy`, `CompiledHash.dfy`, `Rehash.dfy`): the compiled job serialised to JSON, what two jobs with one hashed text have in common, and which edits of a Croniqfile change it. Reading an embedded payload back is left to a reader of which only this is known: it reads what the serialiser writes (`ReadsJson`).

## Where the code and its documentation differ

- A comment at crates/croniq-config/src/compile.rs:1962 says the schedule prefix outranks an `execution_mode` directive. The code lets the last readable directive win; the model does too. `PrefixOverridden` is a job that shows it and `PrefixDecidesIff` says exactly when the prefix is what counts.
- The comment at crates/croniq-config/src/compile.rs:112-115 calls the order of blocks irrelevant to placeholders. That holds for literal variables (`LiteralVarsMove`). Two blocks that set placeholder variables of different names may be swapped in every file exactly when neither reads the other; two that set one name exactly when one of them reads that name, or both have the same text, or both come from outside and resolve alike (`PlaceholdersSwapIff`). `ChainedVarsDependOnOrder` and `RepeatedVarDependsOnOrder` are files that depend on the order.
- The comment at crates/croniq-config/src/fingerprint.rs:9-12 says a re-ordered directive list compiles to the same job and must not fire anything. Two neighbouring directives may be swapped in every job exactly when they set no field to two values and name their tags in one order (`DirectivesSwapIff`), and without a change of fingerprint exactly when they set no hashed field to two values (`RehashIff`). Two blocks may exactly when they leave no field and no metadata key with two values (`BlocksSwapIff`), and a directive and a block always (`NodesSwapIff`). `singleton` next to `max_concurrent 3` is a pair whose order changes both the job and its hashed text (`LimitsDependOnOrder`).
- crates/croniq-config/src/fingerprint.rs:70-71 says the hash changes whenever any behavioural field does. A jitter that is not a finite number is written like none, so a change among these does not show (`NonFiniteJitterUnseen`); `CompiledHashExact` says that there is no other such change.
- The comment at crates/croniq-config-wasm/src/lib.rs:922-923 says three months satisfy any well-formed monthly schedule. They find a match, but the first match only when the ordinals are in order (`MonthlyExact`, `UnsortedOrdinalsSkip`).
- `Flush` is documented to return once everything queued was posted (sdks/go/logwriter.go:123-124). In the shutdown drain the ack precedes the post; `DrainFlushExact` says exactly when that matters and `DrainAckTooEarly` is a run where it does.
- The converter is to return a Croniq schedule (crates/croniq-config/src/convert.rs:38-49). An hour over 23 or a minute over 59 is converted without a warning to text the schedule parser rejects; `ConversionExact` says the text parses exactly otherwise, and `LateHour` is `0 25 * * *`.
- Cron's `0,7` converts to the weekend, the reversed range `6-0` to every day, and so does a list of seven days with a repeat. A number with a plus sign, which cron rejects, is read as that number. `ConversionExact` says these are the only lines that change their instants; `SundayTwice`, `ReversedRange`, `SevenMondays` and `SignedDay` are the failures.

## Model

| member | source | states |
|---|---|---|
| RunnerParts.Runner.constructor | sdks/go/runner.go:276-283 | A new runner has nothing in flight and no freed-slot token. |
| RunnerParts.Runner.TryDispatch | sdks/go/runner.go:622-637 | An execution that is not running enters the map with the new cancel handle; one that is running leaves map and handle alone and reports so. |
| RunnerParts.Runner.DeleteInflight | sdks/go/runner.go:921-924 | Only the given execution leaves the map. |
| RunnerParts.Runner.SignalSlotFreed | sdks/go/runner.go:925-928 | The token is set, never more than one, and the map is untouched. |
| RunnerParts.Runner.DiscardStaleToken | sdks/go/runner.go:379-382 | Any token is taken, without blocking when there is none. |
| RunnerParts.Runner.InflightIDs | sdks/go/runner.go:890-898 | The reported ids are exactly the map's keys. |
| RunnerParts.Runner.CancelInflight | sdks/go/runner.go:900-907 | Exactly the handles reached by that id are cancelled in addition, none for an id not in flight; the map and the token stay as they were. |
| RunnerParts.AckResult | sdks/go/runner.go:766-811 | Against any server, the replies seen form a complete ack sequence: attempts go on exactly while they fail retryably and fewer than three were made. |
| RunnerParts.AckSequenceDetermined | sdks/go/runner.go:750-811 | A complete ack sequence is unique for given replies and has one to three attempts. |
| RunnerParts.EffectiveLimits | sdks/go/runner.go:243-254 | A positive option is kept and any other becomes the default of three, so a streak limit is always at least one. |
| RunnerParts.StreaksOf | sdks/go/runner.go:351-358 | The conflict and the auth streak of a history are never both positive. |
| RunnerParts.JudgeByHistory | sdks/go/runner.go:398-526 | Judging a reply by the two counters is judging the whole history: stop on a 403 or when the trailing run of 401s or 409s reaches its limit (sections 15.5.2, 15.5.4 and 15.5.10 of RFC 9110), otherwise the counters are the trailing runs. |
| RunnerParts.ReadPolls | sdks/go/runner.go:351-526 | Over any sequence of outcomes the loop stops at the first history that is final, with that history's error, and otherwise reads to the end. |
| RunnerSafety.InvAlways | sdks/go/runner.go:320-340 | Every reachable state of every interleaving keeps the runner's invariant. |
| RunnerSafety.InFlightExact | sdks/go/runner.go:622-698 | The map's keys are exactly the ids of the dispatched runs that have not deleted themselves, each mapped to that run's own handle; no id has two live runs. |
| RunnerSafety.RedeliveryIgnored | sdks/go/runner.go:541-561 | Delivering a running execution again starts nothing and replaces no handle. |
| RunnerSafety.ReachedExact | sdks/go/runner.go:900-907 | In every reachable state the handles an id reaches are those of its live runs: at most one, and never that of a finished run. |
| RunnerSafety.CancelReachesTheRun | sdks/go/runner.go:900-907 | A server cancel reaches the live run of that id and no other. |
| RunnerSafety.NoLostWakeup | sdks/go/runner.go:376-384 | Waiting at capacity with no token and nobody between delete and signal, every execution the poll reported is still in flight and the runner is really full; `WaitsExactlyWhenFull` says when the loop waits at all. |
| RunnerSafety.FreedSlotEndsTheWait | sdks/go/runner.go:563-578 | Once a reported execution is gone, the wait can end at once or after one pending signal. |
| RunnerSafety.RunsProgress | sdks/go/runner.go:653-696 | A run keeps its id and only moves forward through handling, acking, deleting, signalling and done. |
| RunnerSafety.PollsListUntilLastAck | sdks/go/runner.go:653-696 | Every poll between a run's dispatch and its last ack attempt lists the execution with the run's own handle, so its lease is kept. |
| RunnerSafety.AckAttempts | sdks/go/runner.go:750-811 | In any interleaving each run makes at most three ack attempts, repeats only after a transport error or 5xx, and leaves the ack loop with a complete sequence. |
| RunnerSafety.ReturnedMeansDrained | sdks/go/runner.go:848-871 | When `Run` returns every dispatched run has finished its acks and the map is empty. |
| RunnerSafety.StopsExactlyWhenFinal | sdks/go/runner.go:398-526 | The running loop gives up with an error exactly on the poll that makes the history final, and its counters always summarise the history. |
| RunnerSafety.NeverOverCapacity | sdks/go/runner.go:365-393 | If every response carries at most the room its request reported, the in-flight set never exceeds the limit. |
| RunnerSafety.Overdelivered | sdks/go/runner.go:535-541 | For every limit: from any poll during which no run ended, a response with more fresh assignments than the reported room extends the run to one over the limit. |
| RunnerSafety.LimitRestsOnTheServer | sdks/go/runner.go:535-541 | For every limit and every response larger than it, the first poll already leads over the limit: the limit rests on the server. |
| RunnerPacing.WaitsExactlyWhenFull | sdks/go/runner.go:365-393 | Between a successful poll and the next snapshot the loop waits in the capacity backoff if and only if the poll reported at least `MaxInflight` executions. |
| RunnerPacing.RetriesAfterDelay | sdks/go/runner.go:398-526 | After a failed poll there is no other before the retry delay has passed. |
| RunnerPacing.WakesForAFreedSlot | sdks/go/runner.go:563-578 | A wait ends early only for a slot freed since the loop last took a token. |
| RunnerPacing.EndsQuietlyWhenStopped | sdks/go/runner.go:359-364 | The loop ends without an error only if it was told to stop. |
| RunnerPacing.NoPollBeginsAfterStop | sdks/go/runner.go:359-364 | Once told to stop, the loop begins no further poll and counts no further failure. |
| RunnerPacing.StopIsHeeded | sdks/go/runner.go:359-578 | Wherever the loop polls or waits, a stop can end it at once and without an error. |
| RunnerPacing.DrainIsTimed | sdks/go/runner.go:848-871 | A drain can time out if and only if something was in flight as it began. |
| RunnerPacing.RunsWereAssigned | sdks/go/runner.go:530-561 | Every run is of an execution that an earlier response assigned and the ingest guard let through; an unsafe assignment never becomes a run. |
| RunnerPacing.AssignmentsStart | sdks/go/runner.go:541-561 | Every safe assignment of an execution that is not running starts a run with a handle of its own, over the limit or not. |
| RunnerPacing.DrainCancelsTheRest | sdks/go/runner.go:848-871 | A drain that runs out of time cancels every live run, and leaves the finished ones alone. |
| RunnerPacing.CancelledOnlyWhenAsked | sdks/go/runner.go:848-907 | Nothing but a server cancel of its id or a drain out of time cancels a run. |
| RunnerPacing.AckCompleteExact | sdks/go/runner.go:750-811 | An ack sequence is complete if and only if every reply but the last is a transport error or a status of 500 or more and the last is neither, or is the third. |
| LogBatches.Flusher.constructor | sdks/go/logwriter.go:164-169 | The flusher starts with an empty buffer and no posts. |
| LogBatches.Flusher.FlushBuffer | sdks/go/logwriter.go:171-214 | The flush closure empties the buffer; the posts it adds carry exactly the buffered events, stamped and in order, in chunks of a hundred but for the last, none empty. |
| LogBatches.FlushesAll | sdks/go/logwriter.go:171-214 | The specified posts of a flush carry the whole buffer, stamped and in order, each full but the last. |
| LogBatches.Flusher.TakeCommand | sdks/go/logwriter.go:238-249 | An event joins the buffer and is posted with it at the threshold; a flush posts the buffer first and only then closes its ack. |
| LogBatches.Flusher.DrainAndExit | sdks/go/logwriter.go:218-236 | The shutdown branch closes every queued ack, in order, before anything it posts, and then posts buffer and queue in order. |
| LogProtocol.InvAlways | sdks/go/logwriter.go:164-254 | Every reachable state of senders and flusher keeps the invariant. |
| LogProtocol.PostChunkFollowsFlush | sdks/go/logwriter.go:171-213 | Chunk by chunk, the state machine's flush makes the posts the flush method makes. |
| LogProtocol.PostedIsPrefix | sdks/go/logwriter.go:164-254 | Posted, buffered and queued events are the accepted sequence, stamped, in order and without duplicates; posts are never empty, at most 32 events while running and at most 100 in the drain. A sender blocks exactly when 256 commands are queued. |
| LogProtocol.RunningFlushIsComplete | sdks/go/logwriter.go:125-139 | A flush ack closed while running means every event accepted before the request was posted. |
| LogProtocol.DrainFlushExact | sdks/go/logwriter.go:222-236 | An ack closed in the drain covers its earlier events at that moment exactly when the buffer is empty. |
| LogProtocol.ExitHonoursAcks | sdks/go/logwriter.go:222-236 | Once the flusher has exited every ack it ever closed is honoured. |
| LogProtocol.ShutdownPostsEverything | sdks/go/logwriter.go:144-162 | Everything accepted before the shutdown signal is posted when the flusher exits. |
| LogProtocol.FlushesExactlyWhenDue | sdks/go/logwriter.go:238-254 | The flusher starts a flush exactly on a tick, on a flush request and on the 32nd buffered event. |
| LogProtocol.FlushPostsTheBuffer | sdks/go/logwriter.go:171-214 | When a flush is over, what was buffered as it began has been posted, stamped and in order, and the buffer is empty. |
| LogProtocol.AcksInOrder | sdks/go/logwriter.go:125-139 | Acks closed, pending and queued are together the flush requests, in the order they were made: none is lost, closed twice or overtaken. |
| LogProtocol.ShutdownLosesNothing | sdks/go/logwriter.go:144-162 | Whatever had been accepted when the shutdown was signalled has been posted, first and in order, when the flusher exits. |
| LogProtocol.DrainAckTooEarly | sdks/go/logwriter.go:222-236 | A run of the drain that acknowledges a flush while an earlier event is unposted. |
| KeyOrder.SortIgnoresOrder | crates/croniq-config/src/fingerprint.rs:119-120 | Two orders of the same keys sort to the same list. |
| KeyOrder.SortedByCodePoint | crates/croniq-config/src/fingerprint.rs:119-120 | In the sorted list every key is smaller than those after it: a proper prefix, or smaller at the first code point that differs. |
| JsonScalars.QuoteUnambiguous | crates/croniq-config/src/fingerprint.rs:126 | A JSON string literal determines both the string and where it ends, whatever follows; `QuoteReads` says which string. |
| JsonReader.QuoteReads | crates/croniq-config/src/fingerprint.rs:126 | A reader with the escapes of section 7 of RFC 8259 reads the literal written for a string as that string and leaves what follows, for every string and every following text. |
| JsonReader.EscapeLength | crates/croniq-config/src/fingerprint.rs:126 | A character takes two characters if there is a short escape for it, six if it is another control character, and one otherwise. |
| JsonScalars.DecimalInjective | crates/croniq-config/src/fingerprint.rs:144 | Different integers print differently. |
| CanonicalJson.WriteCanonical | crates/croniq-config/src/fingerprint.rs:116-146 | The recursive writer appends exactly the canonical text, which `DocumentReads` reads back as the value, and keeps what was in the buffer. |
| CanonicalJson.SameValueSameText | crates/croniq-config/src/fingerprint.rs:109-146 | Values equal as JSON, with objects compared as maps at every depth, have the same canonical text. |
| CanonicalJson.Unambiguous | crates/croniq-config/src/fingerprint.rs:116-146 | No rendering followed by a delimiter or the end can be taken for another: value and remaining text are both determined. |
| CanonicalJson.CanonicalExact | crates/croniq-config/src/fingerprint.rs:116-146 | Two values of any depth have the same canonical text if and only if they are equal as JSON. |
| JsonReader.TextReads | crates/croniq-config/src/fingerprint.rs:116-146 | Before anything that may follow a value, the text of any value, with its keys sorted or not, reads as that value by the grammar of RFC 8259 and leaves exactly what follows. |
| JsonReader.DocumentReads | crates/croniq-config/src/fingerprint.rs:109-146 | Every text the writer writes is a JSON document that reads as the value it was written for. |
| Fingerprint.ExecTextExact | crates/croniq-config/src/compile.rs:808-856 | Two runner payloads serialise to the same text if and only if they are the same payload, `env` compared as a map. |
| Fingerprint.DecodeIgnoresOrder | crates/croniq-config/src/fingerprint.rs:88-95 | Decoding an embedded payload does not see the order of entries at any depth. |
| Fingerprint.NormalExecExact | crates/croniq-config/src/fingerprint.rs:79-95 | After normalisation two embedded payload strings are the same if and only if they carry the same payload. |
| Fingerprint.PayloadOrderIgnored | crates/croniq-config/src/fingerprint.rs:79-95 | Reordering an embedded payload, its `env` included, does not change its normal form. |
| Fingerprint.HashInput | crates/croniq-config/src/fingerprint.rs:73-99 | Removing the ignored fields in place and rewriting the embedded payload yields exactly the specified text. |
| Fingerprint.ConfigTextExact | crates/croniq-config/src/fingerprint.rs:56-146 | Whatever the reader of embedded text does, two JSON objects hash to the same text if and only if every field that is not ignored is the same, embedded payloads being compared in their normal form. |
| Fingerprint.DecodeBack | crates/croniq-config/src/compile.rs:808-856 | Every payload is read back from the document written for it, as the same payload. |
| Fingerprint.NormalExecFixed | crates/croniq-config/src/fingerprint.rs:79-95 | A payload text the compiler wrote is its own normal form. |
| Fingerprint.EmbeddedExact | crates/croniq-config/src/fingerprint.rs:79-95 | Any two embedded texts, decodable or not, have one normal form if and only if both run the same payload, or neither is a payload and they are the same text. |
| Fingerprint.ConfigTextByPayload | crates/croniq-config/src/fingerprint.rs:56-146 | With a reader that reads what the serialiser writes, two JSON objects hash to the same text if and only if every field that is not ignored is the same, the payload by what it runs: no other difference is hidden and none is added. |
| Fingerprint.ReaderExists | crates/croniq-config/src/fingerprint.rs:88-90 | The reader of RFC 8259 is such a reader. |
| JobHash.HashExact | crates/croniq-config/src/compile.rs:684-790 | Two compiled jobs, however their metadata is ordered, have the same hashed text if and only if they agree on every field that is not ignored, from schedule to dead-letter policy, embedded payloads in their normal form. |
| JobHash.ScheduleExact | crates/croniq-config/src/schedule.rs:7-29 | Two compiled schedules serialise to the same JSON if and only if they are the same schedule. |
| JobJson.JobInJson | crates/croniq-config/src/compile.rs:684-790 | In the serialised job every setting is found under the name the field has: texts and counts or `null`, choices by the word their directive takes, a normal priority not at all, the placement, retry, dead-letter and schedule records name by name, weekdays by names the schedule parser knows. |
| JobHash.PayloadLayoutIgnored | crates/croniq-config/src/fingerprint.rs:79-99 | A job whose embedded payload is rewritten with its entries in another order keeps its hashed text. |
| JobHash.NonFiniteJitterUnseen | crates/croniq-config/src/compile.rs:1134-1142 | A jitter that is not a finite number hashes like no jitter: the jobs differ, their texts do not. |
| CompiledHash.HashedPayloadExact | crates/croniq-config/src/fingerprint.rs:79-95 | The hashed payload stamps of two compiled jobs agree if and only if their last runner blocks that compile run the same thing. |
| CompiledHash.CompiledHashExact | crates/croniq-config/src/fingerprint.rs:66-99 | Two jobs compiled in any two files have the same hashed text if and only if they agree on every setting that is not ignored, run the same payload and carry the same other metadata. |
| Rehash.RehashIff | crates/croniq-config/src/fingerprint.rs:9-12 | Two neighbouring directives may change places in every job without changing the hashed text if and only if they set no hashed field to two values. |
| Rehash.LimitsDependOnOrder | crates/croniq-config/src/fingerprint.rs:9-12 | `singleton` and `max_concurrent 3`, alone in a body, make two jobs with two hashed texts by their order. |
| EditDistance.Distance | crates/croniq-config/src/block_directives.rs:544-559 | The two swapped rows compute the length of the shortest script of insertions, deletions and substitutions turning one string into the other. |
| EditDistance.ShortestScript | crates/croniq-config/src/block_directives.rs:544-559 | There is an edit script of exactly the computed length. |
| EditDistance.NoScriptIsShorter | crates/croniq-config/src/block_directives.rs:544-559 | No edit script, at any positions and in any order, is shorter. |
| EditDistance.LevIsEditDistance | crates/croniq-config/src/block_directives.rs:544-559 | The recursive distance is the least length of an edit script. |
| EditDistance.ZeroIffEqual | crates/croniq-config/src/block_directives.rs:544-559 | The distance is zero if and only if the strings are equal. |
| EditDistance.Symmetric | crates/croniq-config/src/block_directives.rs:544-559 | The distance is the same both ways. |
| EditDistance.Triangle | crates/croniq-config/src/block_directives.rs:544-559 | The triangle inequality. |
| EditDistance.LengthBounds | crates/croniq-config/src/block_directives.rs:544-559 | The distance lies between the difference of the lengths and the longer length. |
| EditDistance.NoneIffAllOverBudget | crates/croniq-config/src/block_directives.rs:527-539 | There is no suggestion if and only if every known key is more than one edit away from a word of up to three characters, two from one of up to eight, three from a longer one. |
| EditDistance.ClosestIsLeast | crates/croniq-config/src/block_directives.rs:527-539 | A suggestion is a known key within that reach, no further away than any other, no longer in bytes than one as near, and the first of those alike. |
| EditDistance.ExactKeyWins | crates/croniq-config/src/block_directives.rs:527-539 | A known key spelled right is suggested over every other. |
| Calendar.LastDayOfMonth | crates/croniq-config-wasm/src/lib.rs:972-982 | Stepping back from the first of the next month gives the length of the month, leap years included. |
| Calendar.NextNumber | crates/croniq-config-wasm/src/lib.rs:900 | Adding a day to a date adds one to its day number. |
| Calendar.NumberOrder | crates/croniq-config-wasm/src/lib.rs:896-897 | Day numbers order dates as their year, month and day do, and name them uniquely. |
| Calendar.DayNumberIsCivil | crates/croniq-config-wasm/src/lib.rs:896-910 | The day number of every date is that of the closed formula, which knows no table of months: month lengths and leap years are right. |
| Calendar.WeekdayStep | crates/croniq-config-wasm/src/lib.rs:910 | The day after any date has the next weekday. |
| Calendar.EpochWeekday | crates/croniq-config-wasm/src/lib.rs:910 | The first of January 1970 was a Thursday. |
| Calendar.WeekdayExact | crates/croniq-config-wasm/src/lib.rs:910 | There is one way to name the weekdays of all dates so, and this is it. |
| NextFire.NextDaily | crates/croniq-config-wasm/src/lib.rs:892-902 | Today or tomorrow is the first match strictly after the cursor; none exactly when the time of day is invalid. |
| NextFire.WeekHasHit | crates/croniq-config-wasm/src/lib.rs:906-908 | Some day in the seven after the cursor is always a later match if any weekday is listed. |
| NextFire.NextWeekday | crates/croniq-config-wasm/src/lib.rs:903-919 | The day-by-day search returns the first match after the cursor, by the weekdays `WeekdayExact` fixes, and finds one whenever a day is listed. |
| NextFire.NextMonthly | crates/croniq-config-wasm/src/lib.rs:920-948 | The nested month and ordinal loops compute the specified month scan. |
| NextFire.MonthlySound | crates/croniq-config-wasm/src/lib.rs:920-948 | Whatever the order of ordinals, a result is a later match, and there is none only if no match exists. |
| NextFire.WithinThreeMonths | crates/croniq-config-wasm/src/lib.rs:922-926 | Three months suffice for days 1 to 31 and `last`. |
| NextFire.OrderedIsEnough | crates/croniq-config-wasm/src/lib.rs:920-948 | With ordinals in order in every month the result is the first match. |
| NextFire.OutOfOrderSkips | crates/croniq-config-wasm/src/lib.rs:920-948 | A day listed out of order in some month is skipped when searching from 24 hours before it. |
| NextFire.MonthlyExact | crates/croniq-config-wasm/src/lib.rs:920-948 | The monthly search returns the first match from every instant if and only if the ordinals are in order in months of every length. |
| NextFire.AscendingIsOrdered | crates/croniq-config-wasm/src/lib.rs:920-948 | Ascending days with `last` at most at the end are in order in every month. |
| NextFire.UnsortedOrdinalsSkip | crates/croniq-config-wasm/src/lib.rs:920-948 | `every 15th 1st of month` skips the first of February from the last day of January. |
| NextFire.NextFireUtc | crates/croniq-config-wasm/src/lib.rs:875-958 | For every kind of schedule the result is strictly later and matches, and there is none only if no match follows; it is the first match for all but intervals and unordered months, and an interval fires exactly its length later. |
| NextFire.NextFires | crates/croniq-config-wasm/src/lib.rs:847-862 | Every listed fire is a match later than the one before, unordered months included, and the list is short only if no match follows; unless the months are unordered it is exactly the first matches, without a gap. Intervals are evenly spaced. |
| Convert.ReadDow | crates/croniq-config/src/convert.rs:242-272 | The loop over a day-of-week field yields one name per item, the fixed spellings first, and nothing if any item is unknown. |
| Convert.ReadDom | crates/croniq-config/src/convert.rs:307-325 | The loop over a day-of-month field yields one ordinal per item, or `last`, and nothing if any item is out of range. |
| Convert.TableIsCron | crates/croniq-config/src/convert.rs:274-286 | The converter's table names, for every item in any case, the day cron means by it, and knows no other item. |
| Convert.TimeRoundTrip | crates/croniq-config/src/convert.rs:159 | The emitted time is read back by the schedule parser as the same time if a clock shows it, and rejected otherwise. |
| Convert.TimeTextShape | crates/croniq-config/src/convert.rs:159 | A time of day is written as two digits for the hour, a colon and two digits for the minute. |
| Convert.OrdinalRoundTrip | crates/croniq-config/src/convert.rs:322-337 | An emitted ordinal with its English suffix is read back as the same day of the month. |
| Convert.FaithfulKnown | crates/croniq-config/src/convert.rs:243-263 | Of the fixed spellings exactly `0,7` and `6-0` change the days. |
| Convert.FaithfulList | crates/croniq-config/src/convert.rs:288-303 | A list of days keeps its days unless it has seven items and repeats one. |
| Convert.WarnsExactly | crates/croniq-config/src/convert.rs:101-112 | A conversion has one warning for a month field other than `*` and one for two restricted day fields, and no other. |
| Convert.ConvertsExactly | crates/croniq-config/src/convert.rs:153-325 | A fixed-time line converts if and only if hour and minute are numbers and the day fields looked at are known: a fixed spelling or a list of days cron knows, `L` or a list of numbers from 1 to 31. |
| Convert.WarnedFieldsDropped | crates/croniq-config/src/convert.rs:101-204 | A line with warnings converts to the schedule of the line without what they are about: any month, and with two restricted day fields the day of the week alone. |
| Convert.ConversionExact | crates/croniq-config/src/convert.rs:153-187 | The text of any fixed-time line, whatever its month field, that converts without warning parses if and only if the hour is at most 23 and the minute at most 59; it then fires at exactly the cron line's instants if and only if no number is signed and the day-of-week field is neither `0,7` nor `6-0` nor a seven-item list with a repeat. |
| Convert.DomDates | crates/croniq-config/src/convert.rs:307-325 | The dates a day-of-month field is converted to are those cron gives it, unless an item is signed: then cron gives it none. |
| Convert.LateHour | crates/croniq-config/src/convert.rs:158-167 | `0 25 * * *` converts without warning to `every day at 25:00`, which does not parse. |
| Convert.SignedDay | crates/croniq-config/src/convert.rs:316-322 | `+5`, like any signed day of the month, names no date in cron and converts without warning to that day of every month. |
| Convert.UnfaithfulConverts | crates/croniq-config/src/convert.rs:169-177 | Every such field really converts, without warning, to a schedule with other instants. |
| Convert.SundayTwice | crates/croniq-config/src/convert.rs:261-263 | `0 9 * * 0,7`, Sundays in cron, converts without warning to a schedule that fires on exactly Saturdays and Sundays. |
| Convert.ReversedRange | crates/croniq-config/src/convert.rs:244-247 | `0 9 * * 6-0`, which names no day in cron, converts without warning to a schedule that fires every day. |
| Convert.SevenMondays | crates/croniq-config/src/convert.rs:296-298 | `1,1,1,1,1,1,1`, Mondays in cron, converts without warning to a schedule that fires every day. |
| Format.QuoteString | crates/croniq-config/src/format.rs:625-640 | The character loop writes the specified literal. |
| Format.QuoteRoundTrip | crates/croniq-config/src/format.rs:618-640 | A quoted string stays on one line, and reading it back gives the value and leaves exactly what follows, for every value and every following text. |
| Format.CollapseRuns | crates/croniq-config/src/format.rs:337-351 | For any strictly increasing indices the runs are maximal and spell out exactly those indices. |
| WeekdayText.ReadBack | crates/croniq-config/src/parser.rs:980-1016 | Whatever days and ranges are written, the schedule parser reads the text back as their days. |
| WeekdayText.FormatWeekdayList | crates/croniq-config/src/format.rs:303-368 | The text of a day list is read back by the schedule parser as exactly the days given, in week order and once each, and is compact: Monday to Friday and the weekend by their names, otherwise every range of three days or more as a range that cannot be extended and only the other days alone. |
| WeekdayText.OrdinalsAgree | crates/croniq-config/src/format.rs:370-378 | The formatter and the converter, each with its own rule for the suffix, write every day of the month alike, and the parser reads that day. |
| Format.UnpaidExact | crates/croniq-config/src/format.rs:35-45 | What the kept comments do not pay for is the multiset difference, as a subsequence of the source. |
| Format.LostComments | crates/croniq-config/src/format.rs:20-46 | Although removals scramble the work list, the result is the multiset difference of the two comment lists, in source order. |
| Folds.LastDecides | crates/croniq-config/src/compile.rs:1981-2117 | A field that every element of a list sets outright or leaves alone holds what the last element to set it said. |
| Compile.CollectVars | crates/croniq-config/src/compile.rs:116-147 | The two passes compute the table of literals first and placeholders on top. |
| Compile.CollectGroups | crates/croniq-config/src/compile.rs:1634-1662 | The loop collects the specified groups. |
| Compile.CompileRetryBlock | crates/croniq-config/src/compile.rs:2355-2391 | The loop layers the block over the inherited value as specified. |
| Compile.CompileDeadLetterBlock | crates/croniq-config/src/compile.rs:2399-2426 | The loop layers the block over the inherited value as specified. |
| Compile.StampMetadata | crates/croniq-config/src/compile.rs:2177-2220 | The five stamps are written over the metadata, priority removed first. |
| Compile.CompileJob | crates/croniq-config/src/compile.rs:1931-2253 | The body loop, the option loop, the ephemeral overrides and the stamps compute the job that JobExact, JobRest, JobTags and JobPlacement describe. |
| Compile.ReadDefaults | crates/croniq-config/src/compile.rs:1325-1397 | The loop over a `defaults` block layers it over the defaults so far, as DefaultsExact describes. |
| Compile.CompileCalendar | crates/croniq-config/src/compile.rs:2443-2489 | The rule loop computes the calendar that CalendarExact describes. |
| Compile.Compile | crates/croniq-config/src/compile.rs:1209-1427 | The item loop, after the two collecting passes, computes the specified jobs, calendars and groups. |
| FieldLaws.QueueDecided | crates/croniq-config/src/compile.rs:2003-2059 | After any body, in any order, each queue setting is what the last readable directive for it said, else the inherited value. |
| FieldLaws.GuardsDecided | crates/croniq-config/src/compile.rs:2037-2069 | After any body each concurrency setting is what its last directive said; an unusable one clears it. |
| FieldLaws.MetadataDecided | crates/croniq-config/src/compile.rs:2080-2112 | Each metadata key holds what the last block to write it wrote, and no directive writes metadata. |
| CompileLaws.JobExact | crates/croniq-config/src/compile.rs:1945-2220 | The schedule fires exactly when the written one matches; calendar and both bounds are what the last schedule option of that name says; the timezone is the last valued schedule option, else the last valued directive, else the default; queue, guards and the value of every metadata key are given by what the source last said about them. |
| ScheduleLaws.CompiledFires | crates/croniq-config/src/schedule.rs:32-62 | At every instant a compiled schedule, read by its own hour, minute, days and ordinals, fires if and only if the written one matches. |
| ScheduleLaws.CompiledInterval | crates/croniq-config/src/schedule.rs:32-42 | An interval lasts the written count of seconds, of minutes of sixty seconds or of hours of sixty minutes, and nothing else compiles to an interval. |
| CompileLaws.JobTimes | crates/croniq-config/src/compile.rs:2120-2137 | A job keeps its key, fires as written and not at all without a schedule, and takes calendar, `not_before` and `not_after` from the last option of that name. |
| CompileLaws.JobRest | crates/croniq-config/src/compile.rs:1984-2098 | Description, window, timeout and `run_on_register` are what the body last said about them; retry and dead-letter blocks are layered over the inherited values in body order, whatever stands between them. |
| BodyWords.JobTags | crates/croniq-config/src/compile.rs:2070-2078 | The tags of a job are the first mentions of all the words its `tags` directives list, in order. |
| BodyWords.MentionsExact | crates/croniq-config/src/compile.rs:2070-2078 | First mentions are all the words but the empty one, each once. |
| BodyWords.JobPlacement | crates/croniq-config/src/compile.rs:2080-2098 | A job may run where its last plain `runner` block says, and anywhere without one. |
| BodyWords.PlacementExact | crates/croniq-config/src/compile.rs:2255-2284 | `require`, `prefer` and `exclude` list their non-empty arguments in order, and a job is sticky if and only if `sticky` is written. |
| BodyWords.PayloadExact | crates/croniq-config/src/compile.rs:2286-2340 | A `runner` block has a payload if and only if it is a `shell` block whose last `command` has a value or an `exec` block whose last `args` are not empty; the payload runs those, in the last `workdir`, as the last `user`, with the last value of each variable in its `env` blocks. |
| Words.TextWords | crates/croniq-config/src/compile.rs:1984-2002 | Description, timezone, timeout, window and `run_on_register` are said by the directives of these names and no others. |
| Words.ChoiceWords | crates/croniq-config/src/compile.rs:2003-2059 | A mode is said by `queued` or `ephemeral`, a catch-up by `all`, `latest` or `none`, a priority by `low`, `normal` or `high`; any other word says nothing. |
| Words.QueueWords | crates/croniq-config/src/compile.rs:2012-2036 | `queue_ttl` says a duration, `none` that there is no limit; `max_queue_depth` and `keep_last` say a readable number. |
| Words.GuardWords | crates/croniq-config/src/compile.rs:2037-2069 | `singleton` says one run at a time, `max_concurrent` its positive number and otherwise none, `concurrency_group` its name if the group is declared, `coalesce` that runs coalesce. |
| Words.RetryWords | crates/croniq-config/src/compile.rs:2355-2391 | What each directive of a `retry` block says about which retry field. |
| Words.DeadLetterWords | crates/croniq-config/src/compile.rs:2399-2426 | What each directive of a `dead_letter` block says about which field. |
| Words.DurationInWords | crates/croniq-config/src/compile.rs:81-110 | A number and the word for a unit compile to a text the runtime reads as exactly that many milliseconds; an unknown word is dropped. |
| Words.DurationAsWritten | crates/croniq-config/src/compile.rs:81-110 | Every other duration is passed on as written. |
| Words.TrimExact | crates/croniq-config/src/compile.rs:81-110 | Trimming takes the blanks off both ends, and nothing else. |
| CompileLaws.JobCoherent | crates/croniq-config/src/compile.rs:1945-2220 | For every body in every order: reserved keys are only the compiler's and agree with the typed fields, a stamped group is declared and carries its limit, and an ephemeral job keeps no guard, no history and one slot. |
| CompileLaws.RunnerStamp | crates/croniq-config/src/compile.rs:2081-2090 | The payload stamp is the text of the last `runner shell` or `runner exec` block that compiles, and absent if none does. |
| CompileLaws.RunnerStampExact | crates/croniq-config/src/compile.rs:2286-2340 | Two jobs carry the same payload stamp if and only if their last such blocks run the same thing. |
| CompileLaws.PrefixDecidesIff | crates/croniq-config/src/compile.rs:1962-2007 | The schedule prefix decides the mode if and only if the last readable `execution_mode` directive is absent or agrees. |
| CompileLaws.PrefixOverridden | crates/croniq-config/src/compile.rs:2003-2007 | An `ephemeral` schedule prefix with `execution_mode queued` compiles to a queued job. |
| FileLaws.LimitsExact | crates/croniq-config/src/compile.rs:1634-1662 | The limit of a name is the first usable limit any block of that name declares. |
| FileLaws.UsableLimitExact | crates/croniq-config/src/compile.rs:1634-1662 | A block declares a limit if and only if its first `max_concurrent` is a readable positive number: that number. |
| FileLaws.GroupsExact | crates/croniq-config/src/compile.rs:1634-1662 | The compiled groups have unique non-empty names and positive limits, and are exactly the names with a usable block, each with its first usable limit. |
| FileLaws.GroupMoveExact | crates/croniq-config/src/compile.rs:1239-1252 | Moving a group block over others keeps every limit if and only if it is unusable, already declared before, or the blocks crossed declare no other limit for its name. |
| FileLaws.GroupMoves | crates/croniq-config/src/compile.rs:1239-1252 | Such a move leaves every job, every calendar and the set of groups as they were. |
| FileLaws.LiteralMoveExact | crates/croniq-config/src/compile.rs:121-131 | Moving a variable block keeps every literal if and only if no name it sets gets another literal from the blocks crossed, unless a later block decides. |
| FileLaws.LiteralVarsMove | crates/croniq-config/src/compile.rs:116-147 | Such a move of a block of literals leaves the whole compiled file unchanged. |
| VarsLaws.PlaceholdersCommuteIff | crates/croniq-config/src/compile.rs:132-145 | Two placeholder variables may be set in either order, whatever the table holds, if and only if neither reads the other (an entry that reads only itself disturbs nobody) or, under one name, one reads that name, the texts are equal, or both come from outside and resolve alike. |
| VarsLaws.PlaceholderMoves | crates/croniq-config/src/compile.rs:112-147 | A block of one placeholder variable may move over any blocks whose placeholder variables it may be set in either order with: the variables and the whole compiled file stay as they were. |
| VarsLaws.PlaceholdersSwapIff | crates/croniq-config/src/compile.rs:112-147 | Any two neighbouring blocks of one placeholder variable each may be swapped in every file without changing what it compiles to if and only if the two variables may be set in either order. |
| VarsLaws.ChainedVarsDependOnOrder | crates/croniq-config/src/compile.rs:112-147 | With `C` a literal, `A` reading `B` and `B` reading `C`, the value of `A` depends on which of the last two blocks comes first. |
| VarsLaws.RepeatedVarDependsOnOrder | crates/croniq-config/src/compile.rs:112-147 | `A {env.X}` and `A {env.Y}` read no variable, and a job that shows `A` shows whichever comes second. |
| SwapLaws.DraftSwapIff | crates/croniq-config/src/compile.rs:1981-2117 | On any state of the job pass two directives give the same result in either order if and only if they set no field to two values and the tags after one continue the tags after the other. |
| SwapLaws.TagsSwapIff | crates/croniq-config/src/compile.rs:2070-2078 | Two tag lists can be read in either order if and only if the tags after one are a prefix of the tags after the other. |
| SwapLaws.DirectivesSwapIff | crates/croniq-config/src/fingerprint.rs:9-12 | Two neighbouring directives may change places in every job without changing the compiled job if and only if they set no field to two values and one lists the tags of the other first. |
| SwapLaws.DirectiveSwapsWithBlock | crates/croniq-config/src/compile.rs:1981-2117 | A directive and a block next to each other may change places in every job. |
| BlockLaws.BlocksSwap | crates/croniq-config/src/compile.rs:2080-2115 | Two neighbouring blocks of different kinds may change places in every job: a `metadata` block cannot touch the payload a `runner` block stamps. |
| BlockLaws.BlocksSwapIff | crates/croniq-config/src/compile.rs:2080-2115 | Any two neighbouring blocks may change places in every job without changing the compiled job if and only if the last values they give agree, field by field for `retry` and `dead_letter`, key by key for metadata, as a whole for placement and payload. |
| BlockLaws.NodesSwapIff | crates/croniq-config/src/compile.rs:1981-2117 | Exactly which two neighbouring nodes of a body may change places in every job: nodes of different sorts always, two directives and two blocks if and only if they leave nothing with two values. |
| FileLaws.DefaultsReachForward | crates/croniq-config/src/compile.rs:1325-1427 | A `defaults` block leaves groups, variables and all earlier jobs and calendars unchanged, and the later ones compile on top of it. |
| DefaultsLaws.DefaultsExact | crates/croniq-config/src/compile.rs:1325-1397 | After a `defaults` body every field is what the body last said about it, else what was inherited; retry and dead-letter blocks are layered in order. |
| DefaultsLaws.JobInFile | crates/croniq-config/src/compile.rs:1209-1427 | Every job of a file is compiled at its place among the jobs, with the defaults of the blocks before it. |
| DefaultsLaws.CalendarInFile | crates/croniq-config/src/compile.rs:1209-1427 | Every calendar is compiled at its place, with the zone of the `defaults` blocks before it. |
| DefaultsLaws.FileSettings | crates/croniq-config/src/compile.rs:1209-1427 | Each setting of each job of a file is what its own body last said, else what the preceding `defaults` blocks last said, else the initial value: queued, catch up on everything, normal priority, three exponential attempts from two to thirty seconds with a quarter of jitter, dead letters kept for thirty days. |
| FileLaws.CalendarExact | crates/croniq-config/src/compile.rs:2443-2489 | A calendar has its name as written, the zone its last `timezone` rule gives or else the default, and its other rules in order; a placeholder argument appears resolved if the resolved rule is valid and as its own text in braces otherwise, a literal as written. |
| FileLaws.FileCoherent | crates/croniq-config/src/compile.rs:1209-1427 | Every job of every compiled file is coherent, and a stamped group is one of the compiled groups with its limit. |
| FileLaws.RetryLayers | crates/croniq-config/src/compile.rs:2355-2391 | Each retry field is what the block last said, else inherited; an unreadable count keeps the inherited one; the strategy is the qualifier if that is `exponential`, `linear`, `fixed` or `none`, else inherited. |
| FileLaws.DeadLetterLayers | crates/croniq-config/src/compile.rs:2399-2426 | Each dead-letter field is what the block last said, else inherited; an unreadable flag keeps the inherited one. |

## Left out

- HTTP and JSON transport, wall-clock timers, jitter, logging and tracing of the Go SDK: replies are arbitrary and timers are steps that may occur at any time.
- The lease-renewal goroutine, the handler's own result and the inline ack of a refused assignment: an assignment is only marked as safe to dispatch or not.
- The first-error paths of `Run` before its loop starts (base URL check, schedule registration).
- SHA-256: the claims are about the text that is hashed.
- Number formatting of floats: a float is carried as its printed text, which must be a JSON number with a fraction or an exponent.
- JSON reading in the fingerprint: any reader of text into valid values, which where it matters reads what the serialiser writes, as the reader of RFC 8259 does. How a float is rounded is left open; payloads have no numbers.
- The range of years and leap seconds of the date library; parsing of instants.
- Cron step and interval patterns and `@` macros, which warn or map to intervals. A line that warns is not compared with cron by its instants; `WarnedFieldsDropped` says what it converts to.
- Lexing and parsing of Croniqfiles beyond schedule lines of fixed times and quoted strings, and full format-then-parse round trips.
- Server, alert, SMTP, OIDC, policy and observability blocks of the compiler, and diagnostics: easy field copies. Whether the arguments of a calendar rule are valid is an arbitrary predicate.
- Compile.CompileJob: the loops inside `runner`, `metadata` and `tags` blocks are folds rather than loops, and durations are trimmed of ASCII blanks only.
- Rehash.RehashIff: which swaps of two blocks keep the hashed text is not stated separately; the compiled job decides it through `NodesSwapIff` and `CompiledHashExact`.
- Jitter values of retry blocks: an arbitrary float reader gives the printed text of a finite number or the name of one that is not.
- JobHash.HashExact: the namespace, name, variant and summary of a job are arbitrary texts, and the serialised entries come in one fixed order; none of them shows in the hash.
- The server's claim path, queue, retry pipeline and scheduler, authentication, the command line, the site and the UI.
