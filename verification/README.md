# pprof-rs: sample collection, reports and the profiler protocol

pprof-rs samples a program's stacks from a SIGPROF handler. The handler may not allocate, so samples go into a fixed
4-way associative counter whose overflow is spilled to a file in whole blocks; reports group what the counter and the
file hold; and one spin lock, taken by the handler only if it is free, keeps all of this apart from the running
program. This project models those parts and proves that every accepted sample is counted exactly once, from the
handler to the exported profile.

| file | what it models |
|---|---|
| entries.dfy | counted entries and sums over selections of keys |
| bucket.dfy | `Bucket`, `BucketIterator`: in-place update, eviction of the first minimum |
| hash_counter.dfy | `HashCounter`: the row of buckets |
| spill_log.dfy | `TempFdArray`, `TempFdArrayIterator`: the buffer, the file, torn writes |
| collector.dfy | `Collector`, and every run of `add` |
| frames.dfy | `UnresolvedFrames`, `Symbol`, `Frames`: equality, hashing, the handler-frame filter |
| report.dfy | `ReportBuilder`: the two group-bys |
| numerals.dfy, thread_name.dfy | decimal text, the thread-name fallback, and the name read from its array |
| flamegraph.dfy | folded-stack lines |
| pprof.dfy | the tables of profile.proto and a reader for them |
| frame_pointer.dfy | the frame-pointer walk with the handler's callback |
| profiler.dfy | `Profiler` and SIGPROF's disposition |
| protocol.dfy | guards, reports, the lock and the signal handler as a system of steps |
| pigeonhole.dfy | counting arguments over sets of numbers |
| end_to_end.dfy | from accepted samples to the exported profile |

Conventions. Rust's `Eq` on a key type is an equivalence; the model names its classes by a function `id`, and
`SameStackIff` and `SameFramesIff` prove that the two hand-written or derived equalities are equality of the `id` used
for them. The hash is any function that respects equality; bucket count, buffer length, entry size and maximal depth
are any positive numbers. The answers of the file system (`Write`, `reopen`), of sigaction and of `Collector::new` are
inputs. The iteration order of a hash map or set is any order. Symbol resolution, lossy decoding and demangling are
fixed functions. Where a class changes its fields in place, its methods are proved against a function of the old state,
and the results below are about that function, over all runs.

Where the code and its documentation part ways, the model follows the code:

- The README's to-do list still asks to restore the original SIGPROF handler after stopping; `stop` does restore it
  (src/profiler.rs:507-512), and `Protocol.LifecycleHolds` and `Protocol.DropUndoesBuild` prove it.
- `profile.proto` speaks of one location per address; the encoder makes one per demangled name. Names always read
  back; system name, file and line do for the whole profile if and only if symbols of one name agree on them
  (`Pprof.AllReadsBackIff`), and `Pprof.SecondLineIsLost` is a report for which they do not.
- A failed `stop` leaves `running` set with no guard left, so guard, flag and handler coincide exactly as long as no
  `stop` has failed (`Protocol.LifecycleHolds`, `Protocol.StopCanFail`, `Protocol.BrokenForGood`).
- Stack equality ignores the time, the thread's name and the instruction at which a frame stopped; the report shows
  the first two, and the third where inlined calls make the names of a frame depend on it
  (`Frames.EqualStacksRenderAlikeIff`, `Frames.InliningTellsApart`). As long as a stack stays in the table its samples
  are one entry, and the report is the image of the unresolved report (`Reports.NoneReturnsIsImage`,
  `Reports.UnspilledIsImage`). A stack that is evicted and comes back is read more than once
  (`Collectors.ReadOnceIff`); if its entries do not show the same, one key of the unresolved report is several keys of
  the report. `EndToEnd.StackStaysWholeIff` says exactly when, for any resolver; `EndToEnd.DefaultReportIsNoImage`
  finds such samples for every table and every hash. Where equal stacks show the same names, all samples are still
  counted under their own (`EndToEnd.DefaultCountsNames`).
  Samples merged in the table show what the one that was let in shows (`Collectors.ReadFromAdmittingCall`): in a run
  in which none comes back that is the first of its class (`Reports.FirstIsShown`), and where unequal stacks render
  differently each sample's own rendering is in the report exactly if equal stacks render alike
  (`Reports.AllShownIff`).
- The thread-name fallback yields the thread's number exactly for positive numbers below 10^15 that are no powers of
  ten (`ThreadNames.FallbackIsNumeral`). Above 10^15 it fills the array and leaves no terminator, so the handler
  reads on past the array (`ThreadNames.FallbackTerminated`, `ThreadNames.FallbackOverruns`); a name that gets longer
  than sixteen bytes that way makes `UnresolvedFrames::new` panic (`Frames.NewUnresolvedFrames`).
- `init` resets the counter before it creates the next collector. If that fails while the collector holds samples, the
  counter is behind the collector that stays in place, for good; it is in step in exactly the other runs
  (`Protocol.CounterIsAccepted`, `Protocol.CounterFallsBehind`).

## Model

| member | source | states |
|---|---|---|
| Buckets.Bucket.Add | src/collector.rs:48-81 | in place: raise the count of the equal key, or append, or replace the first entry of minimum count and give it back |
| Buckets.FirstMin | src/collector.rs:67-75 | the victim's position: minimum count, and no earlier position has it |
| Buckets.BucketAddPlaces | src/collector.rs:48-81 | position by position: a resident equal to the key keeps its item and gets the count; a new entry goes to the end, or to the first minimum's place; nothing else changes |
| Buckets.BucketAddConserves | src/collector.rs:48-81 | for every selection of key classes, what stays plus what leaves is what was there plus what came |
| Buckets.BucketAddHolds | src/collector.rs:48-81 | afterwards a key class is resident if and only if it is the added one, or was resident and not evicted |
| Buckets.EvictedIsLight | src/collector.rs:66-80 | the victim is a first minimum, and four times its count is at most the weight resident before |
| Buckets.BucketIterator.Next | src/collector.rs:99-106 | yields the next live entry, or None at the length |
| Buckets.BucketIterator.Drain | src/collector.rs:96-107 | the iterator ends and has yielded the contents in order |
| HashCounters.HashCounter.Add | src/collector.rs:130-135 | the bucket the hash selects takes the entry; every other bucket is unchanged |
| HashCounters.HashCounter.Entries | src/collector.rs:137-145 | iteration is the buckets' contents, bucket after bucket |
| HashCounters.FlattenDistinct | src/collector.rs:137-145 | iteration over the table meets no key class twice, given that equal keys hash equally |
| HashCounters.FlattenInOrder | src/collector.rs:137-145 | entry j of bucket i is yielded after all entries of the buckets before it and the j entries before it in its own |
| HashCounters.FlattenMember | src/collector.rs:137-145 | iteration meets exactly the residents |
| SpillLogs.TempFdArray.FlushBuffer | src/collector.rs:173-185 | the whole buffer, or a proper prefix of its image on an error, is appended; index and flush count move either way |
| SpillLogs.TempFdArray.Push | src/collector.rs:187-196 | a full buffer is flushed first; an error drops the entry |
| SpillLogs.TempFdArray.TryIter | src/collector.rs:198-216 | an error when the file is shorter than the flushed blocks, else an iterator over live buffer and blocks |
| SpillLogs.LogIterator.Next | src/collector.rs:225-243 | the buffer's entries, then the file's, then None |
| SpillLogs.LogIterator.Drain | src/collector.rs:225-243 | the iterator ends and has yielded everything in order |
| SpillLogs.EncodeWhole | src/collector.rs:175-182 | in the image of a sequence of entries each entry lies in one piece at its place |
| SpillLogs.DecodeEncode | src/collector.rs:233-238 | reading the image at entry boundaries gives the sequence back |
| SpillLogs.PushAppends | src/collector.rs:173-196 | a successful push appends to the sequence the log stands for |
| SpillLogs.WrittenMeaning | src/collector.rs:173-185 | a complete write leaves the whole image, a torn one the part written before the error, never all of it |
| SpillLogs.FailedPush | src/collector.rs:173-196 | a push fails exactly when the buffer is full and the write torn; then the buffer counts as flushed, the file has less than a block more, and the entry is gone |
| SpillLogs.PushesAccounted | src/collector.rs:173-196 | after n successful pushes flushes * block + index = n, and the file has exactly the flushed blocks |
| SpillLogs.TryIterYieldsPushes | src/collector.rs:198-243 | the iterator yields buffer then file: each push once, no stale buffer place |
| SpillLogs.FileHoldsPushes | src/collector.rs:228-243 | entry k of the file is the k-th push, whole and aligned |
| SpillLogs.PushShort | src/collector.rs:173-196 | a log is too short after a push if and only if it was before or the push failed |
| Collectors.Collector.Add | src/collector.rs:261-267 | an evicted entry is pushed to the log, and its error is the result |
| Collectors.Collector.TryIter | src/collector.rs:269-271 | the table, then the log; an error if the log cannot be read |
| Collectors.ThenKeeps | src/collector.rs:261-267 | one call keeps the run invariant, and no bucket shrinks |
| Collectors.RunKeeps | src/collector.rs:261-267 | after every run: placement, no duplicates, and the log stands for the evicted entries or its file is too short |
| Collectors.RunConserves | src/collector.rs:48-145 | residents and evicted entries together hold, class by class, what was added |
| Collectors.StreamIsExact | src/collector.rs:261-271 | reading succeeds if and only if no call failed, and then sums, for every selection of key classes, to what was added |
| Collectors.StreamPositive | src/collector.rs:261-271 | positive counts stay positive, and no more entries are yielded than calls made |
| Collectors.StreamItemsAreBrought | src/collector.rs:261-271 | every entry read carries a key some call brought, in all its fields |
| Collectors.FailureIsContained | src/collector.rs:173-216 | once a call has failed the file stays too short through every later call, and reading fails |
| Collectors.ResidentsAreUnique | src/collector.rs:48-145 | over every run: four per bucket at most, each key in the bucket its hash selects, unequal keys across the table |
| Collectors.SpilledIsLight | src/collector.rs:66-80 | over runs of positive counts, no spilled entry holds more than a quarter of the weight ever routed to its bucket |
| Collectors.InstallsAccounted | src/collector.rs:48-81 | per bucket, installs = length + evictions |
| Collectors.NeverSpillsIff | src/collector.rs:48-81 | a run spills nothing if and only if no bucket ever had more than four key classes routed to it |
| Collectors.UnspilledIsExactMap | src/collector.rs:48-145 | such a run keeps one resident per key class, with the class's whole count |
| Collectors.AdmissionsAccounted | src/collector.rs:48-81 | per key class: times let into the table = resident or not + times evicted |
| Collectors.ReadAsOftenAsAdmitted | src/collector.rs:261-271 | without a failed call, a stack is read once for every time it was let into the table |
| Collectors.ReadOnceIff | src/collector.rs:261-271 | no key class is read twice if and only if none was evicted and came back |
| Collectors.ReadItemsAreAdmitted | src/collector.rs:48-81 | over every run without a failed call, for every selection of keys by all their fields: as many entries read as calls let into the table |
| Collectors.ReadFromAdmittingCall | src/collector.rs:48-81 | every entry read carries in all its fields the key of a call that found no equal one resident: merging keeps the key that is there |
| Collectors.ReadFromFirstCall | src/collector.rs:48-81 | where no key came back, that is the first call of its class |
| Collectors.ReturningKeyIsReadTwice | src/collector.rs:66-81 | five unequal keys of one bucket, then the first again: both its entries are read, each with the fields of its own call |
| Frames.NewUnresolvedFrames | src/frames.rs:63-80 | the name's bytes, zeros after them, its length, and the other fields as given; no value, where the source panics, exactly for a name of more than 16 bytes |
| Frames.SameStackIff | src/frames.rs:83-95 | the hand-written equality is an equivalence: equality of thread id and symbol addresses |
| Frames.StackKeysLawful | src/frames.rs:97-104 | equal stacks hash equally under every hasher |
| Frames.HashSeesWhatEqSees | src/frames.rs:83-104 | a hasher is fed each symbol address in order and then the thread id; two stacks feed it the same words if and only if they are equal |
| Frames.SameFramesIff | src/frames.rs:170-190 | the derived equality compares raw names, thread name, thread id and time |
| Frames.FromUnresolved | src/frames.rs:203-245 | the loop keeps exactly the frames at the kept positions; the thread's name is decoded from the bytes up to its length; number and time are copied |
| Frames.ThreadSurvives | src/frames.rs:239-242 | name, number and time given when the raw stack was made are those the symbolized stack shows |
| Frames.PerfMapWins | src/frames.rs:211-218 | a frame the perf map knows resolves to that one symbol; another to what the unwinder says |
| Frames.StackSymbolsInOrder | src/frames.rs:203-245 | symbol j of frame i comes after all symbols of the frames below it |
| Frames.FilterMeaning | src/frames.rs:209-236 | order-preserving; keeps exactly the frames in which no symbol has one of the handler's two names, that are not empty, and that an even number of handler frames directly precedes |
| Frames.FilterIdempotent | src/frames.rs:209-236 | filtering the result again changes nothing |
| Frames.EqualStacksRenderAlikeIff | src/frames.rs:184-245 | for any resolver: equal raw stacks are equal once symbolized if and only if their filtered frames show the same raw names, and decoded thread names and times agree |
| Frames.EqualStacksShowEqualNames | src/frames.rs:83-95 | they show the same names where a frame's names depend on its function alone, whatever lines and addresses do |
| Frames.InliningTellsApart | src/frames.rs:83-95 | two equal stacks of one name and time that symbolize differently, because an inlined call shows as one more symbol |
| Reports.Tabulate | src/report.rs:72-90 | the loop computes the group-by of the entries with positive counts |
| Reports.TalliedMeaning | src/report.rs:74-88 | a class is a key if and only if an entry has it; its count is the sum over the class; its key is of the class |
| Reports.TalliedKeepsFirst | src/report.rs:80-87 | the key kept for a class is that of its first entry |
| Reports.PositiveExactly | src/report.rs:73-75 | the builders see exactly the entries with a positive count |
| Reports.TallyConserves | src/report.rs:110-132 | in any iteration order, each selection of key classes sums to what the entries held for it |
| Reports.UnresolvedReportIsExact | src/report.rs:63-98 | after any run with positive counts and no failed call: exactly the map of counts, no key missing, none extra |
| Reports.ReportIsExact | src/report.rs:101-140 | the same for the report, when the brought keys of one class render alike: d is a key if and only if a brought key renders to it, and counts what was asked for those |
| Reports.ReportSumIsExact | src/report.rs:101-140 | for any selection of the report's keys that equal brought keys render into or out of together: exactly what was asked for what renders there |
| Reports.AllShownIff | src/report.rs:101-140 | over runs in which no key came back, where unequal brought keys render differently: the rendering of every brought key is a key of the report if and only if equal brought keys render alike |
| Reports.FirstIsShown | src/report.rs:101-140 | over such runs every key of the report is the rendering, in all its fields, of the first brought key of some class |
| Reports.FirstIsKept | src/report.rs:63-98 | over such runs every key of the unresolved report is the first brought key of its class |
| Reports.TotalsAgree | src/report.rs:63-140 | both reports hold the same total, whatever rendering and post-processor do |
| Reports.ReportIsImage | src/report.rs:101-140 | if the entries read of equal stacks render equally, the report is the image of the unresolved report with colliding counts summed |
| Reports.ImageIff | src/report.rs:101-140 | where unequal stacks render differently, it is the image if and only if the entries read of equal stacks render equally |
| Reports.SplitIff | src/report.rs:101-140 | a key's count is found whole under one key of the report if and only if the entries read of it render equally |
| Reports.NoneReturnsIsImage | src/report.rs:101-140 | over runs: if no stack was evicted and came back, the report is the image under every rendering |
| Reports.UnspilledIsImage | src/report.rs:101-140 | over runs: the same if no bucket had more than four key classes routed to it |
| Reports.SplitKey | src/report.rs:101-140 | two entries of one class that render differently are one key of the unresolved report, two of the report, and no key of the report has the whole count |
| Reports.ReportBuilder.BuildUnresolved | src/report.rs:63-98 | the unresolved report, or the error of a profiler that could not be made or a log that cannot be read |
| Reports.ReportBuilder.Build | src/report.rs:101-140 | the error, or: with a post-processor f, d is a key exactly if an entry of positive count has f of its rendering there, its count is the sum over those and its key one of them; without one, the same of the rendering |
| ThreadNames.WriteThreadNameFallback | src/profiler.rs:223-246 | writes min(16, ceil(log10 t)) digits whose numeral value is t mod 10^len, and nothing else |
| ThreadNames.FallbackLength | src/profiler.rs:227-230 | the least len with t <= 10^len, but 16 at most |
| ThreadNames.FallbackReadsBack | src/profiler.rs:223-246 | the digits written are worth t if and only if t < 10^16 and t is not a power of ten; for 0 no digit is written |
| ThreadNames.FallbackTerminated | src/profiler.rs:223-246 | the array still holds a terminator if and only if t <= 10^15, and the name is the digits before it |
| ThreadNames.FallbackIsNumeral | src/profiler.rs:406-412 | the name read is the decimal numeral of t if and only if 0 < t < 10^15 and t is not a power of ten |
| ThreadNames.FallbackName | src/profiler.rs:406-412 | a zeroed array, the fallback, and the C string read from it: a name inside the array exactly for t <= 10^15, and the numeral of t exactly under the condition above |
| ThreadNames.FallbackOverruns | src/profiler.rs:406-412 | at t = 10^15 + 1 the read goes on past the array, and any further byte makes the name too long |
| ThreadNames.FallbackHasNoLeadingZero | src/profiler.rs:223-246 | a text that reads back has no leading zero |
| Flamegraphs.Line | src/report.rs:187-201 | thread and reversed symbol names joined by ';', a space, the count; also without frames |
| Flamegraphs.LineShowsThread | src/report.rs:187-201 | a line reads back the thread's name if it has one without ';', its number if it has none, and always the count, whatever the frames are called |
| Flamegraphs.LineReadsBack | src/report.rs:187-201 | splitting at the last space and on ';' gives back thread, stack and count if and only if no label contains ';' |
| Pprof.CollectStrings | src/report.rs:231-246 | the set holds all strings of the report and the five fixed ones, and nothing else |
| Pprof.StringTable | src/report.rs:247-249 | the table is the empty string and then each string of the set exactly once, nothing else |
| Pprof.StringIndex | src/report.rs:251-254 | every string of the table has an index at which it stands |
| Pprof.Intern | src/report.rs:264-295 | one function and one location per demangled name, numbered on, describing the first symbol of that name |
| Pprof.EncodeSample | src/report.rs:260-313 | location ids stand for the stack's names in order; label and values are the entry's |
| Pprof.Encode | src/report.rs:230-342 | string 0 is empty; ids are 1..n, location i at function i; every sample reads back to its stack's names, thread and values |
| Pprof.ReadDescribed | proto/profile.proto:30-34 | looking ids up by search, as the format asks, finds what the tables describe |
| Pprof.AllReadsBackIff | src/report.rs:264-294 | reading an encoded profile gives name, system name, file and line of every frame of every stack if and only if symbols of one demangled name agree in the report |
| Pprof.SecondLineIsLost | src/report.rs:264-294 | in the profile of a stack with one name at lines 1 and 2 the second reads as line 1 |
| Pprof.SampleShows | src/report.rs:260-313 | a sample shows the names and the thread of every stack equal to its key |
| Pprof.LabelShowsThread | src/report.rs:296-300 | each sample's label is "thread" and the thread's name or, where that is empty, its number |
| Pprof.FieldsReadBack | src/frames.rs:123-145 | where names decide, the location of symbol j of frame i says the symbol's demangled and raw name, file and line, with "Unknown" and 0 for missing ones |
| Pprof.TruncDivMeaning | src/report.rs:305-308 | the division rounds toward zero, also for negative operands |
| Pprof.ValueBounds | src/report.rs:305-308 | count * period <= value[1] < count * (period + 1), and value[1] is the time rounded down |
| Pprof.SumValuesBounds | src/report.rs:305-308 | the summed time is at most total * 10^9 / f and falls short by less than the number of samples |
| Pprof.NoOverflow | src/report.rs:305-308 | while the total fits an i32 no product leaves an i64 |
| FramePointers.IsBlocklisted | src/profiler.rs:444-451 | true if and only if the address is strictly inside a segment |
| FramePointers.Recorder.OnFrame | src/profiler.rs:387-403 | refuses a blocklisted frame or one beyond the depth, else records it |
| FramePointers.Trace | src/backtrace/frame_pointer.rs:57-129 | on any memory: ends after depth + 1 callbacks at most, visits validated non-decreasing addresses each read from the one before, records the return address found at each, and stops short of the depth only at an invalid, lower or blocklisted link |
| FramePointers.SelfLoop | src/backtrace/frame_pointer.rs:110-127 | on a self-loop the address checks never stop the walk; the callback records the full depth |
| Profilers.ProfilerObject.RegisterSignalHandler | src/profiler.rs:487-505 | installs the handler and saves the old action, or changes nothing |
| Profilers.ProfilerObject.UnregisterSignalHandler | src/profiler.rs:507-512 | takes the saved action and puts it back; taken even if that fails |
| Profilers.ProfilerObject.Start | src/profiler.rs:455-465 | Running when running, NixError when sigaction fails, nothing changed by either; else handler installed, old action saved, flag set |
| Profilers.ProfilerObject.Stop | src/profiler.rs:475-485 | NotRunning when stopped; else the saved action is put back and init runs, with the error of the one that fails |
| Profilers.ProfilerObject.Init | src/profiler.rs:467-473 | counter to zero, then a new collector and the flag down; on an error the flag stays up |
| Profilers.ProfilerObject.Sample | src/profiler.rs:515-526 | one more in the counter, one count into the collector, whose error is ignored |
| Protocol.LockStep | src/profiler.rs:146-221 | every step of every thread keeps lock and critical sections in agreement, and leaves other threads' holds alone |
| Protocol.HandsStep | src/profiler.rs:183-221 | every step keeps guards unique: a guard is in one pair of hands |
| Protocol.LifecycleStep | src/profiler.rs:455-512 | every step keeps guard, flag, saved action and disposition in the relation their stage demands |
| Protocol.ArmedStep | src/profiler.rs:146-221 | every step keeps: while the timer is armed a guard is live, the handler is installed, and no thread is past dropping a timer |
| Protocol.SampleStep | src/profiler.rs:515-526 | every step keeps the collector equal to a run of the accepted samples, and the counter equal to their number less those it was made to forget |
| Protocol.InvKept | src/profiler.rs:146-526 | the invariant holds after every sequence of steps |
| Protocol.OnlyHolderMutates | src/profiler.rs:149-221 | a step that changes the profiler is the write holder's, and nothing changes it while somebody reads |
| Protocol.ReportReadsOneState | src/report.rs:63-72 | while a thread holds the lock for a report, no sequence of steps of others, handlers included, changes profiler or collector |
| Protocol.ReportAlone | src/report.rs:63-104 | from a free lock, `build` takes the write lock and `build_unresolved` the read lock, gives it back, and leaves everything as it was |
| Protocol.SharedReportsMeet | src/report.rs:63-72 | two unresolved reports hold the lock at once |
| Protocol.ReportEntersIff | src/report.rs:63-104 | a waiting report can go in if and only if nobody holds the lock or, for an unresolved one, only readers do |
| Protocol.ExclusiveReportsExclude | src/report.rs:101-104 | while one thread is in `build` no other is in a report or can go into one |
| Protocol.HandlerNeverWaits | src/profiler.rs:317-325 | a handler always can go on; finding the lock taken, it is gone after two steps with nothing changed |
| Protocol.HandlerSamplesOnce | src/profiler.rs:324-413 | finding the lock free it takes one sample and frees the lock, running or not |
| Protocol.HandlerSkips | src/profiler.rs:324-413 | without a sample or without a profiler the handler takes and frees the lock, and nothing else happens |
| Protocol.HolderReleases | src/profiler.rs:317-415 | whoever holds the lock, interrupted by the handler or not, can release it by at most six steps of its own |
| Protocol.LifecycleHolds | src/profiler.rs:455-512 | over every run never two live guards; in quiescent states guard, flag and handler coincide if and only if no sigaction and no collector creation of a stop() was answered with an error |
| Protocol.TimerMeetsHandler | src/profiler.rs:209-221 | over every run: while the timer is armed, SIGPROF has the profiler's handler and a guard is live |
| Protocol.SamplesNeedAStart | src/profiler.rs:455-505 | a run in which no start succeeds never touches SIGPROF, runs no handler and takes no sample |
| Protocol.UncreatedDoesNothing | src/profiler.rs:146-221 | with a profiler that could not be created, no run changes profiler or SIGPROF, makes a guard or takes a sample |
| Protocol.BrokenIff | src/profiler.rs:475-512 | the state remembers a failed stop exactly when some event carried an error answer at one of stop's two system calls |
| Protocol.CounterIsAccepted | src/profiler.rs:467-473 | over every run: the collector is the run of the accepted samples; the counter is their number if and only if no collector failed to be created while samples were held, and below it otherwise |
| Protocol.CounterFallsBehind | src/profiler.rs:467-473 | build, one sample, and a drop that cannot create a collector: the counter is 0 and the collector holds the sample |
| Protocol.BrokenForGood | src/profiler.rs:475-485 | after a failed stop the flag stays up, quiescent states have no guard, and no guard is made again |
| Protocol.SecondBuildRefused | src/profiler.rs:146-179 | a second build changes nothing but the settings written before start could fail |
| Protocol.BuildAlone | src/profiler.rs:146-179 | an undisturbed build of a stopped profiler runs through to a guard, a saved action and the handler |
| Protocol.DropAlone | src/profiler.rs:209-221 | an undisturbed drop does exactly what stop does, disarms the timer and ends the guard |
| Protocol.DropUndoesBuild | src/profiler.rs:455-512 | from a stopped state, build then drop restore disposition, saved action, flag and guards, and leave an empty collector |
| Protocol.StopCanFail | src/profiler.rs:475-485 | from a stopped state, build then drop with either system call of stop failing: flag up, no guard, lock free, timer off; the handler stays if it was sigaction that failed |
| EndToEnd.StackReportIsExact | src/report.rs:63-98 | in every reachable state without a failed write, a stack is a key if and only if an equal one was accepted, and its count is how often |
| EndToEnd.ErasedAlikeIff | src/report.rs:101-140 | with a post-processor that erases name and time, equal stacks render alike if and only if they show the same names |
| EndToEnd.ErasedReportIsImage | src/report.rs:101-140 | with that post-processor, and equal stacks among the entries read showing the same names, the report is the image of the unresolved report |
| EndToEnd.BuildErased | src/report.rs:101-140 | a builder with that post-processor set builds just that report |
| EndToEnd.StackStaysWholeIff | src/report.rs:101-140 | without a post-processor, for any resolver: a stack's count is whole under one key if and only if the entries read of it show the same names, one thread name and one time |
| EndToEnd.ReturningStackSplits | src/collector.rs:66-81 | in any bucket: five unequal stacks, then the first at another time; one key of the unresolved report, one per time of the report, none with the whole count |
| EndToEnd.DefaultReportIsNoImage | src/report.rs:101-140 | for every number of buckets and every hash there are six samples after which the report is not the image of the unresolved report |
| EndToEnd.DefaultReportIsImage | src/report.rs:101-140 | in every reachable state in which no write failed and no stack was evicted and came back, it is |
| EndToEnd.ReportKeysAreAccepted | src/report.rs:110-116 | every key of a report is, in all its fields, the rendering of one accepted sample |
| EndToEnd.Export | src/report.rs:230-342 | one sample per report entry, carrying its count and time and reading back as its stack and thread |
| EndToEnd.ProfileConserves | src/profiler.rs:515-526 | in every reachable state whose collector can be read: accepted samples = sum of value[0], the time bounds and the i64 bound follow, and the sum is sample_counter if and only if no collector failed to be created while samples were held |
| EndToEnd.ProfileIsExact | src/report.rs:230-342 | in every such state, where equal accepted stacks render alike: every accepted sample has exactly one sample of the profile, which shows its names and thread and counts the accepted samples of that rendering |
| EndToEnd.DefaultCountsNames | src/report.rs:101-140 | without a post-processor: the report's keys showing given names for a thread count together exactly the samples that show them |

## Left out

- Counts are unbounded integers: isize overflow of a count and the i32 limit of `sample_counter` are not modelled; `Pprof.NoOverflow` covers the i64 products below that limit.
- Collectors.StreamIsExact: the temporary file's creation and the reading handle are answers given as inputs; bytes of an entry are numbered units, not memory layout and alignment.
- Reports.UnresolvedReportIsExact: asks for positive counts, because the builders skip every entry whose count is not positive; the profiler only ever adds 1 (src/profiler.rs:525).
- Reports.ReportBuilder.Build: post-processors are functions of the frames; one that calls the profiler again is not modelled. Taking the lock around a report is part of the protocol module only.
- Protocol.LockStep: taking or trying the spin lock is one step, so a reader's passing claim that makes another thread's try fail is not modelled; a try then only drops its sample, and the model allows a handler step without a sample anyway.
- Protocol.LifecycleHolds: other code that changes SIGPROF's disposition is excluded. Start and init change lock-protected fields in one step each, which no other thread can tell apart.
- Protocol.HandlerSamplesOnce: the backtrace taken under the lock is an input to the step; the walk itself is in frame_pointer.dfy.
- Reports may be built by any thread at any time in the protocol, also without a guard; the source allows this only while a guard is borrowed.
- A frequency of zero panics in the timer before it can reach the exporter, while the write lock is held; panics are not modelled.
- FramePointers.Trace: memory and the address check are fixed during one walk; reading registers from the ucontext, raw reads and the pipe behind `validate` are system calls and unsafe code.
- setitimer, clocks and errno: only an armed flag is kept.
- The unwinders of framehop and backtrace-rs, shared libraries, perf maps and demangling are fixed functions.
- protobuf and prost encoding, SVG rendering, the criterion adapter, build script, examples and benches are plumbing.
- `Debug` output of reports, and the profile's own start time and duration, which are copied from the timer.
- ThreadNames.FallbackOverruns: what lies in memory beyond the name array is any characters; pthread_getname_np, whose failure leads to the fallback, is not modelled.
