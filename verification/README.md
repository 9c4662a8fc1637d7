# Encarno, verified

Encarno is a load generator. This project models its four hardest parts and proves what they are
relied on for:

1. **Load schedules.** The open generator sums intervals `1/(k*sqrt(2n/k))`, truncated to
   nanoseconds, into request offsets; the closed generator turns levels into worker start offsets;
   Taurus feeds both. Proved: a two-sided accuracy bound for ramps, exactly when the open generator
   ends, for every scenario and every open load, and from which level on a ramp never does, the
   reference form of stepped schedules, exactly when the generator panics, and that the closed schedule
   follows its profile at every nanosecond.
2. **Results.** Strings are interned into an index and a file, 74-byte records go through a buffer
   into a second file, and another process tails both. Proved: a record codec, the index under any
   number of threads, and a step system of writer and reader, which grow and search the strings file at
   the same time: no record is ever visible before its strings, and every item is read exactly once, as
   itself, up to the first that cannot be described; exactly when all of them have their right rows
   in the end; and that from every moment of every run that end can be reached.
3. **Input.** Payload records are framed by the Taurus side and found again by the Go side, with
   their metadata literal or by number; expressions go through a cache that all readers and workers
   share. Proved for every order in which records can be decoded, sent and have their variables
   replaced: exactly when a request means the same in both encodings, and exactly when a variable is
   replaced by its own pattern; exactly which records are found, whatever their payload bytes; exactly
   when the reader gives up.
4. **Workers and connections.** Step systems of a dispatcher and any number of workers, and of a
   connection pool. Proved for all interleavings: the counters, the hand-over of offsets, what becomes of
   each of them, exactly when the dispatcher can be left waiting for ever and when every run can be
   brought to its end, ownership, capacity and reuse of connections, exactly when a return can block, and
   exactly when a worker can search a response that is not its own.

Beside these stand the request text (built, parsed again, content length), the recording of a
connection, and the error text of failed assertions.

## How it is modelled

- Loops over mutable variables are methods with loops, proved equal to a specification function;
  objects are classes with their fields. Concurrent code is a deterministic step function `Do(state,
  event)` in which an event that is not enabled changes nothing; a run is any list of events, so a
  statement about every list is a statement about every interleaving.
- Floating-point numbers are reals, and the square root is a parameter with the hypothesis
  `IsSqrt`. Truncation to nanoseconds, Python's rounding, 16-bit numbers, 64-bit parsing and the
  4096-byte buffers are explicit.
- Clocks, the network, JSON, regular expressions and the phrases of HTTP statuses are parameters or
  events. The sources are cited by path and line in the table below.

## What was found

- An open load ramped up in steps never ends when its first step rounds to level zero, that is, when
  twice the throughput is at most the number of steps; nor does one with a ramp written as zero
  seconds, or one whose intervals are cut to zero nanoseconds before the ramp is over. These and
  levels above 10^9 a second are the only ones (`LoadTranslation.OpenLoadEndsIff`,
  `LoadTranslation.TenStepsToOneNeverEnd`). A rising step, entered after any number of requests, is left
  if and only if the whole nanoseconds of its further intervals add up to more than its duration; one
  that falls never is (`OpenTermination.ScenarioEndsIff`). For a ramp from zero that sum is made of the
  whole parts of 10^18/(2k*m*m), k its slope, over all m, so that the threshold is half of 10^9 times the
  sum of all inverse squares: the ramp of a load is left always up to 821 million a second, and never from
  822.6 million on (`RampThreshold.RampSumIsLayers`, `LoadTranslation.ModerateLoad`,
  `LoadTranslation.FastRampNeverEnds`).
- A level that is not above zero, after one that is served, makes the open generator panic, and so does
  a step that falls; at the front of a scenario it emits offset zero for ever (`OpenPanics.GeneratorFate`).
- No worker of a closed workload is stopped when its level comes down, so that in the end there are more
  than the final level if and only if it ever falls (`ClosedLevels.FinalWorkers`).
- The numbers of the string index wrap at 65536; a new string reads back if and only if the numbers
  are not used up (`StrIndex.ReadsBackIff`). A string appended to a copied strings file is read back if
  and only if that file ends its last line (`StrIndex.AppendedIsLineIff`).
- The mapping is published before the line is written, so the strings file keeps up with the answers
  if and only if one thread at most interns (`ConcurrentIndex.FileKeepsUpIff`); the single drain of
  the output is what makes the results readable.
- A string survives its file if and only if it has no line break and no white space at its end
  (`TextLines.SurvivesIffClean`); the error of several failed assertions never does
  (`ErrorText.ErrorSurvivesIff`). At the end of a run every item has its right row if and only if every
  string numbered in it survives, and every item can be described (`ResultsPipeline.AllRowsRightIff`).
- A failing status without a text or a phrase, as 520, ends the reader with the rows before it; it
  raises if and only if there is such an item (`ResultsPipeline.EveryRunReadsItsItems`,
  `ResultsPipeline.UnphrasedEndsReader`).
- The reader asks ten times for a mebibyte of the strings file, so that a number is found if and only
  if its line lies within ten portions (`KpiReader.SeekFindsIff`); it always is while no more than ten
  are unread (`KpiReader.SmallIsNear`).
- An extractor survives the indexed encoding if and only if its name has no space
  (`Metadata.ExtractRoundTripIff`).
- The decoders keep an expression in the cache under its text, and replacing a variable keeps the
  pattern of its placeholder under its name; literal metadata never ask the cache. A record is decoded
  before it is sent, and its variables are replaced after that. So when one record refers to `${token}`
  and a later one asserts the expression `token`, the assertion is, in some run, about the placeholder
  (`ExpressionSharing.ReferredThenAsserted`); when one record does both, the assertion is always right,
  and the variable is replaced where the expression matches (`ExpressionSharing.BothInOne`). A request
  means its literal metadata in every run if and only if for none of its expressions a record refers to a
  variable of that name before the first record that decodes it (`ExpressionSharing.AlwaysLiteralIff`).
- A variable is replaced by its own pattern in every run if and only if no record decodes its name as an
  expression, or the first that does cannot be reached while all records before it that refer to the
  variable wait with their workers: there are more of them than workers, or as many and the last record
  sent before it is not one of them (`ReplacementOrder.ReplacedRightIff`). So whether a clash does harm
  depends on the number of workers; that a whole file is right in every run means that no variable has
  the text of an expression for its name (`ExpressionSharing.FileRightIff`, and for uses in any order
  `RegexCache.AlwaysRightIff`).
- Returning a connection never blocks if and only if there are no more workers than the pool has
  room for; with the generated configuration, if and only if a concurrency is given
  (`ConnPool.ReturnNeverBlocksIff`, `Deployment.OpenRunsNeverBlockIff`).
- A worker gives its connection back before it searches its response, which is the buffer of that
  connection; so it may search the response of the next worker. No run does so if and only if there is
  one worker at most or every response closes its connection (`ResponseBuffers.NeverMixedIff`).
- When the input ends for every worker while the dispatcher waits to hand over an offset, it waits
  for ever, and an interrupt does not help. No run of a schedule comes to that if and only if the
  input does not end, the workers are not limited, or the offsets are at most items + workers; with an
  input for each worker, workers * (items + 1) (`Engine.NoRunStrandsIff`, `Engine.EmptyInputStrands`).
- Once the schedule is over and its channel closed, workers that are not stopped yet go on with zero for
  an offset and send requests beyond the schedule (`RequestAccounting.EveryOffsetIsAccountedFor`).
- A payload record is found if and only if its separators and its metadata line fit the 4096-byte
  buffer; otherwise the reader panics, or takes a buffer full of separators for the end of the file
  (`PayloadInput.RecordFoundIff`, `PayloadInput.RecordNotFound`).
- The payload reader's check of good against bad records is made unless the limit is one iteration;
  without a limit it goes on for ever (`PayloadInput.InputRepeatsTheGood`).
- The generated `Content-Length` counts characters; it is right if and only if the body refers to
  variables of the test or is all ASCII (`Request.ContentLengthRightIff`).

## Files

`Prelude`, `Sequences`, `Strings`, `Decimal`, `Bytes`, `Counting`: shared groundwork.
`RealFacts`, `Scenario`, `OpenRamp`, `OpenSchedule`, `OpenTermination`, `OpenPanics`, `RampThreshold`,
`ClosedSchedule`, `ClosedLevels`, `LoadTranslation`: schedules.
`TextLines`, `StrIndex`, `ConcurrentIndex`, `ResultRecord`, `BinaryOut`, `KpiReader`, `LiveReader`,
`ResultsPipeline`, `ResultsProgress`, `ErrorText`: results.
`RegexCache`, `InputOrder`, `InputProgress`, `ReplacementOrder`, `Metadata`, `ExpressionSharing`, `PayloadInput`,
`PayloadFaults`, `PayloadRoundTrip`: input.
`Engine`, `RequestAccounting`, `EngineProgress`, `ConnPool`, `ConnLifetimes`, `ResponseBuffers`, `Deployment`:
workers and connections. `Request`, `Recording`: HTTP.

## Model

| member | source | states |
|---|---|---|
| `OpenSchedule.GenerateSchedule` | pkg/scenario/open.go:87-129 | for every scenario and every number of offsets asked for, the loop emits exactly the offsets of the reference generator, and then it has closed its channel, has panicked with "calculations stuck" or waits for a receiver, as the reference generator does |
| `OpenSchedule.OffsetsNeverDecrease` | pkg/scenario/open.go:53-57 | for every scenario, offsets never decrease and steps are never revisited, so the consumer's "ever-increasing" panic is unreachable |
| `OpenSchedule.StopIsUnique` | pkg/scenario/open.go:94-126 | the generator has at most one point where it stops |
| `OpenSchedule.Overshoot` | pkg/scenario/open.go:117-123 | a step is left by overshooting its planned end by more than nothing and at most its last interval |
| `OpenSchedule.TickingStep` | pkg/scenario/open.go:99-123 | a step of constant interval q emits floor(duration/q)+1 offsets, at any position in the scenario |
| `OpenSchedule.SteppedSchedule` | pkg/scenario/open.go:94-126 | a schedule of constant steps is one arithmetic progression per step, and then it ends |
| `OpenRamp.SumAccuracy` | pkg/scenario/open.go:103-112 | the untruncated sum of the first n ramp intervals lies between sqrt(2(n+1)/k) - sqrt(2/k) and sqrt(2n/k) |
| `OpenTermination.TruncationLoss` | pkg/scenario/open.go:119 | the sum of n truncated intervals is at most the exact one and less than n nanoseconds below it, for every slope and n |
| `OpenTermination.RampOffset` | pkg/scenario/open.go:99-121 | the offset of request n of a ramp is that sum |
| `OpenTermination.RampAccuracy` | pkg/scenario/open.go:99-119 | each emitted ramp offset is at most the ideal time and at least the ideal time of the next request less the first ideal gap and n nanoseconds |
| `OpenTermination.NoRequestIsLate` | pkg/scenario/open.go:99-119 | at the offset of request n the profile k*t*t/2 has asked for at most n requests |
| `OpenTermination.RampServesItsArea` | pkg/scenario/open.go:99-123 | when a ramp is left, more requests have been sent than the area under it |
| `OpenTermination.RateBounded` | pkg/scenario/open.go:103-106 | inside a ramp whose level and first rate sqrt(2k) are at most 5*10^8 together, truncation brings the computed rate to at most twice their sum |
| `OpenTermination.WholeIff` | pkg/scenario/open.go:103-119 | the interval of request n is at least a nanosecond if and only if its rate is at most 10^9, that is, n is at most 10^18/(2k) |
| `OpenTermination.IntervalOfRise` | pkg/scenario/open.go:97-111 | for a step that rises from any level, the interval i of request n > 0 is the positive one with i*i * 2n * (level end - level start) * 10^9 equal to the duration in nanoseconds |
| `OpenTermination.IntervalOtherwise` | pkg/scenario/open.go:97-111 | in a constant step above zero the interval times the level is 1; one that falls, rises in no time or has no positive rate has no intervals |
| `OpenTermination.RampIsLeft` | pkg/scenario/open.go:94-124 | a rising step, entered with any number of requests at any offset, whose further whole nanoseconds add up to more than its duration is left, with the number of requests computed beforehand |
| `OpenTermination.RampIsNotLeft` | pkg/scenario/open.go:94-124 | any other rising step never is: the generator emits for ever |
| `RampThreshold.RampSumIsLayers` | pkg/scenario/open.go:103-119 | for every slope k, the whole nanoseconds of all intervals of a ramp are the sum over m of the whole parts of 10^18/(2k*m*m), the numbers of requests with an interval of at least m nanoseconds |
| `RampThreshold.RampPassesIff` | pkg/scenario/open.go:94-124 | a rising step at the front is left if and only if that sum is more than its duration: no roots, and known beforehand |
| `RampThreshold.SlowRampPasses` | pkg/scenario/open.go:94-124 | a ramp from zero is left if, for some m, its level and m times its slope in 10^9 are together at most 5*10^8 times the sum of the first m inverse squares |
| `RampThreshold.FastRampStays` | pkg/scenario/open.go:94-124 | and is not left if its level is at least 5*10^8 times the sum of the first m inverse squares and 1/(m+1/2), for some m, which is more than the sum of all of them |
| `OpenTermination.ScenarioEndsIff` | pkg/scenario/open.go:94-126 | for every scenario, rising, constant or falling: the generator ends if and only if each step in turn is left, constant ones at levels above 0 and at most 10^9/s, rising ones as above, others never |
| `OpenPanics.GeneratorFate` | pkg/scenario/open.go:94-126 | for every scenario exactly one of three: the generator ends if and only if every step is left; it panics with "calculations stuck" if and only if the first step that is not left has no intervals and comes after another; otherwise it emits for ever |
| `OpenPanics.ConstantsStuckIff` | pkg/scenario/open.go:98-117 | over constant rates it panics if and only if, after rates that can all be served and not at the front, one is not above zero |
| `OpenTermination.ConstantsPassIff` | pkg/scenario/open.go:99-123 | constant steps are all left if and only if every level is above 0 and at most 10^9/s |
| `OpenTermination.OpenScheduleEndsIff` | pkg/scenario/open.go:94-126 | a profile of at most one ramp from zero and constant steps ends if and only if the ramp's whole nanoseconds are more than its duration and its constant levels are above 0 and at most 10^9/s |
| `OpenTermination.EndingExcludesPanic` | pkg/scenario/open.go:115-117 | a schedule that ends has no other way to stop, so the "stuck" panic is unreachable |
| `OpenTermination.OffsetsIncrease` | pkg/scenario/open.go:119-121 | in every scenario that ends, every offset after the first is strictly above the one before |
| `OpenTermination.TotalOvershoot` | pkg/scenario/open.go:119-123 | a step begins after the planned durations before it, by at most one last interval each |
| `OpenTermination.FinalOffset` | pkg/scenario/open.go:119-126 | the last offset is past the total duration by at least one nanosecond and at most one last interval per step |
| `OpenTermination.OffsetBound` | pkg/scenario/open.go:119-123 | every offset is at most the total duration and the intervals that ended steps |
| `ClosedSchedule.GenerateSchedule` | pkg/scenario/closed.go:85-115 | the nested loops emit, step by step, the jump to the level and then the linear progress of the reference form |
| `ClosedSchedule.WorkersStarted` | pkg/scenario/closed.go:89-112 | a connected staircase of whole levels emits as many offsets as its final level exceeds the initial one |
| `ClosedSchedule.OffsetsInScenario` | pkg/scenario/closed.go:92-111 | every offset is within the total duration |
| `ClosedSchedule.OffsetsOrdered` | pkg/scenario/closed.go:89-112 | offsets do not decrease |
| `ClosedSchedule.ClosedScheduleFollowsProfile` | pkg/scenario/closed.go:85-115 | at every nanosecond inside a step, the workers started are at least the profile rounded down and fewer than the profile one nanosecond later; in a flat step they equal it |
| `ClosedLevels.AnyRiseFollowsProfile` | pkg/scenario/closed.go:89-105 | whatever its levels, a rising step starts at once the least number of workers that reach its starting level; at every nanosecond inside it the profile is less than one worker ahead of those started since, and they are below where it is a nanosecond later |
| `ClosedLevels.AnyStepStarts` | pkg/scenario/closed.go:89-111 | in all it starts as many as its levels have room for, in order and within its duration; a flat or falling step starts none but those that reach its starting level |
| `ClosedLevels.FinalWorkers` | pkg/scenario/closed.go:89-113 | for all whole levels, the workers in the end are the final level and all that the level has come down, and so the final level if and only if it never falls |
| `ClosedSchedule.StartWorkers` | pkg/scenario/closed.go:37-58 | workers start at the offsets counted from the first one, all of them unless a sleep that really takes place is interrupted |
| `ClosedSchedule.UninterruptedStarts` | pkg/scenario/closed.go:37-58 | an uninterrupted run starts one worker per unit of the final level, in order, the first at once and the last within the scenario |
| `LoadTranslation.TranslateLoad` | taurus/encarno/__init__.py:255-281 | the loop builds the ramp-up part and the hold part of the profile |
| `LoadTranslation.RampLasts` | taurus/encarno/__init__.py:258-272 | a ramp-up has one piece, or as many as its steps, all of the same duration, and lasts as long as it is to, up to half a millisecond a piece |
| `LoadTranslation.HoldLasts` | taurus/encarno/__init__.py:274-279 | and so does the hold after it |
| `LoadTranslation.RampLevels` | taurus/encarno/__init__.py:260-272 | step i of n is flat, at a whole level nearest to i/n of the target; one piece goes from zero to the target |
| `LoadTranslation.StepLevelsRise` | taurus/encarno/__init__.py:258-267 | rounded step levels do not decrease |
| `LoadTranslation.ClosedLoadIsStaircase` | taurus/encarno/__init__.py:255-281 | a closed load becomes a connected staircase of whole levels that ends at the concurrency |
| `LoadTranslation.ClosedLoadStartsConcurrencyWorkers` | taurus/encarno/__init__.py:255-281 | the closed generator on it emits exactly `concurrency` offsets |
| `LoadTranslation.OpenLoadEndsIff` | taurus/encarno/__init__.py:255-281 | for every throughput above zero, the open generator ends on the profile of a load if and only if its held level is at most 10^9/s, and its ramp-up, in one piece, is not written as zero seconds and has more whole nanoseconds than its duration, or, in steps, asks for more than half a request a second for each step and for at most 10^9/s at the last |
| `LoadTranslation.ModerateLoad` | taurus/encarno/__init__.py:255-281 | up to 821 million a second that is: the ramp-up is longer than half a millisecond, or its steps ask for more than half a request a second each |
| `LoadTranslation.FastRampNeverEnds` | taurus/encarno/__init__.py:268-275 | from 822.6 million a second on no ramp-up in one piece ends |
| `LoadTranslation.TenStepsToOneNeverEnd` | taurus/encarno/__init__.py:259-263 | one request a second, ramped up in ten steps, never ends |
| `TextLines.SurvivesIffClean` | taurus/encarno/__init__.py:648-651 | a string written as a line is read back as itself if and only if it has no newline and no trailing white space |
| `TextLines.LinesSplit` | taurus/encarno/__init__.py:648-651 | the complete lines of a file are the same however it is split while it grows |
| `StrIndex.StrIndex.constructor` | pkg/core/strindex.go:21-36 | an index starts with the empty string, or with what its file holds |
| `StrIndex.StrIndex.LoadFile` | pkg/core/strindex.go:38-59 | scanning the file adds its lines one by one, later lines overriding the numbers of equal ones |
| `StrIndex.StrIndex.Get` | pkg/core/strindex.go:61-67 | the string of a number, and a panic exactly past the end |
| `StrIndex.StrIndex.Idx` | pkg/core/strindex.go:69-90 | the answer and the table are those of interning; a line is appended exactly for a new string; a read-only index panics exactly on a new string |
| `StrIndex.InternKeeps` | pkg/core/strindex.go:69-90 | interning keeps the table the inverse of its mapping, keeps every earlier number, and its answer reads back |
| `StrIndex.ReadsBackIff` | pkg/core/strindex.go:83-85 | the answer reads back if and only if the string was known or fewer than 65536 numbers are in use |
| `StrIndex.LoadIsGood` | pkg/core/strindex.go:48-54 | loading a file of fewer than 65536 lines gives a good table that lists its lines |
| `StrIndex.LoadListsLines` | pkg/core/strindex.go:48-54 | loading lines, whether the last is ended or not, gives the empty string and then one string for each line, without a carriage return at its end |
| `StrIndex.LoadListsStrings` | pkg/core/strindex.go:48-54 | so with an unfinished last line that is not empty: the empty string, the lines before it, and it |
| `StrIndex.ReloadRebuilds` | pkg/core/strindex.go:38-109 | after any series of internings, loading the file rebuilds the same table |
| `StrIndex.AppendedIsLineIff` | pkg/core/strindex.go:104 | an appended string is a line of its own if and only if the file ended its last line; otherwise it joins that |
| `ConcurrentIndex.EveryRunKeepsIndex` | pkg/core/strindex.go:69-90 | for any number of threads and any interleaving, mapping and index stay inverse, answers stay right, numbers never change |
| `ConcurrentIndex.AnswersReadBack` | pkg/core/strindex.go:61-90 | Get(Idx(s)) = s, distinct strings have distinct numbers, and outside the lock the file lists the index |
| `ConcurrentIndex.EveryRunRebuilds` | pkg/core/strindex.go:38-109 | outside the lock, loading the file rebuilds the table in memory |
| `ConcurrentIndex.TwoThreadsOutrunFile` | pkg/core/strindex.go:83-87 | a second thread can be answered with a number whose line is not written yet |
| `ConcurrentIndex.FileKeepsUpIff` | pkg/core/strindex.go:69-90 | the file keeps up with the answers in every run if and only if one thread at most interns |
| `ConcurrentIndex.EveryCallIsAnswered` | pkg/core/strindex.go:69-90 | from every moment of every run, whatever the other threads are at and whoever holds the lock, the call a thread is in can end, with the lock given back and an answer that reads back |
| `ConcurrentIndex.EveryStringIsInterned` | pkg/core/strindex.go:69-90 | and so can every call that is yet to be made |
| `ResultRecord.DecodeEncode` | pkg/core/output.go:110-176 | a record in range is unpacked into the fields that were written |
| `ResultRecord.EncodeDecode` | taurus/encarno/__init__.py:593-621 | any 74 bytes are the encoding of exactly the record they unpack to |
| `ResultRecord.StreamRoundTrip` | taurus/encarno/__init__.py:616-639 | a stream of encoded records and an unfinished one comes apart into those records and the unfinished bytes |
| `ResultRecord.SplitAnywhere` | taurus/encarno/__init__.py:614-639 | a stream decoded in two parts, split anywhere, gives the same records and the same rest |
| `ResultRecord.Layout` | taurus/encarno/__init__.py:593-621 | the record byte for byte: each of the thirteen numbers in its place, the lowest byte first, without padding |
| `BinaryOut.BufWriter.Write` | pkg/core/output.go:110-176 | through a 4096-byte buffer, bytes of any number reach the file in order, none lost or repeated |
| `BinaryOut.BinaryOut.WriteBinary` | pkg/core/output.go:110-176 | the thirteen writes append exactly the encoding of the record |
| `BinaryOut.BinaryOut.Push` | pkg/core/output.go:357-372 | error and label are numbered in this order unless they have numbers, new strings are appended to the strings file, the record is written, and the buffer is flushed when the clock moves on, and otherwise only when it is full |
| `KpiReader.KpiReader.GetLines` | taurus/encarno/__init__.py:648-651 | the next portion of a mebibyte of complete lines is taken, and what is known then is what the file says up to there |
| `KpiReader.KpiReader.GetStrIndex` | taurus/encarno/__init__.py:644-661 | portion after portion is taken while a number is not known, at most ten |
| `KpiReader.PortionIsTheOne` | taurus/encarno/__init__.py:648-651 | a portion is the one front of what is unread that has complete lines only and either ends with the line that fills it or has all of them |
| `KpiReader.SeekFindsIff` | taurus/encarno/__init__.py:644-661 | a number is found if and only if its line lies within the portions asked for, and then it is that line; INDEX_NOT_FOUND otherwise |
| `KpiReader.SmallIsNear` | taurus/encarno/__init__.py:644-661 | while no more than ten portions are unread, the whole file lies within reach |
| `KpiReader.ConsumeNear` | taurus/encarno/__init__.py:605-639 | with everything within reach, the rows of a pass depend on the strings of the file only, not on what was taken before, and everything stays within reach |
| `KpiReader.PassIsWhole` | taurus/encarno/__init__.py:605-661 | with no more than ten portions unread, a pass is the one over all strings of the file, and the reader stays at the end of a line |
| `KpiReader.PassIsClean` | taurus/encarno/__init__.py:648-651 | whatever the file holds and however much of it was taken, no text of a row has a line break or white space at its end |
| `KpiReader.KpiReader.ToRow` | taurus/encarno/__init__.py:620-637 | one record becomes the row with its texts and sums, or raises for a status without a phrase; its look-ups take the strings file on |
| `KpiReader.KpiReader.Read` | taurus/encarno/__init__.py:605-639 | a call yields the rows of the whole records in kept and new bytes, and keeps the rest; nothing is kept anew when it raises |
| `KpiReader.ConsumeIsRows` | taurus/encarno/__init__.py:616-639 | taking bytes as they come is turning each whole 74-byte chunk into its row |
| `KpiReader.ChunkIndependence` | taurus/encarno/__init__.py:605-639 | however the stream is split across calls, the rows are those of its whole chunks, and what is kept is its unread tail of fewer than 74 bytes |
| `LiveReader.CallIsOnePass` | taurus/encarno/__init__.py:605-661 | while the strings file stands still, the steps of a call, one portion, one text or one row at a time, are one pass over its bytes |
| `LiveReader.CallEnds` | taurus/encarno/__init__.py:605-661 | over a file that stands still every call of the reader comes to its end |
| `ResultsPipeline.PushIsFiveSteps` | pkg/core/output.go:357-372 | left to itself the drain does to index, strings file and records what one push does |
| `ResultsPipeline.LoadedStrings` | cmd/encarno/main.go:102-112 | a copied strings file whose lines survive is loaded as the strings the reader will find in it |
| `ResultsPipeline.InvIsVisible` | pkg/core/output.go:357-367 | every complete record in the binary file refers to strings that are complete lines already |
| `ResultsPipeline.EveryRunReadsItsItems` | pkg/core/output.go:202-218 | in every interleaving of drain, flushes of any part of the buffer, calls of the reader and the single steps of its look-ups, while the 16-bit numbers last and no look-up begins to ask with more than ten portions unread: visible records have their strings; the rows read are those of the first items, each once and in order, with their own texts; and at the end they are those of all items before the first that cannot be described, and the reader has raised if and only if there is one |
| `ResultsProgress.EveryRunCanSettle` | taurus/encarno/__init__.py:605-661 | from every moment of every run over clean items, with room for the numbers and lines still to come, the run can go on until all is written and read: then the rows are those of all items up to the first that cannot be described, and the reader has raised if and only if there is one |
| `ResultsProgress.NextRowCanBeRead` | taurus/encarno/__init__.py:609-637 | at every such moment, when a complete record is visible after the rows read, an idle reader can go on, whatever the drain does, to exactly the row of its item, or raises there if it cannot be described |
| `ResultsProgress.KeepsUpWhileNear` | taurus/encarno/__init__.py:644-661 | when all lines that may still be written are within ten portions of the reader, it keeps up from then on, whatever happens |
| `ResultsPipeline.AllRowsRightIff` | taurus/encarno/__init__.py:605-661 | at the end of any such run every item has its row, and the right one, if and only if every newly numbered string survives a line of the file and every item can be described |
| `ResultsPipeline.SmallFileKeepsUp` | taurus/encarno/__init__.py:644-661 | with a strings file of ten mebibytes at most in the end, no look-up ever begins with more than ten portions unread |
| `ResultsPipeline.UnphrasedEndsReader` | taurus/encarno/__init__.py:634-635 | an item with a failing status, no error and no phrase ends the reader with the rows before it |
| `ResultsPipeline.EachHasRowIff` | taurus/encarno/__init__.py:620-637 | every item has its row if and only if each has a status below 400, or tells of an error, by its own text or by the number it came with, or has a status with a phrase |
| `ResultsPipeline.RowsCarryItems` | taurus/encarno/__init__.py:620-637 | the row of an item has its timestamp, status, concurrency, times and byte sum, and for label and error its own text, or the text of the number it came with, or the phrase of its status |
| `ResultsPipeline.NumbersLast` | pkg/core/strindex.go:83-85 | with room for two strings an item the 16-bit numbers last through every run |
| `ErrorText.Assert` | pkg/core/output.go:88-108 | assertions that fail, found inverted or not found, are joined to the error before them in order, and trimmed |
| `ErrorText.NoErrorIff` | pkg/core/output.go:90-108 | with a blank error before them the result is empty if and only if every plain assertion is found and every inverted one is not |
| `ErrorText.OneFailureSays` | pkg/core/output.go:94-106 | a single failure is told by its expression and whether it is inverted, and by nothing else |
| `ErrorText.ErrorSurvivesIff` | pkg/core/output.go:94-106 | for any error and any expressions, the text of failed assertions survives the strings file if and only if there is one failure, no error other than white space before it, and its expression without trailing white space is one clean line |
| `Decimal.AtoiItoa` | pkg/core/input.go:326-327 | a printed number is parsed back, clamped with an error exactly outside 64 bits |
| `Metadata.Generator.MetadataIndexed` | taurus/encarno/__init__.py:382-420 | the list gains, in order, each text it does not have, and the numbers are first positions in it |
| `RegexCache.Cache.Take` | pkg/core/input.go:288-297 | an expression is taken from the cache under its key, or compiled and kept there |
| `RegexCache.UseIsTwoSteps` | pkg/core/input.go:288-297 | a user left to itself, looking and then keeping, gets the answer and leaves the cache of one use |
| `RegexCache.AlwaysRightIff` | pkg/core/input.go:65-71 | for any number of users of the cache and any interleaving, decoders get the expression of their text and replacements that of their placeholder, in every run, if and only if no word is the name of a variable and the text of an expression (with one of the two compiling) |
| `RegexCache.AlwaysRightIffDisjoint` | pkg/core/input.go:65-71 | with names whose patterns compile: if and only if names and texts are disjoint |
| `RegexCache.WordInRun` | pkg/core/input.go:288-297 | an expression that is no variable's name is decoded right in every run, whatever else clashes |
| `RegexCache.PlainSequenceGoesWrong` | pkg/core/input.go:65-71 | every sequence of uses, without any interleaving, that decodes and replaces the same word goes wrong |
| `Metadata.IndexStable` | taurus/encarno/__init__.py:391-392 | a first position stays where it is when the list grows |
| `Metadata.ListHasEachOnce` | taurus/encarno/__init__.py:379-418 | the list has the empty string and every text of every request, each once, and nothing else |
| `Metadata.GenerateAll` | taurus/encarno/__init__.py:312-363 | the numbers of all requests over one shared list |
| `Metadata.PayloadItem.LookUpReplaces` | pkg/core/input.go:275-280 | numbers are looked up in order; one past the end panics |
| `Metadata.PayloadItem.LookUpExtracts` | pkg/core/input.go:305-335 | the text of each number is cut into name, match, group and expression, and the expression is what the cache gives for its text; the first that is neither cached nor compiles fails |
| `Metadata.PayloadItem.LookUpAsserts` | pkg/core/input.go:282-303 | the text of each number is cut into inversion and expression, which is what the cache gives for its text; the first that is neither cached nor compiles fails |
| `Metadata.PayloadItem.ResolveStrings` | pkg/core/input.go:78-88 | address and label are looked up when empty and numbered, kept when set, and their numbers cleared; a panic exactly past the end |
| `Metadata.DecodeItem` | pkg/core/input.go:236-246 | the decoders one after another over the shared cache give what the indexed metadata mean for the answers of the cache, failures and panics included |
| `Metadata.ExtractRoundTripIff` | pkg/core/input.go:308-326 | an extractor is read back as itself if and only if its name has no space |
| `Metadata.AssertRoundTrip` | pkg/core/input.go:285-299 | an assertion is read back as itself |
| `Metadata.ExtractRead` | pkg/core/input.go:305-338 | what is read from the text of an extractor: name, number of the match, number of the group, and all that follows the third space |
| `Metadata.AssertRead` | pkg/core/input.go:282-303 | whatever stands before the first space of an assertion inverts it, unless it is a zero |
| `Metadata.DecodedWithAnswers` | pkg/core/input.go:275-335 | numbers that fit mean the request with the expressions that the cache has answered |
| `Metadata.ListSurvives` | taurus/encarno/__init__.py:303-305 | the list, written without its first entry and loaded by the index, is the same list |
| `Metadata.IndexedMeansLiteral` | taurus/encarno/__init__.py:365-420 | for every request of every file, in every run of the shared cache by any number of users, when no variable has the text of an expression for its name: numbers taken while the list was growing decode through the loaded index to the literal meaning, if and only if they fit 16 bits or the literal encoding fails too |
| `InputOrder.EarlyInEveryRun` | pkg/core/input.go:144-182 | when no record before the one that decodes a word refers to it, every use of the word by any reader or worker, in every run, works with the expression that is the word itself |
| `InputOrder.DecodedRightIff` | pkg/core/input.go:186-250 | with each record decoded before it is sent and its variables replaced after that, a record is given its own expression in every run if and only if no record before the first that decodes it refers to a variable of that name |
| `InputOrder.ReadAlone` | pkg/core/input.go:282-335 | a reader that nobody interrupts is given what the cache gives for the expressions of its record, one after the other, up to the first that is not there and does not compile |
| `InputOrder.OrderedIsRun` | pkg/core/input.go:54-76 | for the cache, every run in the order of the records is one of the runs in any order |
| `InputProgress.EveryRecordAgain` | pkg/core/input.go:143-180 | from every moment of every run, every reader comes to every record again, in the next pass over the file: it is sent, or reported as bad, with answers for its expressions up to the first that does not compile |
| `InputProgress.WorkerEnds` | pkg/core/worker.go:50-54 | and a worker left alone comes to the end of its replacements, with the readers where they were |
| `ReplacementOrder.ReplacedRightIff` | pkg/core/input.go:56-76 | a variable that some record refers to is replaced by its own pattern in every run if and only if no record decodes its name, or before the first that does there are more records that refer to it than workers for the reader, or as many and another record is sent between the last of them and that one |
| `ReplacementOrder.ManyWorkers` | pkg/core/worker.go:50-54 | with more workers than records that refer to the variable: if and only if no record decodes its name |
| `ReplacementOrder.EveryUseRightIff` | pkg/core/input.go:54-76 | all records are given their own expressions and all variables replaced by their own patterns, in every run, if and only if no word is both decoded and referred to |
| `ExpressionSharing.AlwaysLiteralIff` | taurus/encarno/__init__.py:365-420 | with names of letters and digits, a request means its literal metadata in every run, with one input or one for each of any number of workers, if and only if the literal metadata fail to compile, or its numbers fit 16 bits and for none of its expressions a record refers to a variable of that name before the first record that decodes it |
| `ExpressionSharing.FileRightIff` | taurus/encarno/__init__.py:312-363 | in a file whose expressions compile and whose numbers fit, every request means its literal metadata and every variable is replaced by its own pattern, in every run, if and only if no variable has the text of an expression for its name |
| `ExpressionSharing.ReferredThenAsserted` | pkg/core/input.go:54-76 | a record that refers to ${token} before one that asserts `token`: in some run the assertion decoded by number is about the placeholder |
| `ExpressionSharing.BothInOne` | pkg/core/input.go:178 | a record that does both: the assertion is right in every run, and the variable is replaced with the expression in some |
| `ExpressionSharing.AloneIsDecodeItem` | pkg/core/input.go:236-246 | what a reader left to itself is given for a record means what the decoders, called one after the other over the same cache, make of it |
| `PayloadInput.PayloadFile.Read` | pkg/core/input.go:188-191 | one read fills the front of the reused buffer with the next bytes of the file |
| `PayloadInput.PayloadFile.ReadMeta` | pkg/core/input.go:252-266 | the line is cut at its newline and the position goes back to just after it |
| `PayloadInput.PayloadFile.ReadPayload` | pkg/core/input.go:221-234 | exactly the given number of bytes is the payload; a record cut short panics unless it is bad already |
| `PayloadInput.PayloadFile.ReadPayloadRecord` | pkg/core/input.go:186-250 | record, end, bad record or panic, and the position after it, as the reference reader has them |
| `PayloadInput.NewInput` | pkg/core/input.go:143-180 | however long it is watched, with a limit or without, the loop sends and ends, panics or goes on as the reference form, made of whole passes, says |
| `PayloadInput.RecordFound` | pkg/core/input.go:186-250 | whatever surrounds a record and whatever its payload is made of, reading at its start finds it and stops right after it |
| `PayloadInput.RecordFoundIff` | pkg/core/input.go:186-250 | amid any surroundings, a record with a line that is not empty is found if and only if separators and line fit the buffer |
| `PayloadInput.RecordNotFound` | pkg/core/input.go:186-250 | otherwise the read panics, or, on a buffer full of separators, reports the end of the file |
| `PayloadInput.PassOverLayout` | pkg/core/input.go:146-180 | a pass over a file of records finds the good ones in order and counts the bad ones |
| `PayloadInput.InputRepeatsTheGood` | pkg/core/input.go:144-182 | with any limit, and none, the channel carries the good records in order, once a pass: it closes after the last pass of the limit, panics after the first if there are more bad records than good ones and the limit is not one, and goes on otherwise |
| `PayloadFaults.BrokenRecordPanics` | pkg/core/input.go:186-250 | after any records, one whose line has no length, or whose payload is cut short, is the end: the good ones before it have been sent, and the reader panics in its first pass, whatever the limit |
| `PayloadFaults.UnendedLinePanics` | pkg/core/input.go:252-266 | and so is a last line that is not ended |
| `PayloadFaults.BadMetaCutShort` | pkg/core/input.go:210-234 | but one whose metadata are bad as such counts as one bad record, even when its payload is cut short |
| `PayloadInput.WritePayloads` | taurus/encarno/__init__.py:325-340 | the generator's file: metadata, CR LF, payload, CR LF for each record |
| `PayloadInput.GeneratedFileIsRead` | taurus/encarno/__init__.py:325-340 | what the generator writes is read back record by record, in every pass, whatever the payload bytes, with any limit and none |
| `PayloadRoundTrip.IndexedFileFeedsLiteralItems` | taurus/encarno/__init__.py:312-420 | requests written with indexed metadata and a strings file reach the input channel, in every run of the shared cache and with any limit, as the items of their literal metadata, when no variable has the text of an expression for its name |
| `Engine.Initial` | pkg/scenario/open.go:27-35 | to begin with, as many workers are spawned as asked for, up to the limit, and at least one |
| `Engine.CountersInEveryRun` | pkg/core/worker.go:47-100 | in every interleaving of any number of workers, spawned by the open dispatcher or at any moment by the closed one, the counters are the numbers of workers in their sections, sleeping + busy <= working <= workers, waiting includes those out of input, no check finds a negative counter, and recorded concurrency is from 1 to the number of workers |
| `EngineProgress.RecordedIsConcurrency` | pkg/core/worker.go:79-95 | in every run the concurrency recorded with a result is the number of workers inside their requests at that moment, the one that records it included |
| `RequestAccounting.EveryOffsetIsAccountedFor` | pkg/core/worker.go:47-100 | in every run, open or closed, each offset received, zeros included, has been waited for, by being late or by sleeping, or its worker is still before that or out of input; each waited for was sent as a request, or given up by a worker that had been stopped, or is about to be sent; each request sent has its result pushed, or about to be |
| `RequestAccounting.RequestsSent` | pkg/core/worker.go:70-74 | while no worker has been stopped, the requests sent are the offsets received less those on their way and those that met the end of the input |
| `EngineProgress.RoundEnds` | pkg/core/worker.go:47-80 | a worker with an offset never stands still: whether it is late or sleeps, 15 steps of its own bring it to the end of its round or of its input |
| `Engine.ScheduleIsHandedOver` | pkg/scenario/open.go:43-81 | offsets reach workers one by one and in order, none lost or repeated between the two ways of sending; all of them unless aborted; zeros beyond the schedule only after the channel is closed; no panic |
| `EngineProgress.NoDecreaseHandedOver` | pkg/scenario/open.go:53-57 | whatever the schedule, the offsets handed over never decrease in any run, as the dispatcher panics before that |
| `Engine.WorkerLimit` | pkg/scenario/open.go:66-77 | the number of workers is always at least that to begin with and, with a limit, within it |
| `EngineProgress.GrowsIff` | pkg/scenario/open.go:66-74 | in every run an offset that nobody waits for adds a worker if and only if there is room for one and no worker is asleep |
| `EngineProgress.WaitingServedFirst` | pkg/scenario/open.go:64-67 | growing is thought of if and only if no worker waits for an offset; one that does can be handed it |
| `EngineProgress.InterruptStops` | pkg/scenario/open.go:47-61 | after an interrupt at most one offset more is handed over, and none if none was in hand |
| `EngineProgress.NobodyMissed` | pkg/core/workload.go:51-56 | when the dispatcher is complete, the channel is closed and every worker has been stopped |
| `EngineProgress.EveryRunCanComplete` | pkg/scenario/open.go:43-85 | from every moment of every run, with enough input for the schedule, the run can go on without an interrupt to its end: all offsets are handed over unless it was interrupted before, every worker is stopped and has finished or is out of input, and every request sent has its result pushed |
| `EngineProgress.EveryRunCanCompleteIff` | pkg/scenario/open.go:43-85 | so it is for all runs if and only if the input is endless, the workers are not limited, or the offsets are at most what the workers are sure to take |
| `EngineProgress.ClosedRunsServe` | pkg/scenario/closed.go:36-58 | at every moment of every closed run that is not being stopped, with an item left, a worker more can be started; it is given a zero, takes an item and sends a request |
| `EngineProgress.EveryClosedRunCanEnd` | pkg/scenario/closed.go:59-82 | from every moment of every closed run, whatever its input, all workers can be stopped, and come to their end |
| `Engine.NoRunStrandsIff` | pkg/scenario/open.go:43-81 | no run of a schedule leaves the dispatcher waiting for ever if and only if the input is endless, the workers are not limited, or the offsets are at most items + workers (one shared input) or workers * (items + 1) (an input for each worker) |
| `Engine.SendStrandedIff` | pkg/scenario/open.go:63-74 | in the middle of a run, a waiting send can never succeed if and only if every worker is out of input or bound to be |
| `Engine.EmptyInputStrands` | pkg/core/worker.go:48-53 | with an empty input, for every limit of workers, one offset more than workers has a run that leaves the dispatcher waiting |
| `ConnPool.Pool.Get` | pkg/http/conn.go:162-187 | the channel of a host is made when first asked for, and its front is taken, as in the step system |
| `ConnPool.Pool.Return` | pkg/http/conn.go:256-261 | the connection joins the end of its host's channel unless that is full, as in the step system |
| `ConnPool.PoolCapacity` | pkg/http/conn.go:162-196 | in every run, for each host, idle connections plus workers using one never exceed the workers |
| `ConnPool.ReturnNeverBlocksIff` | pkg/http/conn.go:256-261 | returning never blocks, in any run, if and only if the workers are at most the maximum of connections |
| `ConnPool.TooManyBlock` | pkg/http/conn.go:256-261 | with more workers than that, a run that blocks, for every number of them |
| `ConnPool.OneOwner` | pkg/http/conn.go:162-196 | each connection is owned by at most one place in the channel of its own host or one worker |
| `ConnPool.ReusedIsOpen` | pkg/http/conn.go:175-186 | a reused connection is open, goes to the host asked for, and is nobody else's |
| `ConnPool.AskedUntilHeld` | pkg/http/conn.go:175-196 | whatever happens, a worker that has asked for a connection goes on asking until it holds one to that host or opening one fails |
| `ConnPool.FailedIsReplaced` | pkg/http/conn.go:175-196 | in every run a connection taken from the channel is held if it has not failed; otherwise a new one is opened and held |
| `ConnPool.NothingIdle` | pkg/http/conn.go:175-196 | and with none in the channel a new one is opened and held as well |
| `ConnPool.GivenBackUnlessCanceled` | pkg/http/conn.go:256-261 | a connection that is given back joins the end of the channel of its host, if there is room, exactly if it is not canceled |
| `ConnLifetimes.LongestIdleOrNew` | pkg/http/conn.go:162-196 | in every run, a connection asked for is the one that has been idle longest if it has not failed, else a new one, else none; the others stay idle in their order |
| `ConnLifetimes.FailedIsNotReturned` | pkg/http/conn.go:51-93 | a connection that fails in hand is not given back, and nobody has it then |
| `ConnLifetimes.DroppedForGood` | pkg/http/nib.go:100-117 | one dropped on an error makes its worker ready and is never used again, in any run |
| `ConnLifetimes.ClosedForGood` | pkg/http/nib.go:131-136 | one that is to be closed is never used again in any run either, and at every later moment can be closed |
| `ResponseBuffers.NeverMixedIff` | pkg/http/nib.go:125-134 | no run of any number of workers over the pool ever searches a response that is not the worker's own if and only if there is one worker at most, or every response closes its connection |
| `ResponseBuffers.OvertakenIsWrong` | pkg/core/worker.go:83-97 | for two workers or more, a run in which the first searches the response of the second |
| `ResponseBuffers.EveryResponseIsSearched` | pkg/core/worker.go:83-97 | in every run the responses received are those searched and those that a worker still has to search |
| `Deployment.OpenRunFollowsLoad` | pkg/scenario/open.go:37-85 | the offsets of the open generator, all of them or any front part of a schedule that never ends, reach the workers in order with no panic, and there are never more workers than the concurrency |
| `Deployment.OpenRunNeverStrandsIff` | pkg/scenario/open.go:37-85 | no open run over the schedule of its load is left waiting if and only if the input lasts for its offsets |
| `Deployment.OpenRunsCanCompleteIff` | pkg/scenario/open.go:37-85 | every open run over the offsets of a load can be brought to its end, from every moment of it, if and only if no concurrency is given, or the input does not end or lasts for the offsets |
| `Deployment.EndlessRunStrandsIff` | pkg/scenario/open.go:37-85 | with a load that never ends, some run is left waiting if and only if the input ends and the workers are limited |
| `Deployment.OpenRunsNeverBlockIff` | taurus/encarno/__init__.py:219-235 | with the generated configuration no open run ever blocks on returning a connection if and only if the concurrency is not zero |
| `Deployment.ClosedRunsNeverBlock` | taurus/encarno/__init__.py:219-235 | nor does any closed run |
| `Request.BuildRequest` | taurus/encarno/__init__.py:456-484 | request line, the merged headers in order, blank line, body |
| `Request.PlainRequestText` | taurus/encarno/__init__.py:456-484 | the text of a request without body and headers of its own, written out |
| `Request.BuiltValue` | taurus/encarno/__init__.py:459-480 | each header of a built request has the value the request gives it, or else the scenario, or else the generator: host, connection, content length |
| `Request.BuiltNames` | taurus/encarno/__init__.py:459-480 | a built request has every header name once: those of the generator, then the others of the scenario, then the others of the request, in the order in which they first come |
| `Request.GetHostAndConnHeaderValues` | pkg/http/nib.go:73-98 | the loop finds what the reference scan finds, and the length of the body in bytes |
| `Request.BuiltIsFound` | pkg/http/nib.go:73-98 | parsing a built request gives the value of the last host header, whether the last connection header says to close, and exactly the body |
| `Request.AnyTextIsFound` | pkg/http/nib.go:73-98 | so in any payload, built or not: the body is what follows the first header line of less than two bytes, and host and connection are those of the last lines before it named Host or host, Connection or connection |
| `Request.NoBodyFound` | pkg/http/nib.go:73-98 | without such a line there is no body, and an unended line at the end says nothing |
| `Request.Prepare` | pkg/http/nib.go:35-39 | the placeholder is replaced by the length of the body found, exactly if the record has replacements |
| `Request.SentIsFound` | pkg/http/nib.go:35-39 | the text sent is the built one with the length of the body wherever the placeholder stood, and parses to the headers and the body so filled |
| `Request.LengthIffAscii` | taurus/encarno/__init__.py:476 | a count of characters is the count of bytes if and only if all are ASCII |
| `Request.ContentLengthRightIff` | taurus/encarno/__init__.py:472-476 | whether or not the record has replacements, the content length sent is the decimal number of the body's bytes if and only if the body refers to variables or is all ASCII |
| `Recording.BufferedConn.Receive` | pkg/http/conn.go:51-77 | one turn of the reading loop keeps length and recording in step with what was received under which limit |
| `Recording.BufferedConn.Reset` | pkg/http/conn.go:125-129 | length, recording and first read start anew; the limit stays |
| `Recording.LimitFor` | pkg/http/nib.go:51-55 | the limit is none for a response that is searched and a mebibyte otherwise, and nothing recorded is touched |
| `Recording.RecordedFrontIff` | pkg/http/conn.go:69-74 | what the loop records is at least the stream up to the first chunk over its limit, and exactly that if and only if no later chunk is within its own |
| `Recording.FrontPartIff` | pkg/http/nib.go:51-55 | over the two limits that are set, every stream is recorded as a front part if and only if no chunk comes without a limit after one with the mebibyte |
| `Recording.RecordingIsFront` | pkg/http/conn.go:51-77 | in every run of a connection, over resets, limits and chunks that wait to be taken, the recording is such a front part: all of it for a response that is searched, and otherwise all up to the chunk that goes over the mebibyte |
| `Recording.SearchedIsWhole` | pkg/http/nib.go:51-55 | in every run in which the limit was set for a response that is searched before anything was received, the recording is the whole stream |
| `Recording.OthersUpToMebibyte` | pkg/http/nib.go:51-55 | and for other responses it is the stream up to the chunk that goes over a mebibyte |

## Left out

- Rounding of floating-point numbers: schedules are over reals, times in records are carried as their 8 bytes.
- ClosedSchedule.ClosedScheduleFollowsProfile: takes whole levels that never fall; ClosedLevels has steps of any levels, one by one, and the number of workers when levels fall, which the code declares unsupported.
- OpenTermination.RampAccuracy: takes ramps from zero; OpenTermination.IntervalOfRise has the interval of every request in a step that rises from any level.
- OpenSchedule.OffsetsNeverDecrease: nanoseconds are unbounded here and 64 bits wide in the program, where an interval or an offset of more than 292 years is out of range; OpenTermination.OffsetBound bounds every offset.
- LoadTranslation.OpenLoadEndsIff: the same holds of throughputs below one request in 292 years.
- OpenTermination.ScenarioEndsIff: the sum that decides about a rising step is finite and known before the run; for a ramp from zero that lasts a millisecond or more it need not be computed for levels of at most 821 million a second or at least 822.6 million; between the two the answer depends on the slope.
- PayloadInput.RecordFoundIff: takes records whose metadata line is not empty and tells the length of their payload.
- ResultsPipeline.AllRowsRightIff: takes numbers that last, no look-up that begins with more than ten portions unread, phrases that are clean, and a copied strings file that is; a portion is read in one step.
- ResultsProgress.EveryRunCanSettle: takes items whose new strings are clean, and, at the moment it starts from, room for their numbers and no more lines than ten portions still to come.
- KpiReader.KpiReader.GetStrIndex: takes one view of the strings file for the length of a call; LiveReader lets the file grow between the portions of a look-up.
- KpiReader.KpiReader.GetLines: portions are counted in characters, and the file reader of Taurus is taken to deliver complete lines, up to the one that fills a portion; its own buffering is not part of this model.
- The scanner's limit on the length of a line, and errors of the file system.
- ConcurrentIndex.EveryRunKeepsIndex: the unlocked read of the map is taken as one atomic step, which the Go memory model does not promise.
- RegexCache.AlwaysRightIff: the cache is read and written without a lock; each look and each write is one atomic step here. Whether an expression compiles is a parameter.
- ExpressionSharing.AlwaysLiteralIff: takes names of variables that compile, as expressions and in their patterns, names of extractors that are distinct and have no space, strings that survive their file, and as many readers and workers from the beginning; the end of the input and its check of good against bad records are in PayloadInput, and the runs that go wrong lie within the first pass.
- ReplacementOrder.ReplacedRightIff: is about the expression a replacement works with, not about what it does to payload, label and address.
- Metadata.IndexedMeansLiteral: JSON and regular expressions are parameters; the semantics of replacing, extracting and asserting is not modelled.
- Request.BuildRequest: path and body come encoded; the encoding of forms and the special keys of the configuration dictionaries of Taurus are not modelled. Texts are handled by characters, lengths in UTF-8 bytes.
- Request.ContentLengthRightIff: takes the headers and the body as they are after the replacements, and a body without the placeholder of the content length.
- Engine.ScheduleIsHandedOver: time is not modelled; a sleep may end at any moment, and the cutoff is an event like an interrupt.
- Engine.NoRunStrandsIff: the input is a number of items, or endless; that it ends with the iterations of the payload file is in PayloadInput.
- ConnPool.PoolCapacity: opening a connection, TLS and deadlines are nondeterministic events; the unlocked read of the map in a return is taken as atomic. With room for no connection at all, a waiting return may still be handed to a worker that asks at that moment, which is not modelled.
- ResponseBuffers.NeverMixedIff: the bytes of a response are one piece, overwritten as a whole by those of the next; takes a pool with room for a connection.
- Recording.BufferedConn: the copy into the caller's buffer, which drops bytes when that is shorter than the chunk; one turn of the reading loop is one step.
- The LDJSON and trace outputs, the dummy driver, configuration structs, tool download, the health log and the widgets of Taurus are not modelled.
