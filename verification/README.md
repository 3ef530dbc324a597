# FM radio search and command threads, modelled in Dafny

This project models the part of the connectivity repository that decides which radio stations a phone
finds and in which order its radio commands take effect, and proves what that code promises:

- the **station scan** (`FMR_scan_Channels`): sweep, neighbour merging, noise floor, pruning, sort;
- the **seek** (`FMR_seek_Channel`) with look-ahead and cancellation, and the band settings it depends on;
- the **search command** of the HIDL service thread, which repeats seeks until it has come full circle;
- the **command queue** of the radio HAL (`new_hal`), whose worker appends to the queue it walks;
- **alternative-frequency switching**, the **autofm** command line, the Wi-Fi HAL **handler table** and the
  Wi-Fi test library's **channel record**.

Hardware, clocks and other threads are oracles: arbitrary functions of the probe, command or iteration number
stand for every driver answer, stop flag and cancel flag, so each theorem holds for whatever the device does.
Integers are unbounded; the 8-, 16- and 32-bit conversions that matter are written out, and C division is
`TruncDiv`. `dafny verify dfyconfig.toml` checks the project.

## How it is built

Code that works by changing things is imperative Dafny (loops over the work table, `Core`, `Service`, `Tuner`,
`HalInfo`, `Library` objects), proved against specifications that do not mention the loops:

- `ScanSpec` says which channels are saved, which noise samples a segment holds and which channels are pruned,
  each as a property of the readings alone. `Scan` proves the sweep's variables equal to it at every channel,
  and the report equal to *a stable sort of the unpruned stored channels* (which `ReportUnique` shows is one list).
- `SeekSpec` gives the order in which the four index loops of a seek visit channels, from any start, and lists the
  four possible endings, of which readings and stop flag allow exactly one (`EndingExists`, `EndingUnique`). From a
  start within the limits the visits are one cyclic tour, `(s + 1 + k) mod N` upward and `(s - 1 - k) mod N`
  downward (`CyclicTour`). `FmCore` proves that the code reaches that ending, with the probes, outputs and retune
  that go with it; `HalSeek` proves the HAL's own copy of the loops, with their unsigned and `int` arithmetic, equal
  to a sweep over its visiting order and, where that arithmetic is plain, to the same specification.
- Each specification is tied to single readings, answers and calls by a second, independent description: `ScanReadings`
  (rows of noise probes, descents of stations, closes and floors), `SeekReadings` (which probe ends a sweep and which
  channel of the look-ahead is taken), `SearchCoverage` (which stations a scan reaches and when it ends), `TunerMoves`
  (from which channel and in which direction every executed command moves) and the last part of `AfSwitch`.
- `AnswersExactly` says which frequencies a seek can answer over all air; `TunableSeeks` derives from it when a seek's
  answer is one that `FMR_tune` accepts.
- `SearchLoop.Run` and `TunerThread.Pass` are the loop and the queue walk on values; their termination measures
  (wraps left and distance left; a weight that counts moving commands twice) are part of what is proved.
- `ServiceWorld` puts settings, seek and search loop together: a scan command whose seeks are the core's tunes only
  frequencies that `FMR_tune` accepts, none twice before its last, under any settings with a spacing; and it tunes all
  stations that are three steps apart (`ScanCommandCovers`).

Where the code does not do what one would expect, the model follows the code and the exact condition is proved:

- A station is pruned exactly if no segment closed since its ascending run began and the next close comes and finds
  it below the floor (`PrunedExactly`); so a weak station whose run crosses a close is reported
  (`StraddlerEscapes`, `WeakStraddlerReported`). A segment border on a channel that failed or was discarded does not close the segment
  at all (`Profile.Closes`).
- At 50 kHz spacing the 200-entry result table is too small on every band, and on the wide Japanese band the
  255-slot work table too (`ResultTableSuffices`, `WorkTableSuffices`: both directions).
- A downward scan begun above the band stops at its first station; every other undisturbed scan gets round the band
  (`CoverageExactly`, both directions).
- Along stations of which none is stronger than the one before, every other one is stored (`SavedExactly`).
- An upward scan begun above a band with room for two stations can tune both twice (`RepeatConditionExact`, and
  `ScanCommandRepeats` on the core's own seeks).
- `FMR_seek` searches other limits than `FMR_tune` checks for unknown regions and for custom limits beyond 16 bits
  (`LimitsAgree`), so that a tune can refuse what a seek found. When that cannot happen is stated for one call
  (`AcceptedExactly`), for all starts within both limits (`ContainedExactly`) and for all starts that `FMR_seek`
  accepts (`TunableExactly`). An unknown region after Japan fails and one after wide Japan does not
  (`FixedTunableExactly`, `UnknownAfterJapanRefused`); a custom lower limit beyond 16 bits always fails
  (`WideLimitsRefused`). The service passes on any limits its clients give it, so 16 bits are for the clients to
  observe (`FoundIsTunable`).
- Selecting the custom region before a spacing was given makes `FMR_seek` divide by zero (`SpacingExactly`).
- The HAL's look-ahead wraps in 32 bits at either end of the numbers and can leave the band
  (`SeekInBandExactly`, for all limits in order and all spacings); and its loops visit all channels exactly when
  these number fewer than 2^31 (`AllVisitedExactly`).
- A TUNE to channel 0 queued before the opening CONFIG was applied runs under limits it was not checked against,
  unless a cancel, an accepted configuration or a close was queued before it (`HonouredExactly`, both directions).
- `requestEvent` for the vendor command, or for a command that has another handler, changes the table
  (`RequestRestoresExactly`).

## Model

| member | source | states |
|---|---|---|
| Reading.SevereDesense | fmradio/fm_hidl_service/fmr_core.cpp:382-399 | true exactly if the first fake-channel entry for the frequency has a higher threshold |
| Reading.SevereFront | fmradio/fm_hidl_service/fmr_core.cpp:382-399 | read from the front, the first entry decides if it is for the frequency, else the rest |
| ScanFacts.TableExact | fmradio/fm_hidl_service/fmr_core.cpp:787-821 | the table holds exactly the saved and uncovered channels, all acceptable, in increasing order, at least two grid steps apart |
| ScanFacts.MissingChannel | fmradio/fm_hidl_service/fmr_core.cpp:796-821 | every acceptable channel is stored, or sits right of a stored one at least as strong, or a strictly ascending run leads from it to a stored one |
| ScanFacts.HalfBound | fmradio/fm_hidl_service/fmr_core.cpp:796-821 | after n channels at most ceil(n/2) slots are used |
| ScanFacts.HalfBoundTight | fmradio/fm_hidl_service/fmr_core.cpp:796-821 | the bound is reached by alternating stations, for every n |
| ScanFacts.FloorBetween | fmradio/fm_hidl_service/fmr_core.cpp:843-849 | a computed noise floor lies between the smallest and the largest sample of its segment, also with truncating division of negative sums |
| ScanFacts.SlotAge | fmradio/fm_hidl_service/fmr_core.cpp:850-860 | the slots judged at a close are exactly those whose run of channels began after the previous close |
| ScanFacts.PrunedExactly | fmradio/fm_hidl_service/fmr_core.cpp:843-860 | a stored channel is pruned exactly if no close lies from its run's start up to it, and the first close from it on comes in time and finds it weaker than floor plus offset |
| ScanFacts.StraddlerEscapes | fmradio/fm_hidl_service/fmr_core.cpp:796-860 | a channel whose ascending run began at or before a close and passed it is never pruned |
| ScanReadings.WindowExactly | fmradio/fm_hidl_service/fmr_core.cpp:822-842 | a sample is taken at a channel exactly if it is the third of three succeeded, invalid, not desensed probes between which every probe failed |
| ScanReadings.SamplesExactly | fmradio/fm_hidl_service/fmr_core.cpp:822-842 | the samples of a segment are the middle strengths of exactly the rows completed in it, in order |
| ScanReadings.FloorExactly | fmradio/fm_hidl_service/fmr_core.cpp:843-849 | -306 without samples, else the mean of the samples truncated toward zero |
| ScanReadings.SavedExactly | fmradio/fm_hidl_service/fmr_core.cpp:787-821 | a channel is saved exactly if it is an even number of steps down a descent of stations, each at most as strong as the one before |
| ScanReadings.RunStartExactly | fmradio/fm_hidl_service/fmr_core.cpp:796-821 | the run of a saved channel is the unbroken, strictly rising stretch of saved channels that ends at it |
| ScanReadings.ClosesExactly | fmradio/fm_hidl_service/fmr_core.cpp:782-844 | a segment closes exactly on a multiple of NF_Space where the probe heard no station or the station was saved |
| ScanReadings.PrunedBelowTen | fmradio/fm_hidl_service/fmr_core.cpp:850-860 | a saved channel is pruned exactly if the first close since its run began comes at or after it and finds it less than 10 above the floor |
| Scan.NoiseFloorDetect | fmradio/fm_hidl_service/fmr_core.cpp:402-418 | fills the three-sample window and reports the third quiet sample in a row |
| Scan.NoiseSample | fmradio/fm_hidl_service/fmr_core.cpp:822-842 | adds exactly the middle sample of a window completed at this channel and keeps the last two quiet samples |
| Scan.StoreChannel | fmradio/fm_hidl_service/fmr_core.cpp:796-821 | ignores, covers or appends according to neighbour strength and severe desense |
| Scan.SlotsClose | fmradio/fm_hidl_service/fmr_core.cpp:844-860 | judging the slots since the last close gives exactly the specified verdicts |
| Scan.PruneSegment | fmradio/fm_hidl_service/fmr_core.cpp:852-858 | clears the reserve flag of exactly the slots from NF_Idx on that are weaker than floor plus offset |
| Scan.CloseSegment | fmradio/fm_hidl_service/fmr_core.cpp:844-860 | a close computes the floor of the samples since the last one and starts a new segment |
| Scan.Visit | fmradio/fm_hidl_service/fmr_core.cpp:780-861 | one iteration keeps the meaning of every variable: table, neighbour flag, window, Pacc and Nacc as sum and count of the windows completed since the last close, NF_Idx |
| Scan.RecordProbe | fmradio/fm_hidl_service/fmr_core.cpp:780-781 | a probe extends the trace by the next frequency of the grid |
| Scan.SweepLoop | fmradio/fm_hidl_service/fmr_core.cpp:773-862 | the sweep probes the grid in order up to the first channel before which the stop flag is up, and leaves the specified table if there is none |
| Scan.CompactSlot | fmradio/fm_hidl_service/fmr_core.cpp:893-901 | a reserved slot is divided at 100 kHz spacing and written at the next result, an unreserved one skipped |
| Scan.Compact | fmradio/fm_hidl_service/fmr_core.cpp:892-903 | writes the reserved slots' frequencies in table order and leaves the rest of the output |
| Scan.ScanChannels | fmradio/fm_hidl_service/fmr_core.cpp:753-907 | result code, count, table and frequencies probed for a stopped, an empty and a successful scan; the table is a stable sort of the unpruned stored channels; for all air that does not overflow the tables |
| ScanSort.InsertOne | fmradio/fm_hidl_service/fmr_core.cpp:878-883 | one insertion extends the ordered prefix and keeps every strength class in order |
| ScanSort.SortSlots | fmradio/fm_hidl_service/fmr_core.cpp:870-890 | the table is stably sorted by strength, up or down, or left alone |
| ScanSort.StableSortPermutes | fmradio/fm_hidl_service/fmr_core.cpp:877-884 | a stable sort is a permutation |
| ScanSort.StableSortUnique | fmradio/fm_hidl_service/fmr_core.cpp:877-884 | order and stability determine the sorted table |
| ScanSort.SortedMeans | fmradio/fm_hidl_service/fmr_core.cpp:877-884 | strengths rise in the order UP, fall in the order DOWN and stay in place unsorted |
| ScanReport.ReportExact | fmradio/fm_hidl_service/fmr_core.cpp:892-903 | a frequency is reported exactly if its channel was stored and not pruned |
| ScanReport.ReportUnique | fmradio/fm_hidl_service/fmr_core.cpp:870-903 | the report is determined by readings and sort order |
| ScanReport.WeakStraddlerReported | fmradio/fm_hidl_service/fmr_core.cpp:796-860 | a concrete band in which a station far below its floor is reported |
| ScanReport.GridInBand | fmradio/fm_hidl_service/fmr_core.cpp:917-937 | every grid stays in its band, ends within a step of its upper limit and has segments |
| ScanReport.UnitLossless | fmradio/fm_hidl_service/fmr_core.cpp:895-896 | the division by ten at 100 kHz spacing loses nothing |
| ScanReport.WorkTableSuffices | fmradio/fm_hidl_service/fmr_core.cpp:759-770 | 255 slots suffice for all readings exactly off the 50 kHz wide Japanese grid |
| ScanReport.ResultTableSuffices | fmradio/fm_hidl_service/fm_hidl_service.h:42 | 200 results suffice for all readings exactly when the spacing is not 50 kHz |
| ScanReport.AlwaysFits | fmradio/fm_hidl_service/fmr_core.cpp:917-937 | off the 50 kHz grids no air overflows the work or the result table |
| ScanReport.SweepExactly | fmradio/fm_hidl_service/fmr_core.cpp:909-942 | start, spacing and end of the sweep under any settings; the custom ones have no part in it |
| Bands.LimitsAgree | fmradio/fm_hidl_service/fmr_core.cpp:71-113 | after any setter calls, the exact condition for FMR_seek to search the limits FMR_get_band_boundary reports |
| Bands.LimitsDisagree | fmradio/fm_hidl_service/fmr_core.cpp:71-113 | region Japan and then an unknown region leave limits that FMR_seek does not search |
| Bands.ReportedLimits | fmradio/fm_hidl_service/fmr_core.cpp:71-113 | after any setter calls, the limits of the last fixed region are reported, or in the custom region those given last |
| Bands.FiveSegments | fmradio/fm_hidl_service/fmr_core.cpp:917-937 | spacing, segment length and last channel of every grid: five segments, and two channels over in Europe at 200 kHz |
| Bands.ServiceLimitsAgree | fmradio/fm_hidl_service/fm_hidl_service.cpp:213-226 | with the regions the service passes and limits that clients keep within 16 bits they always agree |
| FmCore.Core.Set | fmradio/fm_hidl_service/fmr_core.cpp:71-101 | the setters change the settings as on values |
| FmCore.Core.TuneTo | fmradio/fm_hidl_service/fmr_core.cpp:348-368 | rejects frequencies outside the reported limits without effect; otherwise commands the device and remembers the frequency even if the driver fails |
| FmCore.Core.TuneCheck | fmradio/fm_hidl_service/fmr_core.cpp:425-453 | either sees the stop flag and retunes, or probes once and judges acceptability |
| FmCore.Core.LookAhead | fmradio/fm_hidl_service/fmr_core.cpp:475-485 | one look-ahead probe replaces the best channel exactly if it is acceptable and stronger, or stops |
| FmCore.Core.SeekMore | fmradio/fm_hidl_service/fmr_core.cpp:457-489 | returns the strongest acceptable of the found channel and up to two in-band steps, earliest on ties; or stops with nothing changed |
| FmCore.Core.TryChannel | fmradio/fm_hidl_service/fmr_core.cpp:503-523 | one visit: goes on in vain, or ends the seek as specified |
| FmCore.Core.SweepUp | fmradio/fm_hidl_service/fmr_core.cpp:502-547 | an ascending index loop makes its stretch of the visits, none if the bounds have crossed, and ends as specified |
| FmCore.Core.SweepDown | fmradio/fm_hidl_service/fmr_core.cpp:549-594 | a descending index loop likewise |
| FmCore.Core.SeekChannel | fmradio/fm_hidl_service/fmr_core.cpp:495-599 | from any start, the four loops reach an ending of the specification with its outputs, probes in order, and a retune exactly when stopped |
| FmCore.Core.Seek | fmradio/fm_hidl_service/fmr_core.cpp:601-651 | rejects starts outside the reported limits without effect; from any other start, within the searched limits or not, reaches the one ending its readings allow; a stop leaves output and current frequency; at most two probes beyond the visits and one retune |
| FmCore.Core.ScanBand | fmradio/fm_hidl_service/fmr_core.cpp:909-942 | the scan on the grid of the settings, with the probes in order as made and the restore and retune commands that follow a stop; for all air that does not overflow the tables |
| SeekSpec.EndingUnique | fmradio/fm_hidl_service/fmr_core.cpp:495-599 | readings and stop flag determine the ending |
| SeekSpec.EndingExists | fmradio/fm_hidl_service/fmr_core.cpp:495-599 | every reading and stop flag leads to an ending |
| SeekReadings.SweepExactly | fmradio/fm_hidl_service/fmr_core.cpp:495-599 | the sweep ends at the first unstopped probe that hears an acceptable station, other than the one 50 kHz from the start at that spacing; at a stop before it; or in vain: each exactly if |
| SeekReadings.ChoiceExactly | fmradio/fm_hidl_service/fmr_core.cpp:457-489 | which of the found channel and the next two within the limit is taken, from their readings alone |
| SeekReadings.StoppedAheadMeans | fmradio/fm_hidl_service/fmr_core.cpp:457-489 | a look-ahead is stopped before a channel within the limit |
| SeekSpec.ProbeBound | fmradio/fm_hidl_service/fmr_core.cpp:495-599 | no seek makes more than two probes beyond its visits, from within limits of N channels N+1 |
| SeekSpec.CyclicTour | fmradio/fm_hidl_service/fmr_core.cpp:501-595 | from a start within the limits, the two loops of a direction go round the grid from the index next to the start |
| SeekSpec.VisitsAreATour | fmradio/fm_hidl_service/fmr_core.cpp:501-595 | from any start the visits are exactly the indices between it and either end, each once; within the limits these are all but the start's own |
| SeekSpec.AnswerOnGrid | fmradio/fm_hidl_service/fmr_core.cpp:515-518 | a found answer is acceptable; from a start within the limits it is on the grid, and any answer in the band |
| SeekSpec.AnswersExactly | fmradio/fm_hidl_service/fmr_core.cpp:457-599 | over all air and stop flags, a seek from any start can answer exactly the start and the frequencies its visits and their look-aheads lead to |
| TunableSeeks.AcceptedExactly | fmradio/fm_hidl_service/fmr_core.cpp:601-651 | for one start and direction, all answers pass FMR_tune's range check on any air exactly if all reachable frequencies do |
| TunableSeeks.ContainedExactly | fmradio/fm_hidl_service/fmr_core.cpp:601-651 | all starts within both limits get only answers that FMR_tune accepts exactly if there is no such start, or a single channel, or the grid lies within the reported limits |
| TunableSeeks.TunableExactly | fmradio/fm_hidl_service/fmr_core.cpp:601-651 | all starts that FMR_seek accepts get only answers that FMR_tune accepts exactly if no start is accepted or all indices visited from the two reported limits have frequencies within them |
| TunableSeeks.FixedTunableExactly | fmradio/fm_hidl_service/fmr_core.cpp:71-113 | after any setter calls that end outside the custom region, that holds exactly for fixed regions and for unknown ones whose last fixed region was not Japan |
| TunableSeeks.WideLimitsRefused | fmradio/fm_hidl_service/fmr_core.cpp:636-641 | with a custom lower limit beyond 16 bits FMR_tune refuses every answer but the start, and from every start there is air with such an answer |
| TunableSeeks.UnknownAfterJapanRefused | fmradio/fm_hidl_service/fmr_core.cpp:78-94 | after Japan and an unknown region, a seek from 90 MHz can find the last European channel, which FMR_tune refuses |
| SearchLoop.IterateAdvances | fmradio/fm_hidl_service/fm_hidl_service.cpp:643-721 | an iteration that does not end the scan wraps or comes closer to the end of the numbers, whatever seeks answer and whatever other clients do to the limits |
| SearchLoop.NoStationTwice | fmradio/fm_hidl_service/fm_hidl_service.cpp:693-721 | while the limits stay, all stations but the last are pairwise distinct and differ from the original frequency, unless an upward scan began above a band with room for two |
| SearchLoop.ToAndFroRepeats | fmradio/fm_hidl_service/fm_hidl_service.cpp:635-721 | any undisturbed upward scan begun above the band whose seeks go to and fro between two stations tunes both twice |
| SearchLoop.ScanFromAboveRepeats | fmradio/fm_hidl_service/fm_hidl_service.cpp:635-638 | whenever two nonzero frequencies fit in the band, there is such a world |
| SearchLoop.RepeatConditionExact | fmradio/fm_hidl_service/fm_hidl_service.cpp:693-721 | that condition is exact, for all int limits and original frequencies |
| SearchLoop.TunedToLast | fmradio/fm_hidl_service/fm_hidl_service.cpp:663-681 | left to itself, the search leaves the last station tuned, or the original frequency if there was none |
| SearchLoop.EndsSafely | fmradio/fm_hidl_service/fm_hidl_service.cpp:663-681 | whatever other clients do, the search stays muted only when not tuned; while the limits stay, every station is in the band |
| SearchLoop.Service.SeekOnce | fmradio/fm_hidl_service/fm_hidl_service.cpp:645-681 | seek, tune, retune and mute of one iteration |
| SearchLoop.CountWraps | fmradio/fm_hidl_service/fm_hidl_service.cpp:693-720 | wrap counting and completion test of one iteration |
| SearchLoop.Service.Search | fmradio/fm_hidl_service/fm_hidl_service.cpp:610-740 | the loop terminates and leaves the service in the state of the specified run, also with limits out of order or changed meanwhile and with other clients writing the tuned frequency |
| SearchCoverage.CoverageExactly | fmradio/fm_hidl_service/fm_hidl_service.cpp:635-721 | an undisturbed scan whose seeks go from station to station tunes every one but the original frequency exactly when it does not go downward from above the band or there is at most one |
| SearchCoverage.DownFromAbove | fmradio/fm_hidl_service/fm_hidl_service.cpp:704-706 | downward from above the band it tunes just the topmost station |
| SearchCoverage.OneStation | fmradio/fm_hidl_service/fm_hidl_service.cpp:643-721 | an iteration of such a scan tunes the next station and ends it exactly on the start, the original frequency, beyond it after a wrap, or at the second wrap |
| SearchCoverage.LastIteration | fmradio/fm_hidl_service/fm_hidl_service.cpp:683-721 | in any world, the exact condition on frequencies, cancel flags and service state for an iteration to be the last |
| SearchCoverage.SeekCommand | fmradio/fm_hidl_service/fm_hidl_service.cpp:610-681 | a seek command makes one seek and ends on what it found, back on the current frequency, or muted and untuned |
| SearchCoverage.EndsAudible | fmradio/fm_hidl_service/fm_hidl_service.cpp:663-681 | if tuning back always works, a search ends unmuted, and tuned if it was or found a station |
| ServiceWorld.CoreSeeksSuffice | fmradio/fm_hidl_service/fm_hidl_service.cpp:643-662 | seeks and tunes of the tuner core meet everything the search loop relies on, under any settings with a spacing |
| ServiceWorld.FoundIsTunable | fmradio/fm_hidl_service/fmr_core.cpp:601-651 | after any calls of the service whose clients kept to 16-bit limits, a frequency a seek found is one FMR_tune accepts |
| ServiceWorld.SpacingExactly | fmradio/fm_hidl_service/fm_hidl_service.cpp:213-246 | after any calls of the service FMR_seek has a nonzero spacing exactly if the region is not the custom one or a client gave a spacing |
| ServiceWorld.ScanCommand | fmradio/fm_hidl_service/fm_hidl_service.cpp:610-740 | a scan command over such seeks tunes only frequencies that FMR_tune accepts and none twice before its last, unless it began above the band |
| ServiceWorld.ScanCommandRepeats | fmradio/fm_hidl_service/fm_hidl_service.cpp:610-740 | under any settings with two channels that do not count as one, the core's seeks on air with a station at each end make a scan begun above the band tune both twice |
| ServiceWorld.SeekToNext | fmradio/fm_hidl_service/fmr_core.cpp:495-599 | on air with stations three steps apart, a seek from a channel of the grid goes to the next station in its direction, or to the first from the other end |
| ServiceWorld.ScanCommandCovers | fmradio/fm_hidl_service/fm_hidl_service.cpp:610-740 | so a scan command over the core's seeks tunes all of them but the original frequency, exactly when it does not go downward from above the band or there is at most one |
| HalSeek.StepInBand | fmradio/new_hal/radio_hw_hal.c:366-376 | a step lands in the band from any channel and with any spacing, through any 32-bit wrap-around; from inside the band it moves one spacing or goes round |
| HalSeek.SeekMore | fmradio/new_hal/fmr_core.c:363-406 | the look-ahead loop computes the specified look-ahead in unsigned arithmetic |
| HalSeek.TryIndex | fmradio/new_hal/fmr_core.c:443-470 | one visit ends the seek as specified or goes on with the next |
| HalSeek.LoopUp | fmradio/new_hal/fmr_core.c:441-501 | an ascending loop over int bounds makes its stretch of the visits, none if the bounds have crossed |
| HalSeek.LoopDown | fmradio/new_hal/fmr_core.c:504-564 | a descending loop likewise |
| HalSeek.SeekUpward | fmradio/new_hal/fmr_core.c:439-502 | the two loops of an upward seek sweep its whole visiting order |
| HalSeek.SeekDownward | fmradio/new_hal/fmr_core.c:503-565 | the two loops of a downward seek sweep its whole visiting order |
| HalSeek.FmrSeek | fmradio/new_hal/fmr_core.c:412-567 | checks of start and channel count and the loops give the outcome of the sweep from the start, replaced by the lower limit if out of band; a count of zero in 32 bits fails |
| HalSeek.LoopsMakeTheTour | fmradio/new_hal/fmr_core.c:441-564 | with fewer than 2^31 channels the visiting order is the cyclic tour of the seek specification |
| HalSeek.AllVisitedExactly | fmradio/new_hal/fmr_core.c:430-441 | every seek visits all channels but its start exactly if they number fewer than 2^31 |
| HalSeek.SeekEnds | fmradio/new_hal/fmr_core.c:412-567 | where step and bounds do not wrap, the seek gives the one ending of the seek specification, finding nothing being a failure |
| HalSeek.SweepInBand | fmradio/new_hal/fmr_core.c:412-567 | a seek ends in the band from any visit on if the look-ahead ahead of it does not wrap to the outside, also when the loop bounds overflow |
| HalSeek.DownLeaves | fmradio/new_hal/fmr_core.c:380-387 | a backward seek that leaves the band by unsigned underflow |
| HalSeek.UpLeavesTop | fmradio/new_hal/fmr_core.c:372-379 | an upward seek that leaves the band by unsigned overflow from its last channel |
| HalSeek.UpLeavesFull | fmradio/new_hal/fmr_core.c:372-379 | the same with 2^31 channels, where the loops reach only the channel before the last |
| HalSeek.SeekInBandExactly | fmradio/new_hal/fmr_core.c:363-567 | for all limits in order and all spacings, every seek ends in the band exactly if there is a single channel, or neither the 8-bit look-ahead step up from the last channel nor the one down from the first wraps round to the outside |
| TunerThread.PassConserves | fmradio/new_hal/radio_hw_hal.c:320-348 | what left the queue in a pass plus what remains is the queue plus one CHECK_RDS per executed and tuned STEP, SEEK or TUNE, in FIFO order |
| TunerThread.PassDrops | fmradio/new_hal/radio_hw_hal.c:323-329 | a command is dropped exactly if it is none of CONFIG, CANCEL and EXIT and a CANCEL preceded it in the pass |
| TunerThread.PassLeaves | fmradio/new_hal/radio_hw_hal.c:320-348 | a pass without EXIT leaves nothing or one CHECK_RDS |
| TunerThread.PassConfig | fmradio/new_hal/radio_hw_hal.c:323-347 | no CANCEL loses a CONFIG: a pass leaves the last queued configuration |
| TunerThread.TwoPassesDrain | fmradio/new_hal/radio_hw_hal.c:307-349 | two passes empty any queue without EXIT although the worker appends to it |
| TunerThread.RunConserves | fmradio/new_hal/radio_hw_hal.c:155-349 | over any run of calls and passes, every command ever queued has left the queue exactly once or is still in it, in FIFO order |
| TunerThread.DoSafe | fmradio/new_hal/radio_hw_hal.c:559-670 | every API call and every pass keeps each queued CONFIG behind a CANCEL and each queued TUNE checked against the current limits |
| TunerThread.RunSafe | fmradio/new_hal/radio_hw_hal.c:301-670 | so does every run from a safe state |
| TunerThread.TunesHonoured | fmradio/new_hal/radio_hw_hal.c:649-656 | in every run after the opening CONFIG was applied, an executed TUNE runs under the limits it was checked against |
| TunerThread.ForeignPass | fmradio/new_hal/radio_hw_hal.c:320-434 | a pass under other limits honours the queued TUNEs exactly if each of them stands behind a CANCEL or EXIT |
| TunerThread.HonouredExactly | fmradio/new_hal/radio_hw_hal.c:301-670 | over every run from the opening, all executed TUNEs run under the limits they were checked against exactly if the opening limits are zero, or no TUNE 0 comes before the first pass, cancel, accepted configuration or close and then meets a pass |
| TunerThread.EarlyTuneFails | fmradio/new_hal/radio_hw_hal.c:649-656 | TUNE 0 right after opening under any other limits, and then a pass, is such a failing run |
| TunerThread.MovesInBand | fmradio/new_hal/radio_hw_hal.c:361-434 | one executed SEEK of a contained band, or STEP whose tune succeeds, leaves the program channel within the limits |
| TunerThread.RunInBand | fmradio/new_hal/radio_hw_hal.c:301-670 | so does every one of them in every run from the opening, with 32-bit limits in order |
| TunerThread.TunedInBand | fmradio/new_hal/radio_hw_hal.c:301-670 | in every run with contained bands only and no TUNE too early, every STEP, SEEK or TUNE that leaves the tuner tuned leaves it on a channel within the limits in force |
| TunerMoves.SeekComesTo | fmradio/new_hal/fmr_core.c:412-567 | a seek comes to the first station in its direction, n spacings along, if nothing stronger is heard right after it |
| TunerMoves.SeekStays | fmradio/new_hal/fmr_core.c:412-567 | without stations, or stopped at once, it stays where it began, which for an outside channel is the lower limit |
| TunerMoves.RunMoves | fmradio/new_hal/radio_hw_hal.c:301-549 | over every run each command starts from the channel the one before left, and an executed STEP, SEEK or TUNE goes in its own direction to its own place; nothing else moves the channel |
| TunerMoves.RunTunes | fmradio/new_hal/radio_hw_hal.c:361-507 | the tuned flag is what the last executed move left, and false before any |
| TunerMoves.CallTakesEffect | fmradio/new_hal/radio_hw_hal.c:613-670 | on an idle tuner every call is the first thing the next pass executes, and a move queues CHECK_RDS exactly if tuned |
| TunerMoves.ConfigurationTakesEffect | fmradio/new_hal/radio_hw_hal.c:559-581 | an accepted configuration holds after the next pass, whatever is queued before it |
| TunerMoves.CloseTakesEffect | fmradio/new_hal/radio_hw_hal.c:812-817 | closing ends the thread in its next pass, whatever is queued before it |
| TunerHal.Tuner.constructor | fmradio/new_hal/radio_hw_hal.c:770-781 | the opened tuner: zeroed, with the opening CONFIG queued |
| TunerHal.Tuner.SendCommand | fmradio/new_hal/radio_hw_hal.c:155-189 | appends to the queue |
| TunerHal.Tuner.SetConfiguration | fmradio/new_hal/radio_hw_hal.c:559-581 | queues CANCEL and CONFIG together, or rejects limits out of order |
| TunerHal.Tuner.GetConfiguration | fmradio/new_hal/radio_hw_hal.c:583-611 | returns the configuration the tuner will hold after draining its queue, whatever the hardware does |
| TunerHal.Tuner.TuneTo | fmradio/new_hal/radio_hw_hal.c:641-658 | queues a TUNE exactly if the channel is within the current limits |
| TunerHal.Tuner.Request | fmradio/new_hal/radio_hw_hal.c:613-670 | queues STEP, SEEK, CANCEL, SHOW_RDS and EXIT |
| TunerHal.Tuner.Perform | fmradio/new_hal/radio_hw_hal.c:345-507 | executes one command on configuration, channel and tuned flag, a SEEK by the loops of FMR_seek |
| TunerHal.Tuner.HandleHead | fmradio/new_hal/radio_hw_hal.c:321-547 | takes the head off the queue and drops or executes it |
| TunerHal.Tuner.Work | fmradio/new_hal/radio_hw_hal.c:312-348 | one pass leaves the state and log of the specified pass |
| AfSwitch.QueryPi | fmradio/fm_hidl_service/common.cpp:654-663 | the PI of the first of five successful reads, else 0 |
| AfSwitch.CandidatesExact | fmradio/fm_hidl_service/common.cpp:611-633 | the candidates are exactly the listed, in-band, valid entries, in list order |
| AfSwitch.Precheck | fmradio/fm_hidl_service/common.cpp:611-633 | builds the candidates' list with one soft-mute tune for each listed entry in the band |
| AfSwitch.TryCandidate | fmradio/fm_hidl_service/common.cpp:638-679 | skips the current station, mutes and tunes to any other, and judges it |
| AfSwitch.TryCandidates | fmradio/fm_hidl_service/common.cpp:635-681 | stops at the first candidate that differs, exceeds the bound and has the PI; a mute and a tune for each one tried, in order |
| AfSwitch.ActiveAf | fmradio/fm_hidl_service/common.cpp:560-700 | no command without four weak reads; otherwise ends tuned to the first better candidate or the original frequency, and unmuted, with exactly the commands of the checks and tries before |
| AfSwitch.SwitchMeans | fmradio/fm_hidl_service/common.cpp:595-697 | a switch goes to a listed, in-band, valid, strong candidate on which a nonzero original PI was really received |
| AfSwitch.LeadsUnique | fmradio/fm_hidl_service/common.cpp:635-691 | the answers determine where it ends |
| AfSwitch.WeakExactly | fmradio/fm_hidl_service/common.cpp:595-607 | a station is weak exactly if four reads in a row are below 8 |
| AfSwitch.ListExactly | fmradio/fm_hidl_service/common.cpp:609-633 | the candidates are exactly the entries below the count and below 25 that are in the band as unsigned 16-bit numbers and valid |
| AfSwitch.AnnouncesExactly | fmradio/fm_hidl_service/common.cpp:495-532 | a candidate's PI is that of the first of five RDS logs that was read, not empty and agrees in both copies, or 0 |
| AfSwitch.SwitchExactly | fmradio/fm_hidl_service/common.cpp:595-697 | a weak station leads to a frequency exactly if that is the first candidate other than the current one with PAMD above 12 and the PI asked for, or itself if there is none or it is frequency 0 |
| AutoFm.Dispatch | fmradio/autofm/autofm.c:2046-2123 | the state machine makes exactly the wanted calls in order |
| AutoFm.WantedExact | fmradio/autofm/autofm.c:2046-2123 | a handler is wanted exactly for command words immediately followed by their declared number of non-command words, with those as parameters, once, in order |
| AutoFm.TokensOfJoin | fmradio/autofm/autofm.c:388-426 | tokenising words joined by spaces and ended by a newline gives the words back |
| AutoFm.TokensExactly | fmradio/autofm/autofm.c:388-426 | any text piece by piece: blanks are skipped, a word counts if something ends it |
| AutoFm.PrintableRange | fmradio/autofm/autofm.c:197-209 | words consist of the characters 33 to 126 |
| AutoFm.FindWord | fmradio/autofm/autofm.c:395-424 | finds the next terminated printable word or none |
| AutoFm.CmdParser | fmradio/autofm/autofm.c:388-426 | ends that word with a NUL in the buffer and leaves every other character |
| AutoFm.ReadWords | fmradio/autofm/autofm.c:2046-2047 | the word loop yields all tokens of the line |
| HandlerTable.HalInfo.Register | wlan/wifi_hal/common.cpp:52-101 | appends unless the table is full |
| HandlerTable.HalInfo.MoveDown | wlan/wifi_hal/common.cpp:119-120 | memmove removes entry i and keeps the order of the rest |
| HandlerTable.HalInfo.Unregister | wlan/wifi_hal/common.cpp:103-150 | removes the first matching handler; refuses the vendor command |
| HandlerTable.HalError | wlan/wifi_hal/cpp_bindings.cpp:586-606 | kernel errors and only they become negative codes |
| HandlerTable.HalErrorDistinct | wlan/wifi_hal/cpp_bindings.cpp:586-606 | the six known errors are told apart and all others are the unknown one |
| HandlerTable.KeysDistinct | wlan/wifi_hal/common.cpp:103-150 | a removable key matches just the handlers registered under it |
| HandlerTable.HalInfo.Request | wlan/wifi_hal/cpp_bindings.cpp:651-706 | every exit path has registered and unregistered, or failed on a full table; which error it returns, negative exactly if a step failed |
| HandlerTable.RequestTransparent | wlan/wifi_hal/cpp_bindings.cpp:651-706 | a request for a key without other handler leaves the table as if never made, whatever others register and remove while it waits |
| HandlerTable.RequestRestoresExactly | wlan/wifi_hal/cpp_bindings.cpp:651-706 | the exact condition for an undisturbed request to leave the table as found |
| WifiChannel.AlwaysConsistent | wlan/libwifitest/libwifitest.c:2265-2363 | in every reachable state, once a frequency was accepted and the record says PRIMARY, that frequency is the centre for the recorded channel and bandwidth |
| WifiChannel.BandwidthRecentres | wlan/libwifitest/libwifitest.c:1474-1485 | a bandwidth change keeps the primary channel, and the record follows exactly if the re-tune is possible and accepted |
| WifiChannel.ChannelRoundTrip | wlan/libwifitest/libwifitest.c:1546-1560 | a channel number comes back from its own frequency exactly for channels 1 to 14 and 36 to 165 |
| WifiChannel.CentreOffsets | wlan/libwifitest/libwifitest.c:2274-2290 | from channel 36 the centres lie 10, 20 and 40 MHz higher at 40, 80 and 160 MHz |
| WifiChannel.FrequencyOfChannel | wlan/libwifitest/libwifitest.c:1533-1574 | setting the frequency of a channel records the same as setting the channel |
| WifiChannel.Library.SetChannel | wlan/libwifitest/libwifitest.c:2323-2363 | records a centre channel exactly if it exists and the driver takes it |
| WifiChannel.Library.SetPrimary | wlan/libwifitest/libwifitest.c:2265-2320 | succeeds exactly if a centre exists and the driver takes it, and then records a primary channel tuned at its centre |
| WifiChannel.Library.ChangeBandwidth | wlan/libwifitest/libwifitest.c:1438-1489 | changes the bandwidth and re-tunes a primary channel recorded under another one |
| WifiChannel.Library.ChangeFrequency | wlan/libwifitest/libwifitest.c:1533-1574 | records the centre channel of an accepted frequency |

## Left out

- Driver access (ioctl, open, read, sleep) and logging: replaced by oracles and recorded device commands.
- 32-bit overflow of the noise sum Pacc: sums of at most 641 readings, taken as unbounded.
- `fmradio/fm_tx`: a near copy of the search core without the desense callback.
- FmCore.Core.Seek: does not cover a custom spacing that is 0 in 8 bits, where the source divides by zero (SpacingExactly says when the service lets that happen), nor int overflow for starts within 2^16 of the int limits.
- FmCore.Core.ScanBand: does not cover air with more stations than the tables hold, where the source writes past them (WorkTableSuffices and ResultTableSuffices say on which grids such air exists).
- Scan.ScanChannels: the same; and the work table is a fresh array instead of a static one that is cleared on entry.
- `FMR_seek` of new_hal: its retune after a stop and the reported signal strength are not modelled; with a zero spacing, where it divides by zero, or with limits out of order, which only the opening configuration can hold, its result is arbitrary.
- SearchLoop.Service.Search: takes the cancel flag as staying up until the search ends; RDS switching and callbacks are left out.
- TunerHal.Tuner.SendCommand: does not model a failed allocation, which loses the command.
- Callbacks into the client, RDS metadata, stereo and signal-strength fields of the HAL tuner: they do not feed back into the queue or the channel.
- Traffic-announcement switching: its loop tunes the current choice instead of the candidate, so it decides no choice of station.
- autofm's command handlers, and its `trim_string`, which changes nothing on words of printable characters.
- HandlerTable: the command table of the Wi-Fi HAL, which is the same bounded sequence with other keys; the vendor command number and the error codes come from headers that are not part of this model, and only the signs of the codes matter.
- combo_tool, gps, flp, wapi, loopback and the hardware test tools: device polling and forwarding with easy properties only.
