# MidiRecorder core, modelled in Dafny

MidiRecorder listens to one or more MIDI inputs and saves what is played into
Standard MIDI Files. It cuts the live stream into takes at the moments the
player stops. This project models the parts of the recorder that decide
things, and proves properties of them:

- **The take splitter** (`MidiSplitter.Split`). It is a pipeline of reactive
  operators over the received events:
  - a clamped running count of held notes and sustain pedals;
  - timeout markers for notes held too long;
  - the adjusted count, with a 0 injected at each timeout;
  - release markers, and their debounced saving points;
  - the windows between saving points.

  Time is integer ticks. A finite event list stands for the prefix of a stream
  that never completes. `TimedStreams` gives Where, Select, Throttle, Merge,
  DistinctUntilChanged and Window as sequence functions, and states their tie
  rules:
  - Throttle emits a value `d` ticks after it arrived when no newer value
    arrived in `(t, t + d]`; a newer value exactly at `t + d` cancels it,
    which is the scheduler's order only when that value comes from an event
    (see "## Left out");
  - an event at the same tick as a saving point belongs to the window that
    this saving point closes;
  - on equal times Merge puts the left stream first.

  The four string scenarios of the splitter's unit tests are evaluated stage by
  stage (`SplitterScenarios`).
- **The event classifier** (`NAudioMidiEventAnalyzer`). It gives the held-delta
  of an NAudio event: +1, -1 or 0.
- **Per-note durations** (`NoteDuration.CalculateDurations`). Each event gets
  the time since the previous note-on or note-off with the same note number.
  A recursive function carries a map from note number to last time. A
  reference definition by indices checks it.
- **The path-template translator** (`TranslateToStandardFormatString`). Its two
  copies, in `StringExt` and `StringEx`, are each a character loop. Both are
  proved equal to one functional state machine (`FormatTemplate`), and the
  properties are proved about that machine.
- **The format data objects** (two versions). Each is a class with a memo
  store that `Memoize` updates in place. `Equals` and `GetHashCode` compare
  Now, NumberOfEvents and Guid.
- **The three track builders.** Each groups events into one track per channel,
  or per (port, channel). The tracks come in ascending key order, and each
  ends with an End of Track meta event (FF 2F 00 in Standard MIDI Files 1.0),
  one tick after its last event. The NAudio version first rebases the event
  times in place on the first event's time. The command-line version writes
  the delta-times of every track in place.
- **The stable priority queue** (`RealPriorityQueue`). It is a min-priority
  queue whose ties on priority are broken by a timestamp.
- **Input selection and options validation.** Input selection is the rule
  that turns a requested input name into device indices: `*`, an index, or a
  case-insensitive name. Options validation resolves and de-duplicates the
  inputs and builds `TypedRecordOptions`. The command-line service's
  `StartRecording` runs up to the point where ports would be opened. Its
  quiet-gap split uses Throttle and Window.

The device list, the current time, the Guid, the stopwatch stamps, the format
test and the hash combiner are parameters. The tests and scenarios are written
as lemmas on concrete inputs.

## Model

| member | source | states |
|---|---|---|
| TimedStreams.Where | src/Application/MidiSplitter.cs:54 | the filtered stream is no longer than its input |
| TimedStreams.WhereMembers | src/Application/MidiSplitter.cs:54 | an element is kept iff it is in the input and satisfies the predicate |
| TimedStreams.WhereAppend | src/Application/MidiSplitter.cs:54 | filtering distributes over concatenation |
| TimedStreams.WhereChronological | src/Application/MidiSplitter.cs:54 | filtering keeps a stream in time order |
| TimedStreams.Select | src/Application/MidiSplitter.cs:53 | one output per input, at the input's time, carrying the mapped value |
| TimedStreams.SelectChronological | src/Application/MidiSplitter.cs:53 | mapping keeps a stream in time order |
| TimedStreams.Throttle | src/Application/MidiSplitter.cs:60 | a throttled stream is no longer than its input |
| TimedStreams.ThrottleEmits | src/Application/MidiSplitter.cs:60 | throttle emits a value at t+d iff it arrived at t and nothing else arrived within d ticks after it (or it is the last) |
| TimedStreams.ThrottleChronological | src/Application/MidiSplitter.cs:60 | throttling keeps a stream in time order |
| TimedStreams.ThrottleEmitsLast | src/Application/MidiSplitter.cs:76-77 | the last value of a stream that never completes is always emitted, d ticks later |
| TimedStreams.Merge | src/Application/MidiSplitter.cs:67 | the merge has as many elements as both inputs together |
| TimedStreams.MergePermutes | src/Application/MidiSplitter.cs:67 | the merge is a permutation of the union of the inputs: nothing lost, nothing invented |
| TimedStreams.MergePrefix | src/Application/MidiSplitter.cs:67 | left elements that arrive no later than every right element come first, in order |
| TimedStreams.MergeMembers | src/Application/MidiSplitter.cs:67 | an element is in the merge iff it is in one of the inputs |
| TimedStreams.MergeChronological | src/Application/MidiSplitter.cs:67 | merging two time-ordered streams gives a time-ordered stream |
| TimedStreams.DistinctAfter | src/Application/MidiSplitter.cs:68 | the result holds only input elements, has no two consecutive equal values, and does not start with the last value seen |
| TimedStreams.DistinctAfterKeepsRepeatFree | src/Application/MidiSplitter.cs:68 | a stream without consecutive repeats passes through unchanged |
| TimedStreams.DistinctUntilChangedIdempotent | src/Application/MidiSplitter.cs:68 | applying DistinctUntilChanged twice is applying it once |
| TimedStreams.DistinctAfterKeepsChanges | src/Application/MidiSplitter.cs:68 | every element that differs from its predecessor survives |
| TimedStreams.DistinctAfterChronological | src/Application/MidiSplitter.cs:68 | removing repeats keeps a stream in time order |
| TimedStreams.CountThrough | src/Application/MidiSplitter.cs:82 | the length of the longest prefix of elements at or before tick t |
| TimedStreams.AfterCountThrough | src/Application/MidiSplitter.cs:82 | in a time-ordered stream every element after that prefix is later than t |
| TimedStreams.Window | src/Application/MidiSplitter.cs:82 | one window more than boundaries; the windows concatenated give the input back; every windowed element is an input element |
| TimedStreams.ChronologicalSuffix | src/Application/MidiSplitter.cs:82 | a suffix of a time-ordered stream is time-ordered |
| TimedStreams.BeforeCountThrough | src/Application/MidiSplitter.cs:82 | every value before the cut of the first window arrives by its boundary |
| TimedStreams.WindowFirst | src/Application/MidiSplitter.cs:82 | when a arrives by the first boundary and b starts after it, the first window of a + b is a and the rest are the windows of b |
| TimedStreams.FlattenAfter | src/Application/MidiSplitter.cs:82 | a lower time bound kept by every group holds for their concatenation |
| TimedStreams.SeparatedRest | src/Application/MidiSplitter.cs:82 | dropping the first group and boundary keeps groups separated, and all later values arrive after the first boundary |
| TimedStreams.WindowOfSeparated | src/Application/MidiSplitter.cs:82 | windowing undoes concatenation: groups separated by chronological boundaries are exactly the windows of their concatenation |
| TimedStreams.WindowUpperBound | src/Application/MidiSplitter.cs:82 | window k holds no element later than boundary k |
| TimedStreams.WindowLowerBound | src/Application/MidiSplitter.cs:82 | window k > 0 holds only elements later than boundary k-1 |
| TimedStreams.WindowLastEmpty | src/Application/MidiSplitter.cs:82 | when every element arrives by the last boundary, the window left open after it is empty |
| TimedStreams.CountThroughAll | src/Application/MidiSplitter.cs:82 | when every element arrives by tick t, the whole stream is counted |
| MidiSplitter.ClampedRunningCount | src/Application/MidiSplitter.cs:55 | Scan yields one count per delta |
| MidiSplitter.ClampedRunningCountStep | src/Application/MidiSplitter.cs:55 | each count is max(0, previous count + delta), the first computed from the seed, at the delta's time |
| MidiSplitter.HeldCountRecurrence | src/Application/MidiSplitter.cs:53-55 | the held count has one value per event with a non-zero delta, at that event's time, equal to max(0, previous + delta) starting from 0, hence never negative |
| MidiSplitter.HeldCountSkipsZeroDeltas | src/Application/MidiSplitter.cs:53-54 | zero-delta events yield no held-count value |
| MidiSplitter.HeldCountChronological | src/Application/MidiSplitter.cs:53-55 | the held count is time-ordered when the events are |
| MidiSplitter.SelectMarkers | src/Application/MidiSplitter.cs:62 | a marker is at tick t iff some element of the stream is at t |
| MidiSplitter.TimeoutMarkerAt | src/Application/MidiSplitter.cs:59-62 | a timeout marker is at t iff a held value v > 0 arrived at t - timeoutToSave and no held value followed within timeoutToSave |
| MidiSplitter.TimeoutMarkersChronological | src/Application/MidiSplitter.cs:59-62 | timeout markers are time-ordered |
| MidiSplitter.AdjustedValueOrigin | src/Application/MidiSplitter.cs:66-68 | every adjusted value is a held value or a 0 at a timeout marker's time |
| MidiSplitter.ReleaseMarkerAt | src/Application/MidiSplitter.cs:71-73 | a release marker is at t iff the adjusted count is 0 at t |
| MidiSplitter.ReleaseSavingPointAt | src/Application/MidiSplitter.cs:76-78 | a release saving point is at t iff a release marker arrived at t - delayToSave and none followed within delayToSave |
| MidiSplitter.SavingPointOrigin | src/Application/MidiSplitter.cs:80 | the saving points are exactly the timeout markers and the release saving points |
| MidiSplitter.Split | src/Application/MidiSplitter.cs:44-92 | the groups concatenated give all events in order; one group more than saving points; held counts never negative; the adjusted count has no consecutive repeats |
| MidiSplitter.SavingPointsChronological | src/Application/MidiSplitter.cs:59-80 | for time-ordered events the saving points are time-ordered |
| MidiSplitter.SplitGroupsPartition | src/Application/MidiSplitter.cs:82 | every group but the last closes at its saving point and starts after the previous one, and the groups partition the events |
| MidiSplitter.EmptyInputNeverSaves | src/Application/MidiSplitter.cs:44-92 | no events give no saving point and a single empty group |
| SplitterScenarios.SingleGroup | src/UnitTests/MidiSplitterTests.cs:59-86 | releases 15 ticks apart: one saving point at 150, one group with all four events, then an empty group |
| SplitterScenarios.SplitByRelease | src/UnitTests/MidiSplitterTests.cs:90-117 | releases 100 ticks apart: saving points at 135 and 235, two groups and an empty group |
| SplitterScenarios.SplitByHeldNote | src/UnitTests/MidiSplitterTests.cs:121-157 | a note held for 82 ticks: a timeout at 130, a 0 injected there, saving points 130, 160 and 235, and an empty group between 130 and 160 |
| SplitterScenarios.OtherEventsKept | src/UnitTests/MidiSplitterTests.cs:160-206 | zero-delta events do not move the saving points and stay, unchanged and in order, in their groups |
| SplitterScenarios.TimerTie | src/Application/MidiSplitter.cs:66-77 | a timeout at 135 injects a 0 exactly delayToSave after the release at 105; the model's release throttle drops that release, giving saving points 135 and 165 and three groups (see "## Left out") |
| NAudioMidiEventAnalyzer.NoteAndSustainPedalCount | src/Implementation/NAudioMidiEventAnalyzer.cs:9-16 | the result is -1, 0 or +1; a note event gives +1 iff its velocity is positive and -1 iff it is 0; a non-zero result comes only from a note or a sustain change |
| NAudioMidiEventAnalyzer.IsNoteClassified | src/Implementation/NAudioMidiEventAnalyzer.cs:19-22 | IsNote holds exactly for note events, whose delta is never 0; any other non-zero delta is a sustain change |
| NAudioMidiEventAnalyzer.NoteOffWithVelocityCountsAsHeld | src/Implementation/NAudioMidiEventAnalyzer.cs:11 | a NoteOff command with non-zero velocity counts +1, like a NoteOn |
| NAudioMidiEventAnalyzer.SustainPedalNeverHolds | src/Implementation/NAudioMidiEventAnalyzer.cs:13-15 | as written, a sustain value of 0 gives -1 and every 7-bit value gives 0 otherwise, never +1 |
| NAudioMidiEventAnalyzer.SustainPedalPressedIsIgnored | src/Implementation/NAudioMidiEventAnalyzer.cs:13 | the pedal fully pressed (127) gives 0 |
| NAudioMidiEventAnalyzer.CorrectedNoteAndSustainPedalCount | src/Implementation/NAudioMidiEventAnalyzer.cs:13-15 | the intended rule: a pressed pedal (127) gives +1, a released one -1, other values 0; every other event as before |
| NAudioMidiEventAnalyzer.CorrectedPedalPressReleaseBalances | src/Implementation/NAudioMidiEventAnalyzer.cs:13-14 | with the intended rule a press and a release of the pedal sum to 0 |
| NoteDuration.DurationsFrom | src/CommandLine/NoteDuration.cs:16-22 | one output per remaining event, at its time, carrying the event |
| NoteDuration.CalculateDurations | src/CommandLine/NoteDuration.cs:16-22 | one output per input event, in input order, at its time, carrying the event unchanged |
| NoteDuration.LastIndexBefore | src/CommandLine/NoteDuration.cs:17 | the last earlier event of a group key, or none |
| NoteDuration.LastTimesStep | src/CommandLine/NoteDuration.cs:17-21 | recording an event's time under its key keeps the map equal to the last time of each key |
| NoteDuration.HeadDuration | src/CommandLine/NoteDuration.cs:19-22 | the first computed duration is the reference duration |
| NoteDuration.DurationsFromCorrect | src/CommandLine/NoteDuration.cs:16-22 | every computed duration equals the reference duration |
| NoteDuration.CalculateDurationsCorrect | src/CommandLine/NoteDuration.cs:16-22 | CalculateDurations agrees with the reference definition at every index |
| NoteDuration.DurationCases | src/CommandLine/NoteDuration.cs:17-22 | non-note-offs and note number 0 get 0; a note-off gets the time since the last note-on or note-off of its number, or 0 if there is none |
| NoteDuration.LastIndexBeforeInsert | src/CommandLine/NoteDuration.cs:17 | inserting an event of another key does not change which earlier event of a key is last |
| NoteDuration.ExpectedDurationInsert | src/CommandLine/NoteDuration.cs:17 | inserting an event of another key leaves the reference duration of every existing event unchanged |
| NoteDuration.InsertOtherNoteKeepsDuration | src/CommandLine/NoteDuration.cs:17 | inserting an event of a different note number anywhere leaves every other event's duration unchanged |
| NoteDuration.CalculateDurationsScenario | src/UnitTests/NoteDurationTests.cs:16-47 | the unit test's interleaved notes 45 and 48: the note-offs get 7 and 25 ticks, every other event 0 (the test's recorded times are one tick later, the intervals the same) |
| Decimal.DigitChar | src/Application/StringExt.cs:53-58 | a digit below 10 becomes a digit character |
| Decimal.DigitValue | src/Implementation/NAudioMidiInputs.cs:36 | a digit character's value, which DigitChar maps back |
| Decimal.NatToString | src/Application/StringExt.cs:53-58 | the decimal text of a number is non-empty digits without leading zeros |
| Decimal.NatToStringRoundTrip | src/Application/StringExt.cs:53-58 | reading back the digits of n gives n |
| Decimal.NatToStringInjective | src/Application/StringExt.cs:48-59 | different indices have different texts |
| FormatTemplate.IndexOf | src/Application/StringExt.cs:50 | the first index holding the name, or -1 iff it is absent |
| FormatTemplate.GetIndexFor | src/Application/StringExt.cs:48-59 | a known name gets its first index and the list is unchanged; a new name is appended and gets the last index; the list stays without duplicates |
| FormatTemplate.Step | src/Application/StringExt.cs:62-106 | one loop iteration fails iff `{` is followed by `}`, `,` or `:`; otherwise names and output only grow, names by at most one and without duplicates |
| FormatTemplate.Run | src/Application/StringExt.cs:62-106 | the loop fails only with the empty-name error and otherwise only extends names and output |
| FormatTemplate.TranslateToStandardFormatString | src/Application/StringExt.cs:36-109 | fails only with the two errors; on success the item names have no duplicates |
| FormatTemplate.RunAppend | src/Application/StringExt.cs:62-106 | running over a concatenation runs over each part in turn |
| FormatTemplate.NullOrWhiteSpaceRejected | src/Application/StringExt.cs:38-41 | a null or whitespace-only template raises the argument error |
| FormatTemplate.EmptyItemNameRejected | src/Application/StringExt.cs:75-78 | `{` directly followed by `}`, `,` or `:` raises the format error |
| FormatTemplate.TemplateWithEmptyItemNameRejected | src/UnitTests/StringExtTests.cs:19-47 | any template reaching such an empty name outside a placeholder is rejected |
| FormatTemplate.EscapedBraceCopied | src/Application/StringExt.cs:64-74 | `{{` is copied through as `{{` and records no name |
| FormatTemplate.ClosingEmitsIndex | src/Application/StringExt.cs:83-95 | closing a name emits `{` index of that name, then the separator, and records the name |
| FormatTemplate.PlainTextCopied | src/Application/StringExt.cs:68-70 | text without `{` outside placeholders is copied verbatim |
| FormatTemplate.NoPlaceholdersIsIdentity | src/UnitTests/StringExtTests.cs:65-71 | a template without `{` translates to itself with no names |
| FormatTemplate.AlignmentOrFormatCopied | src/Application/StringExt.cs:99-105 | alignment and format text is copied verbatim up to `}` |
| FormatTemplate.NameAccumulates | src/Application/StringExt.cs:96-98 | name characters go to the name builder and nothing is emitted |
| FormatTemplate.UnterminatedNameDropped | src/Application/StringExt.cs:79-108 | an unterminated trailing `{Name` keeps the `{` and drops the name |
| FormatTemplate.PlaceholderRun | src/Application/StringExt.cs:79-95 | a whole `{Name` plus separator emits the name's index and records it |
| FormatTemplate.HappyPath | src/UnitTests/StringExtTests.cs:11-17 | `{Number} {Date:yyyyMM}-{Number:x}` becomes `{0} {1:yyyyMM}-{0:x}` with names Number and Date |
| StringExt.TranslateToStandardFormatString | src/Application/StringExt.cs:36-109 | the character loop computes exactly the translator's result, errors included |
| StringEx.TranslateToStandardFormatString | src/CommandLine/StringEx.cs:42-116 | the duplicate loop computes exactly the translator's result, errors included |
| ApplicationFormatData.CountWhere | src/Application/FormatData.cs:23 | the count is 0 iff no element satisfies the predicate and the length iff all do |
| ApplicationFormatData.CountWhereAppend | src/Application/FormatData.cs:23 | counting distributes over concatenation |
| ApplicationFormatData.FormatData.constructor | src/Application/FormatData.cs:9-19 | the fields are stored and the memo store starts empty |
| ApplicationFormatData.FormatData.Memoize | src/Application/FormatData.cs:26-34 | a stored key returns its value without evaluating; a new key is evaluated once and added, and no other entry changes |
| ApplicationFormatData.FormatData.NumberOfNoteEvents | src/Application/FormatData.cs:23 | the number of events satisfying isNote, computed at most once |
| ApplicationFormatData.EqualsIsEquivalence | src/Application/FormatData.cs:36-40 | Equals is reflexive, symmetric and transitive |
| ApplicationFormatData.EqualsIgnoresNoteCount | src/Application/FormatData.cs:36-40 | objects with the same Now, Guid and number of events are equal whatever their notes |
| ApplicationFormatData.EqualObjectsHaveEqualHashes | src/Application/FormatData.cs:42-45 | equal objects have equal hash codes |
| ApplicationFormatData.CountsScenario | src/UnitTests/FormatDataTests.cs:28-29 | a note-on and a tempo event give two events and one note, also when asked again |
| CannedBytesMidi.GetData | src/CommandLine/MidiFileContext.cs:49 | a short message's data starts with its status byte |
| CannedBytesMidi.MidiFileEvent.constructor | src/CommandLine/MidiTrackBuilder.cs:45-53 | the message and both times are stored |
| CommandLineFormatData.NoteCount | src/CommandLine/MidiFileContext.cs:49 | the count fails iff some message has no data; otherwise it counts events whose first byte is 0x90 |
| CommandLineFormatData.ShortMessagesCountedByStatus | src/CommandLine/MidiFileContext.cs:49 | a short message counts iff its status is exactly 0x90 (Note On, channel 1) |
| CommandLineFormatData.FormatData.constructor | src/CommandLine/MidiFileContext.cs:52-57 | the fields are stored and the memo store starts empty |
| CommandLineFormatData.FormatData.Memoize | src/CommandLine/MidiFileContext.cs:37-45 | a stored key returns its value without evaluating; a new key's value is computed once and stored; a failure stores nothing |
| CommandLineFormatData.FormatData.NumberOfNoteEvents | src/CommandLine/MidiFileContext.cs:49 | the 0x90 count, stored under its key on success |
| CommandLineFormatData.EqualsIsEquivalence | src/CommandLine/MidiFileContext.cs:59-65 | Equals is an equivalence holding iff Now, NumberOfEvents and Guid agree |
| CommandLineFormatData.EqualObjectsHaveEqualHashes | src/CommandLine/MidiFileContext.cs:67-70 | equal objects have equal hash codes |
| CommandLineFormatData.NoteCountScenario | src/CommandLine/MidiFileContext.cs:49 | a Note On and a Note Off on channel 1 count one note |
| CommandLineFormatData.EndOfTrackScenario | src/CommandLine/MidiFileContext.cs:49 | an End of Track message without data makes the count fail |
| TrackGrouping.DistinctKeys | src/Implementation/MidiTrackBuilder.cs:16-18 | the keys of the events, each once |
| TrackGrouping.KeyGroup | src/Implementation/MidiTrackBuilder.cs:16-18 | a group holds exactly the events of its key, from the input |
| TrackGrouping.Insert | src/Implementation/MidiTrackBuilder.cs:19 | inserting a key adds exactly that key |
| TrackGrouping.SortKeys | src/Implementation/MidiTrackBuilder.cs:19 | sorting keeps exactly the same keys |
| TrackGrouping.ConsKeepsDistinct | src/Implementation/MidiTrackBuilder.cs:16-19 | a new key in front keeps the keys distinct |
| TrackGrouping.InsertKeepsDistinct | src/Implementation/MidiTrackBuilder.cs:19 | inserting a new key keeps the keys distinct |
| TrackGrouping.SortKeysDistinct | src/Implementation/MidiTrackBuilder.cs:19 | sorting distinct keys keeps them distinct |
| TrackGrouping.InsertSorted | src/Implementation/MidiTrackBuilder.cs:19 | inserting into sorted keys keeps them sorted |
| TrackGrouping.SortKeysSorted | src/Implementation/MidiTrackBuilder.cs:19 | the sorted keys ascend |
| TrackGrouping.GroupsFor | src/Implementation/MidiTrackBuilder.cs:16-19 | one group per key, each the events of that key |
| TrackGrouping.FlattenGroupsCons | src/Implementation/MidiTrackBuilder.cs:16-18 | an event in front is added to the groups exactly once |
| TrackGrouping.GroupsForPartition | src/Implementation/MidiTrackBuilder.cs:16-18 | groups over distinct keys covering all events hold each event exactly as often as the input |
| TrackGrouping.GroupsForEmpty | src/Implementation/MidiTrackBuilder.cs:16-18 | no events give empty groups |
| TrackGrouping.GroupsPartition | src/Implementation/MidiTrackBuilder.cs:16-19 | every event lands in exactly one group, the group of its key; one non-empty group per distinct key |
| TrackGrouping.GroupsAscending | src/Implementation/MidiTrackBuilder.cs:19 | the groups come in ascending key order |
| TrackGrouping.NoEventsNoGroups | src/Implementation/MidiTrackBuilder.cs:16-21 | there are no groups iff there are no events |
| TrackGrouping.IntLessIsStrictTotalOrder | src/Implementation/MidiTrackBuilder.cs:19 | the channel order is a strict total order |
| TrackGrouping.Bodies | src/Implementation/MidiTrackBuilder.cs:20 | each track without its last element |
| TrackGrouping.KeyGroupDistinct | src/CommandLine/MidiTrackBuilder.cs:18-19 | a group of distinct event objects lists none twice |
| ImplementationMidiTrackBuilder.BuildTracks | src/Implementation/MidiTrackBuilder.cs:14-21 | one track per channel group |
| ImplementationMidiTrackBuilder.BodiesAreGroups | src/Implementation/MidiTrackBuilder.cs:16-20 | the tracks without their markers are the channel groups |
| ImplementationMidiTrackBuilder.BuildTracksPartition | src/Implementation/MidiTrackBuilder.cs:16-21 | the tracks hold every event exactly once; one track per distinct channel; none for no events |
| ImplementationMidiTrackBuilder.BuildTracksByChannel | src/Implementation/MidiTrackBuilder.cs:16-20 | track t holds exactly its channel's events in input order, and channels ascend |
| ImplementationMidiTrackBuilder.EndOfTrackMarkers | src/Implementation/MidiTrackBuilder.cs:20-46 | each track ends with an End of Track meta event one tick after its last event |
| ImplementationMidiTrackBuilder.TwoChannelKeys | src/Implementation/MidiTrackBuilder.cs:16-19 | events on channels 2, 1, 2 give keys 1 and 2 |
| ImplementationMidiTrackBuilder.TwoChannelGroups | src/Implementation/MidiTrackBuilder.cs:16-18 | channel 1 holds the second event, channel 2 the first and third |
| ImplementationMidiTrackBuilder.TwoChannels | src/Implementation/MidiTrackBuilder.cs:14-21 | the channel-1 track comes first, each followed by its marker |
| NAudioMidiTrackBuilder.Shifted | src/Implementation/NAudioMidiTrackBuilder.cs:13 | only the absolute time changes, by the first time |
| NAudioMidiTrackBuilder.Rebased | src/Implementation/NAudioMidiTrackBuilder.cs:11-14 | one rebased event per event |
| NAudioMidiTrackBuilder.RebaseInPlace | src/Implementation/NAudioMidiTrackBuilder.cs:11-14 | the array afterwards holds the rebased events |
| NAudioMidiTrackBuilder.RebasedOnFirst | src/Implementation/NAudioMidiTrackBuilder.cs:9-14 | the first event ends at 0 and every pairwise time difference is kept |
| NAudioMidiTrackBuilder.RebaseIdempotent | src/Implementation/NAudioMidiTrackBuilder.cs:10-14 | rebasing twice is rebasing once |
| NAudioMidiTrackBuilder.RebasedNonNegative | src/Implementation/NAudioMidiTrackBuilder.cs:10-14 | time-ordered events rebase to non-negative times |
| NAudioMidiTrackBuilder.PairLessIsStrictTotalOrder | src/Implementation/NAudioMidiTrackBuilder.cs:18 | the (port, channel) order is a strict total order |
| NAudioMidiTrackBuilder.Tracks | src/Implementation/NAudioMidiTrackBuilder.cs:16-21 | one track per (port, channel) group |
| NAudioMidiTrackBuilder.BuildTracks | src/Implementation/NAudioMidiTrackBuilder.cs:9-21 | the method as written: rebases the caller's array in place, then builds the tracks; fails on an empty array |
| NAudioMidiTrackBuilder.BuildTracksCorrected | src/UnitTests/TrackBuilderTests.cs:14 | the same, with no tracks for no events |
| NAudioMidiTrackBuilder.EmptyInputThrows | src/Implementation/NAudioMidiTrackBuilder.cs:10 | as written no events throw, where the regression test expects no tracks; otherwise the two agree |
| NAudioMidiTrackBuilder.BodiesAreGroups | src/Implementation/NAudioMidiTrackBuilder.cs:16-20 | the tracks without markers are the (port, channel) groups |
| NAudioMidiTrackBuilder.CorrectedTracksPartition | src/Implementation/NAudioMidiTrackBuilder.cs:16-21 | every rebased event lands in exactly one track; one per distinct key; none for no events |
| NAudioMidiTrackBuilder.TracksByPortAndChannel | src/Implementation/NAudioMidiTrackBuilder.cs:16-20 | track t holds exactly its key's events in input order; keys ascend by port, then channel |
| NAudioMidiTrackBuilder.EndOfTrackMarkers | src/Implementation/NAudioMidiTrackBuilder.cs:20-29 | each track ends with an End of Track event on port 0 one tick after its last event |
| CommandLineMidiTrackBuilder.Deltas | src/CommandLine/MidiTrackBuilder.cs:23-40 | one delta-time per absolute time |
| CommandLineMidiTrackBuilder.DeltasRoundTrip | src/CommandLine/MidiTrackBuilder.cs:23-40 | the first absolute time plus the running sum of delta-times recovers every absolute time |
| CommandLineMidiTrackBuilder.AbsoluteTimes | src/CommandLine/MidiTrackBuilder.cs:29-32 | one absolute time per event |
| CommandLineMidiTrackBuilder.DeltaTimes | src/CommandLine/MidiTrackBuilder.cs:29-36 | one delta-time per event |
| CommandLineMidiTrackBuilder.FixDeltaTimes | src/CommandLine/MidiTrackBuilder.cs:25-39 | absolute times are unchanged; the first delta-time becomes 0 and every later one the difference from the previous event |
| CommandLineMidiTrackBuilder.MarkerKeepsDeltas | src/CommandLine/MidiTrackBuilder.cs:20-53 | a marker one tick late with delta-time 1 keeps the track's delta-times right |
| CommandLineMidiTrackBuilder.GroupsDisjoint | src/CommandLine/MidiTrackBuilder.cs:18-19 | no event object is in two groups |
| CommandLineMidiTrackBuilder.GroupsSeparate | src/CommandLine/MidiTrackBuilder.cs:18-19 | groups are non-empty, disjoint, and list no object twice when the input does not |
| CommandLineMidiTrackBuilder.FixTracks | src/CommandLine/MidiTrackBuilder.cs:23-40 | every group gets correct delta-times and a fresh marker; absolute times are unchanged |
| CommandLineMidiTrackBuilder.BuildTracks | src/CommandLine/MidiTrackBuilder.cs:15-42 | a non-short message fails the cast before anything is written; otherwise one track per channel in ascending order, its events then a marker, with correct delta-times |
| CommandLineMidiTrackBuilder.GroupMembers | src/CommandLine/MidiTrackBuilder.cs:18 | a group's events are input events with its key |
| CommandLineMidiTrackBuilder.LowNibble | src/CommandLine/MidiTrackBuilder.cs:18 | `status & 0x0F`, with `&` taken bit by bit, is the status modulo 16, so the track key is the channel |
| BitMask.MaskIsRemainder | src/CommandLine/MidiTrackBuilder.cs:18 | masking the low k bits of a non-negative number leaves its remainder by 2^k |
| CommandLineMidiTrackBuilder.GroupsByStatusChannel | src/CommandLine/MidiTrackBuilder.cs:18-19 | track t holds exactly the events whose status low nibble is its channel; channels ascend |
| CommandLineMidiTrackBuilder.DeltasExample | src/CommandLine/MidiTrackBuilder.cs:23-40 | times 10, 25 and a marker at 26 give delta-times 0, 15, 1 |
| RealPriorityQueues.TimestampCompareIsLexicographic | src/Application/RealPriorityQueue.cs:38-42 | a smaller priority wins; on equal priorities the smaller stamp wins |
| RealPriorityQueues.TimestampCompareValid | src/Application/RealPriorityQueue.cs:38-42 | the pair comparer is a valid comparer when the priority comparer is |
| RealPriorityQueues.PriorityCompareRecoversComparer | src/Application/RealPriorityQueue.cs:54-57 | PriorityComparer gives back the priority comparer |
| RealPriorityQueues.Without | src/Application/RealPriorityQueue.cs:120 | removing one entry leaves the others, as a multiset |
| RealPriorityQueues.MinimalIsStable | src/Application/RealPriorityQueue.cs:109-120 | a minimal entry has the smallest stamp among entries of its priority |
| RealPriorityQueues.StampedItems | src/Application/RealPriorityQueue.cs:83-96 | the i-th item is stamped with i |
| RealPriorityQueues.StampedItemsInInputOrder | src/Application/RealPriorityQueue.cs:83-96 | initial items of equal priority come out in input order |
| RealPriorityQueues.RealPriorityQueue.constructor | src/Application/RealPriorityQueue.cs:62-65 | an empty queue with the given comparer |
| RealPriorityQueues.RealPriorityQueue.FromItems | src/Application/RealPriorityQueue.cs:80-98 | the queue holds the items stamped with their indices |
| RealPriorityQueues.RealPriorityQueue.Enqueue | src/Application/RealPriorityQueue.cs:109-110 | one entry more, stamped, and Count up by one |
| RealPriorityQueues.RealPriorityQueue.MinIndex | src/Application/RealPriorityQueue.cs:115 | the position of a minimal entry |
| RealPriorityQueues.RealPriorityQueue.Peek | src/Application/RealPriorityQueue.cs:115 | fails iff the queue is empty; otherwise a minimal element, nothing removed |
| RealPriorityQueues.RealPriorityQueue.Dequeue | src/Application/RealPriorityQueue.cs:120 | fails iff empty, leaving it as is; otherwise removes and returns a minimal element, Count down by one |
| RealPriorityQueues.RealPriorityQueue.TryDequeue | src/Application/RealPriorityQueue.cs:127-132 | None iff empty, leaving it as is; otherwise removes a minimal element and returns it with its priority |
| RealPriorityQueues.RealPriorityQueue.TryPeek | src/Application/RealPriorityQueue.cs:140-145 | None iff empty; otherwise a minimal element and priority, nothing removed |
| RealPriorityQueues.RealPriorityQueue.EnqueueDequeue | src/Application/RealPriorityQueue.cs:151-154 | returns a minimum of the old contents plus the new entry, which it removes; Count unchanged |
| RealPriorityQueues.RealPriorityQueue.EnqueueRange | src/Application/RealPriorityQueue.cs:159-163 | each item appended with its own stamp |
| RealPriorityQueues.RealPriorityQueue.EnqueueRangeWithPriority | src/Application/RealPriorityQueue.cs:169-172 | every element appended with the same priority and stamp |
| RealPriorityQueues.RealPriorityQueue.Clear | src/Application/RealPriorityQueue.cs:175-178 | no entries, Count 0 |
| RealPriorityQueues.IntCompareValid | src/Application/RealPriorityQueue.cs:62-65 | the default integer comparer is valid |
| RealPriorityQueues.StableOrderScenario | src/Application/RealPriorityQueue.cs:109-120 | two elements of priority 1 then one of priority 0: the last comes out first, then the first |
| MidiInputSelection.LeadingSpaces | src/Implementation/NAudioMidiInputs.cs:36 | the number of leading white-space characters int.TryParse skips |
| MidiInputSelection.TrailingSpaces | src/Implementation/NAudioMidiInputs.cs:36 | the number of trailing white-space characters int.TryParse skips |
| MidiInputSelection.Trim | src/Implementation/NAudioMidiInputs.cs:36 | the text without the leading and trailing white space |
| MidiInputSelection.TryParseInt | src/Implementation/NAudioMidiInputs.cs:36 | a parsed value is in the Int32 range |
| MidiInputSelection.TrimDigits | src/Implementation/NAudioMidiInputs.cs:36 | digits have nothing to trim |
| MidiInputSelection.TryParseIntRoundTrip | src/Implementation/NAudioMidiInputs.cs:36 | the decimal text of n in Int32 range parses back to n |
| MidiInputSelection.TryParseIntNegative | src/Implementation/NAudioMidiInputs.cs:36 | `-` followed by the text of n parses to -n |
| MidiInputSelection.ParsedTextHasNoLetters | src/Implementation/NAudioMidiInputs.cs:36 | text that parses contains no letter |
| MidiInputSelection.ToUpperAscii | src/Implementation/NAudioMidiInputs.cs:41-43 | a letter stays a letter and anything else is unchanged |
| MidiInputSelection.EqualsIgnoreCaseIsEquivalence | src/Implementation/NAudioMidiInputs.cs:41-43 | case-insensitive equality is an equivalence, and plain equality on texts without letters |
| MidiInputSelection.FirstMatch | src/Implementation/NAudioMidiInputs.cs:41-43 | the first index whose name matches ignoring case, or none iff no name matches |
| MidiInputSelection.IndexByNumber | src/Implementation/NAudioMidiInputs.cs:36-39 | a name parsing to an index below the device count selects that index |
| MidiInputSelection.AllIndices | src/Implementation/MidiInputService.cs:34-43 | every index in order |
| MidiInputSelection.SelectInput | src/Implementation/MidiInputService.cs:24-62 | every selected index is a device index |
| MidiInputSelection.NoDevicesNoInputs | src/Implementation/MidiInputService.cs:28-32 | with no devices nothing is selected, whatever the name |
| MidiInputSelection.StarSelectsAll | src/Implementation/MidiInputService.cs:34-43 | `*` selects every device in order |
| MidiInputSelection.NumberSelectsIndex | src/Implementation/MidiInputService.cs:45-61 | the text of an in-range index selects exactly that device |
| MidiInputSelection.OtherwiseFirstNameMatch | src/Implementation/MidiInputService.cs:51-61 | otherwise the first case-insensitive name match is selected, and nothing iff none matches |
| MidiInputSelection.AtMostOneUnlessStar | src/Implementation/MidiInputService.cs:54-61 | apart from `*` at most one device is selected, designated by number or by name |
| MidiInputSelection.ParsedTextMatchesOnlyItself | src/Implementation/MidiInputService.cs:45-52 | a parsable text equals ignoring case only itself |
| MidiInputSelection.TryParseIntIgnoresCase | src/Implementation/MidiInputService.cs:45 | texts equal ignoring case parse alike |
| MidiInputSelection.FirstMatchIgnoresCase | src/Implementation/MidiInputService.cs:51-52 | texts equal ignoring case find the same first match |
| MidiInputSelection.SelectionIgnoresCase | src/CommandLine/MidiRecorderApplicationService.cs:89-128 | texts equal ignoring case select the same devices |
| MidiInputSelection.SearchMidiInputId | src/Implementation/NAudioMidiInputs.cs:16-51 | pairs of a selected index and that device's name |
| MidiInputSelection.SearchPairsFollowSelection | src/Implementation/NAudioMidiInputs.cs:16-51 | the pairs are exactly the selection, each with its device name |
| MidiInputSelection.SearchStarListsEveryDevice | src/Implementation/NAudioMidiInputs.cs:25-33 | `*` lists every (index, name) in device order |
| MidiInputSelection.SearchNumberListsThatDevice | src/Implementation/NAudioMidiInputs.cs:25-33 | the decimal text of an in-range index lists exactly that (index, name) pair |
| MidiInputSelection.LetterMeansName | src/Implementation/NAudioMidiInputs.cs:36-43 | a text with a letter is never an index and selects by name |
| MidiInputSelection.UsageExampleByNumber | src/Implementation/NAudioMidiInputs.cs:36-39 | with two devices, "1" selects the second |
| MidiInputSelection.UsageExampleByName | src/Implementation/NAudioMidiInputs.cs:41-43 | "impulse" selects the device named "Impulse" |
| MidiInputSelection.UsageExampleUnknown | src/Implementation/NAudioMidiInputs.cs:45-48 | "5" with two devices selects nothing |
| CommandLineOptionsValidator.SelectMany | src/CommandLine/OptionsValidator.cs:12-14 | an element is in the result iff some name's search gives it; empty iff every search is empty |
| CommandLineOptionsValidator.Dedup | src/CommandLine/OptionsValidator.cs:15 | no duplicates, the same elements, no longer |
| CommandLineOptionsValidator.DedupOfDistinct | src/CommandLine/OptionsValidator.cs:15 | a sequence without repeats is its own Distinct |
| CommandLineOptionsValidator.DedupRepeat | src/CommandLine/OptionsValidator.cs:15 | appending an element already present changes nothing |
| CommandLineOptionsValidator.Join | src/CommandLine/OptionsValidator.cs:17 | no parts give "", one part gives itself, otherwise the parts' lengths plus a separator between each two |
| CommandLineOptionsValidator.ResolveInputs | src/CommandLine/OptionsValidator.cs:12-15 | the resolved inputs have no duplicates and are exactly what some requested name resolves to |
| CommandLineOptionsValidator.NoInputsIsAnError | src/CommandLine/OptionsValidator.cs:16-17 | if nothing resolves the result is the no-inputs error, whatever the format test says |
| CommandLineOptionsValidator.FormatErrorsPassThrough | src/CommandLine/OptionsValidator.cs:19-20 | when some input resolves, the format test's errors are returned unchanged |
| CommandLineOptionsValidator.ValidOptions | src/CommandLine/OptionsValidator.cs:12-26 | success iff some input resolves and the format test passes; then the delay, the 30000 ms timeout, the path format, the resolution and every resolved input once |
| CommandLineOptionsValidator.StarAndIndexListEachDeviceOnce | src/CommandLine/OptionsValidator.cs:12-15 | asking for `*` and `0` lists every device once |
| CommandLineOptionsValidator.NoInputsMessageExample | src/CommandLine/OptionsValidator.cs:16-17 | the error text for two names joins them with ", " |
| CommandLineRecorderService.NullOptionsThrow | src/CommandLine/MidiRecorderApplicationService.cs:20 | null options raise ArgumentNullException |
| CommandLineRecorderService.StartRecordingInputs | src/CommandLine/MidiRecorderApplicationService.cs:21-25 | recording starts iff some name selects a device, then on each selected device once and on no other; otherwise the message names the inputs |
| CommandLineRecorderService.NoDevicesNeverRecords | src/CommandLine/MidiRecorderApplicationService.cs:21-25 | without devices the result is the no-inputs message |
| CommandLineRecorderService.SavingPoints | src/CommandLine/MidiRecorderApplicationService.cs:36-38 | no more saving points than events |
| CommandLineRecorderService.QuietGapSplit | src/CommandLine/MidiRecorderApplicationService.cs:40-43 | one file more than saving points; the files concatenated give the events in arrival order |
| CommandLineRecorderService.SavingPointsAtQuietGaps | src/CommandLine/MidiRecorderApplicationService.cs:28-38 | a saving point follows an event by the delay iff no further event arrives within the delay, and carries its absolute time |
| CommandLineRecorderService.ThrottleEndsWithLast | src/CommandLine/MidiRecorderApplicationService.cs:36-38 | the last saving point follows the last event |
| CommandLineRecorderService.QuietGapFilesPartition | src/CommandLine/MidiRecorderApplicationService.cs:40-43 | every file but the last closes at its saving point and holds only events after the previous one |
| CommandLineRecorderService.EveryEventIsSaved | src/CommandLine/MidiRecorderApplicationService.cs:36-43 | the window left open after the last event is empty: every event is in a saved file |
| CommandLineRecorderService.NoEventsNoFiles | src/CommandLine/MidiRecorderApplicationService.cs:36-43 | no events give no saving point and one empty window |

## Left out

- The Rx runtime: schedulers, `Observable.FromEventPattern`, subscriptions and hot or cold semantics. Time is integer ticks over finite event lists, without concurrency or timers. Event values at a tick come before timers due at that tick; the order between two timers due at the same tick is not modelled.
- Hardware MIDI I/O. This covers the receivers, `GetMidiInputs`, and opening, starting and stopping ports (src/CommandLine/MidiRecorderApplicationService.cs:47-69). The device names are a parameter.
- File I/O and serialization: the file savers, the serializer and directory creation.
- Reflection-based formatting (`StringExt.Format`, `StringEx.Format`, `BuildFilePath`). Culture-dependent `string.Format` and DateTime formatting are left out with it. Only the template translator is modelled.
- Wiring, console output, logging and the build script.
- `DateTime.Now`, `Guid.NewGuid`, `Stopwatch.GetTimestamp` and `HashCode.Combine` are parameters.
- TimeSpan overflow in `TimeSpan.FromMilliseconds`, and negative delays: Rx rejects these, and the model takes delays as naturals.
- NAudio event objects are values held in an array. The model does not capture two array slots aliasing the same event object.
- RealPriorityQueue capacity (`EnsureCapacity`, `TrimExcess`, the capacity constructor): these do not change the contents.
- RealPriorityQueue: a null comparer means `Comparer<TPriority>.Default`. The model takes the comparer as a parameter, with `IntCompare` for integer priorities.
- RealPriorityQueue.Dequeue: the model promises some minimal entry, not the heap's choice. Entries are unique by stamp except for `EnqueueRange(elements, priority)`, whose entries share one stamp.
- FormatData.Equals with an object of another type, and boxing in the memo store. The memo store holds integers.
- CannedBytesMidi.GetData: only the data bytes of a message are modelled, not the rest of the CannedBytes message classes.
- MidiInputSelection.EqualsIgnoreCase: OrdinalIgnoreCase folds only ASCII letters here; non-ASCII case folding is not modelled.
- MidiInputSelection.TryParseInt: culture-specific signs and trailing NUL characters accepted by int.TryParse are not modelled.
- CommandLineMidiTrackBuilder.BuildTracks: the delta-times are stated only when no event object is listed twice in the input. With a repeated object, the last write wins; the model does not say which.
- CommandLineMidiTrackBuilder.BuildTracks: the lazy query makes new marker objects each time it is enumerated. The loop writes delta-time 1 on markers that are then discarded; the model returns fresh markers that already hold it.
- The options are modelled with the fields the validator reads (`MidiInputs`, `MidiResolution`). The `RecordOptions` class shown in the sources lacks them.
- CommandLineOptionsValidator.Validate: LanguageExt validation errors are a sequence of messages.
- MidiSplitter.Split: when a timeout zero (src/Application/MidiSplitter.cs:66-67) reaches the release throttle (lines 76-77) exactly delayToSave after a pending release marker, and the throttle's timer was scheduled before the timeout's timer, the scheduler fires the throttle's timer first and the source emits one more release saving point at that tick. The model lets the zero cancel it, so it gives one saving point fewer and one empty window fewer. This needs timeoutToSave < delayToSave and an exact tie. Example: events +1@100, -1@105, +1@115, -1@300 with timeoutToSave 20 and delayToSave 30 give saving points 135, 135, 165 in the source and 135, 165 in the model (`SplitterScenarios.TimerTie` proves the model's side).
- MidiSplitter.ReleaseSavingPointAt: its iff describes the model's throttle, so it leaves out the extra release saving point of the timer-versus-timer tie described above.
- CommandLineRecorderService.StartRecording: it stops before the ports are opened. The exception handling around saving is left out.

## Findings

| source | as written | input that shows it | evidently intended | confidence | as-written member | corrected member |
|---|---|---|---|---|---|---|
| src/Implementation/NAudioMidiEventAnalyzer.cs:13 | a sustain pedal counts as held only at controller value 255, which a 7-bit MIDI value never reaches | ControlChangeEvent(Sustain, 127): the pedal fully down counts 0, so a press never holds, while a release counts -1 | the pedal pressed (127) counts +1, so a press and a release balance | not executed | NAudioMidiEventAnalyzer.SustainPedalNeverHolds | NAudioMidiEventAnalyzer.CorrectedPedalPressReleaseBalances |
| src/Implementation/NAudioMidiTrackBuilder.cs:10 | reads `events[0]` before checking for events | an empty event array throws IndexOutOfRangeException | no events give no tracks, as src/UnitTests/TrackBuilderTests.cs:14 expects | not executed | NAudioMidiTrackBuilder.EmptyInputThrows | NAudioMidiTrackBuilder.BuildTracksCorrected |
