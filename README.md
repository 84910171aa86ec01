# Workout sequencer: duration estimate and sequence store

A Dafny model of the two pieces of the workout sequencer that hold its logic.

- **The duration estimate** (`estimateSequenceDuration`). It turns a workout sequence into display text. One cycle is the sum of its exercise times: a duration exercise counts its seconds and a repetition exercise counts 2 seconds per repetition. A break is added between each two exercises. The cycles are repeated with a cycle break between each two. The total is shown as `"{n}s"` under a minute, `"{m}min"` for whole minutes, and `"{m}min {s}s"` otherwise.
- **The sequence store** (`useWorkoutStorage`). It keeps all sequences as one list under the local-storage key `"workout-sequences"`. Every write reads the whole list, changes it in memory and writes it back; clear removes the key; reads only read. The operations are: list (optionally one type), append, replace by id, delete by id, find by id and clear. Without a storage backend every read is empty and every write fails.

Files:

- `options.dfy` (module `Options`): the `Option` type for optional values, shared by the records and the number formatter.
- `workout_types.dfy` (module `WorkoutTypes`): the records of `app/types/workout.ts` as datatypes. Optional fields are `Option<nat>`. Timestamps are `nat`.
- `decimal.dfy` (module `Decimal`): the decimal text a template literal gives an integer, and reading that text back.
- `sequence_utils.dfy` (module `SequenceUtils`): the estimate. It has specification functions (`BaseCycleSeconds`, `CycleSeconds`, `TotalSeconds`, `Classify`, `FormatDuration`), a reader `ParseDuration` for the text, and the method `EstimateSequenceDuration`, which runs the source's loop and is proved equal to the specification.
- `duration_timeline.dfy` (module `DurationTimeline`): an independent account of the estimate. The session is a timeline of segments with breaks strictly between neighbours. With at least one cycle, the segments are proved to add up to the total; with zero cycles the timeline is empty while the total is minus one cycle break.
- `workout_storage.dfy` (module `WorkoutStorage`): the list operations as functions, with lemmas about them. The class `SequenceStore` holds the store's state; its reads are functions and its writes are methods.

How the source is abstracted:

- The clock (`new Date()`) is the parameter `now` of `UpdateSequence`.
- The browser's storage is the state of `SequenceStore`:
  - `available`: whether `window.localStorage` exists.
  - `writable`: whether `setItem`/`removeItem` succeed; when they throw, the source catches the error and returns false.
  - `stored`: the entry under `"workout-sequences"`. `JSON.parse` is abstracted as `Absent | Empty | Corrupt | Parsed(records)`. `Empty` is the empty string, which the source treats like a missing entry.
  - `others`: the entries under every other key.
- A record's `type` field is `kind: Option<SequenceType>`, because records stored before the field existed lack it. Every read fills it in as `Workout`.

Choices the code makes that a reader might not expect:

- Update replaces the stored record wholesale by the one given, with `updatedAt = now`. It does not merge supplied fields into the old one. Nothing orders `now` after the old `updatedAt`.
- A launch history (`recordLaunch`, `getRecentLaunches`, a bound of 3 entries) has no code in the modelled files; only its record type exists.
- Callers are expected to pass at least one cycle, but the code does not check this. `TotalSeconds` is an `int`, so a cycle count of 0 gives minus one cycle break. That total's text is `-{n}s` when the cycle break of n seconds is positive, as the template literal gives it, and `0s` without a cycle break (`DurationTimeline.ZeroCycles`, `SequenceUtils.ZeroCyclesText`).

## Model

| member | source | states |
|---|---|---|
| SequenceUtils.EstimateSequenceDuration | app/composables/useSequenceUtils.ts:4-33 | The text returned is FormatDuration(TotalSeconds(sequence)). The loop's running sum equals BaseCycleSeconds of the exercises seen so far. |
| SequenceUtils.DefaultsApply | app/composables/useSequenceUtils.ts:5-7 | Absent cycleRepetitions, breakDuration and cycleBreakDuration give the same total as 1, 0 and 0, so the total is the plain sum of the exercise times. |
| SequenceUtils.BaseCycleSecondsAppend | app/composables/useSequenceUtils.ts:9-16 | The per-cycle sum of two exercise lists laid end to end is the sum of their sums. |
| SequenceUtils.BaseCycleSecondsPermutation | app/composables/useSequenceUtils.ts:9-16 | Any reordering of the exercises (the same multiset) has the same per-cycle sum. |
| SequenceUtils.BreakIgnoredForShortCycles | app/composables/useSequenceUtils.ts:18-20 | With 0 or 1 exercises, any breakDuration gives the same cycle time and total; the cycle time is then the plain sum. |
| SequenceUtils.SingleCycle | app/composables/useSequenceUtils.ts:22 | With one cycle the total is the cycle time, and any cycleBreakDuration gives the same total. |
| SequenceUtils.TotalCoversCycles | app/composables/useSequenceUtils.ts:22 | With at least one cycle the total is at least cycles times the cycle time, and never negative. |
| SequenceUtils.Classify | app/composables/useSequenceUtils.ts:24-32 | The shape is plain seconds exactly when the total is under 60. Whole minutes have m >= 1 and no remainder. Minutes with seconds have m >= 1 and 1 <= s <= 59. In every case the shape stands for exactly the total. |
| SequenceUtils.ParseFormatDuration | app/composables/useSequenceUtils.ts:24-32 | Reading the text of any total (negative ones included) back gives that total. |
| SequenceUtils.FormatDurationInjective | app/composables/useSequenceUtils.ts:24-32 | Two totals with the same text are equal. |
| SequenceUtils.FormatBoundaries | app/composables/useSequenceUtils.ts:24-32 | 0 gives "0s", 59 gives "59s", 60 gives "1min" and 61 gives "1min 1s". |
| SequenceUtils.EmptySequenceShowsZero | app/composables/useSequenceUtils.ts:5-26 | An empty sequence with every optional field absent has total 0 and text "0s". |
| SequenceUtils.RepetitionExample | app/composables/useSequenceUtils.ts:14 | One exercise of 10 repetitions in one cycle has total 20 and text "20s". |
| SequenceUtils.BreakExample | app/composables/useSequenceUtils.ts:9-20 | Two 5-second exercises with a 3-second break have total 13 and text "13s". |
| SequenceUtils.CycleExample | app/composables/useSequenceUtils.ts:22 | Three 10-second cycles with 4-second cycle breaks have total 38 and text "38s". |
| Decimal.IntToString | app/composables/useSequenceUtils.ts:25 | A non-negative number's text is all digits and denotes the number. A negative number's text is a minus sign followed by digits that denote its magnitude. |
| Decimal.NatToString | app/composables/useSequenceUtils.ts:30 | The text is one or more decimal digits that denote n, with no leading zero (except for "0" itself). |
| Decimal.ReadNatOfNatToString | app/composables/useSequenceUtils.ts:25-32 | Reading the digits of n followed by non-digit text gives n and that text. |
| Decimal.NatToStringInjective | app/composables/useSequenceUtils.ts:25-32 | Distinct numbers have distinct decimal texts. |
| DurationTimeline.CycleTimelineSum | app/composables/useSequenceUtils.ts:9-20 | The segments of one cycle (exercises with a break between each two) add up to CycleSeconds. |
| DurationTimeline.CycleTimelineShape | app/composables/useSequenceUtils.ts:18-20 | A cycle of n >= 1 exercises has 2n-1 segments. The exercises sit at even positions in order and the break at every odd position. There is no break before the first exercise or after the last. |
| DurationTimeline.SessionTimelineSum | app/composables/useSequenceUtils.ts:22 | With at least one cycle the session's segments (cycles with a cycle break between each two) add up to TotalSeconds. |
| DurationTimeline.ZeroCycles | app/composables/useSequenceUtils.ts:22 | With cycle count 0 the session is empty, yet the total is minus the cycle break. |
| SequenceUtils.ZeroCyclesText | app/composables/useSequenceUtils.ts:22-26 | With cycle count 0 the text is a minus sign, the digits of the cycle break and "s" when the cycle break is positive, and "0s" when there is none. |
| WorkoutStorage.Normalize | app/composables/useWorkoutStorage.ts:21-26 | A read record always has a type. A missing type becomes workout, a present one is kept, and every other field is unchanged. |
| WorkoutStorage.NormalizeAll | app/composables/useWorkoutStorage.ts:21-26 | Reading keeps the length, and each position holds the normalised record from the same position. |
| WorkoutStorage.ReadRecords | app/composables/useWorkoutStorage.ts:16-26 | An absent, empty or unparseable entry reads as []. A parsed one reads as the stored records in the same positions, each normalised (type filled in, nothing else changed). |
| WorkoutStorage.FilterByType | app/composables/useWorkoutStorage.ts:29-31 | A record is in the result exactly when it is in the input and has the requested type. |
| WorkoutStorage.FindIndex | app/composables/useWorkoutStorage.ts:66 | Some(i) is a position holding the id with no earlier position holding it. None means no position holds it. |
| WorkoutStorage.FindById | app/composables/useWorkoutStorage.ts:106 | A found record has the id and sits at a position with no earlier record of that id, so it is the first match. Nothing is found exactly when no record has the id. |
| WorkoutStorage.RemoveId | app/composables/useWorkoutStorage.ts:91 | A record is kept exactly when it is in the input and its id differs. The result is never longer than the input. |
| WorkoutStorage.SequenceStore.GetSequences | app/composables/useWorkoutStorage.ts:12-38 | Without a backend, or without a parsed entry, the result is []. Unfiltered, it is the read records. Filtered, it is the read records of that type in stored order, repeats included (FilterByType of the read list). Every record has a type. |
| WorkoutStorage.SequenceStore.GetWorkoutSequences | app/composables/useWorkoutStorage.ts:130-132 | The listed sequences whose type is workout, in stored order with repeats kept. |
| WorkoutStorage.SequenceStore.GetWarmupSequences | app/composables/useWorkoutStorage.ts:137-139 | The listed sequences whose type is warmup, in stored order with repeats kept. |
| WorkoutStorage.SequenceStore.GetSequenceById | app/composables/useWorkoutStorage.ts:104-107 | A found sequence has the id and is the first listed sequence with it. None means no listed sequence has the id. |
| WorkoutStorage.SequenceStore.SaveSequence | app/composables/useWorkoutStorage.ts:43-56 | Succeeds exactly when the backend exists and accepts writes. Then the entry is the old read list followed by the new sequence, with no duplicate check. A new id is then found as that sequence, with its type filled in; an existing id still finds the earlier record. On failure nothing changes. |
| WorkoutStorage.SequenceStore.UpdateSequence | app/composables/useWorkoutStorage.ts:61-81 | Succeeds exactly when the backend exists, accepts writes and holds the id. Then only the first position with that id is replaced, by the given record with updatedAt = now. The length and every other position are unchanged, and the id finds the new record. Otherwise nothing changes. |
| WorkoutStorage.SequenceStore.DeleteSequence | app/composables/useWorkoutStorage.ts:86-99 | Succeeds whenever the backend exists and accepts writes, even if no record matched. The list then keeps, in order, exactly the records with another id, and the id finds nothing. On failure nothing changes. |
| WorkoutStorage.SequenceStore.ClearAllSequences | app/composables/useWorkoutStorage.ts:112-125 | Succeeds exactly when the backend exists and accepts writes. Then the "workout-sequences" entry is gone, the list is empty and every other key is untouched. On failure nothing changes. |
| WorkoutStorage.NormalizeAllOfNormalized | app/composables/useWorkoutStorage.ts:21-26 | Records that already have a type read back unchanged. |
| WorkoutStorage.ReadAfterAppend | app/composables/useWorkoutStorage.ts:47-50 | A read list with one record appended reads back as that list followed by the normalised record. |
| WorkoutStorage.ReadAfterReplace | app/composables/useWorkoutStorage.ts:70-75 | A read list with one position replaced reads back with the normalised record at that position and every other position unchanged. |
| WorkoutStorage.FindByIdAfterAppend | app/composables/useWorkoutStorage.ts:104-107 | After appending a record, its id finds it if the id was absent before. If the id was present, the earlier record is still found. |
| WorkoutStorage.FindByIdAfterReplace | app/composables/useWorkoutStorage.ts:66-75 | Replacing the first record with an id by another with that id makes the lookup find the replacement. |
| WorkoutStorage.FilterByTypeAppend | app/composables/useWorkoutStorage.ts:29-31 | Filtering two lists laid end to end gives the two filtered lists laid end to end, so stored order is kept. |
| WorkoutStorage.FilterByTypePartition | app/composables/useWorkoutStorage.ts:21-31 | The workout and warmup reads of a read list have lengths that add up to the list's length. |
| WorkoutStorage.RemoveIdAppend | app/composables/useWorkoutStorage.ts:91 | Removal from two lists laid end to end gives the two results laid end to end, so the remaining records keep their order. |
| WorkoutStorage.RemoveIdAbsent | app/composables/useWorkoutStorage.ts:91 | Removing an id that no record has leaves the list unchanged. |
| WorkoutStorage.RemoveIdIdempotent | app/composables/useWorkoutStorage.ts:90-94 | Deleting an id twice leaves the same list as deleting it once. |

## Left out

- Launch history: recording launches, reading recent launches and the 3-entry bound have no code in the modelled files. Only the `WorkoutLaunch` record type exists, and it is declared without behaviour.
- JSON encoding and decoding are foreign calls. The stored text is abstracted as `Stored`. A list the store writes always reads back as `Parsed` of that list, and dates (written as strings and rebuilt with `new Date`) read back unchanged.
- `JSON.parse` of text that parses but is not a list of records (a number, `null`, or an array of non-objects) falls under `Corrupt`. The source's behaviour on arrays of non-objects is not modelled.
- A stored `type` that is present but falsy (an empty string) is not modelled. Only a missing `type` is, as `None`.
- `console.error` logging is dropped.
- Browser globals (`window`, `localStorage`) are the fields of `SequenceStore`. A serialisation failure in `JSON.stringify` cannot happen for these records and is not modelled. Quota, permission and other write errors are the single flag `writable`.
- Concurrency: two tabs writing the same key can lose updates. The model has one writer.
- Numbers are `nat`. Fractional, negative or NaN durations, repetitions and breaks are not modelled. JavaScript shows integers of 10^21 or more in exponent notation; the model always uses plain decimal digits. Above 2^53 JavaScript number arithmetic rounds, so the sums and products at app/composables/useSequenceUtils.ts:22 can differ there from the model's exact integers.
- Returned records are values. Mutating a returned JavaScript object without saving it, and object identity, are not modelled.
- The `Create*` input types of app/types/workout.ts are not used by the modelled code. nuxt.config.ts is build configuration and is not part of this model.
