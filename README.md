# Rhythm-game core in Dafny

This project models the deterministic core of a six-zone rhythm game written in JavaScript, and proves properties of it:

- **Score system** (`Scoring`). Score, combo, max combo, hit count and per-grade counters, updated in place, plus the weighted accuracy.
- **Grade table** (`Grades`). The ordered threshold table searched first-match, the final-score bonus, and the thousands-separator formatter.
- **Chart model** (`ChartValidation`, `ChartTiming`, `ChartData`). It covers:
  - structural validation that stops at the first failure;
  - the default and sort rules of the tempo-change and time-signature lists;
  - beat-map generation;
  - the range, tempo, section and nearest-beat queries;
  - note statistics and the difficulty rating.
- **Gameplay loop** (`Gameplay`). It covers:
  - chart-note sanitising;
  - `start` and `stop`;
  - the scheduling scan;
  - expiry of notes that were not hit;
  - closest-note judgement with the 50/100/200 ms windows;
  - the score updates and the end-of-song check.

  The clock reading and the pressed zones are explicit arguments of `Tick(now, pressed)`.
- **Input handler** (`Input`). Edge-triggered keyboard and gamepad buffering, mapping to zones, draining the buffers on read, and the remap state machine.

Shared modules:

- `Wrappers`: `Option`, `Result`, `Outcome`.
- `Numbers`: JavaScript numbers as reals or NaN, `Math.round`, decimal strings, ASCII lower-casing.
- `JsValues`: the dynamically typed chart values, with truthiness and `Number()` coercion.
- `Sorting`: the stable sort used for the chart's lists.

The code works by updating state step by step in these places, and each becomes a Dafny `class` whose methods carry `modifies` clauses:

- `ScoreSystem`, `ChartData`, `Gameplay` and `InputHandler`;
- the loops in `getAccuracy`, `validate`, `processTimingData`, `getBPMAtTime` and `getNoteStats`;
- the sanitising loop, the scheduling `while`, the backward expiry loop, the closest-note search, the gamepad poll and the drain in `getPressedZones`.

Each of these methods is proved against a specification function of the old state, and the properties are proved about those functions. A tick of a running game (`Advance`) is proved equal to its steps composed: the scan's spawned notes are appended, `ExpireAll` removes and misses the due notes, and `PressAll` tries each pressed zone in order on what is left. `Tick` only adds the guard for a stopped game.

The game's invariant (`Valid`) says that each note is judged exactly once. A ghost count of the notes spawned since `start()` always equals the number of judged notes plus the number of notes in flight. The judged indices and the indices in flight are disjoint, and the indices in flight are distinct. So when the session ends with nothing in flight, the grade total has risen by exactly the number of notes spawned.

`start()` does not reset the score system, and the model keeps that behaviour. Only `scheduledIndex`, `activeNotes`, `running` and `latencyOffset` are set, so a second session adds to the first one's score.

Two defects of the code are logged under Findings, and the handler and the expiry loop run the corrected versions:

- An expired note goes through `_onMiss`, which as written records two misses. The model's expiry loop calls the corrected handler, which records one, so that the grade sum counts each judged note once. `Gameplay.ExpiryMissesAsWrittenFacts` states what the loop as written does to the score.
- The default key map as written has upper-case keys that the lower-cased lookup never finds. The handler's constructor installs the lower-case map. `Input.DefaultKeyMapAsWrittenPressedZones` states what a handler with the as-written map reports.

## Model

| member | source | states |
|---|---|---|
| Scoring.Fresh | scripts/scoring.js:2-8 | a new score system has score, combo, max combo and hits at 0 and exactly the four grade counters, all 0 |
| Scoring.ScoreSystem.constructor | scripts/scoring.js:2-8 | the constructed object's state is the fresh state and satisfies max combo ≥ combo |
| Scoring.AfterHit | scripts/scoring.js:10-15 | a hit adds the points to the score and one to the hits and the combo, leaves the grade counters unchanged, and max combo becomes the larger of the old max and the new combo, so max combo ≥ combo holds |
| Scoring.ScoreSystem.AddHit | scripts/scoring.js:10-15 | the fields change exactly as the hit step says (score + points, combo and hits + 1, max combo updated, grades untouched) and the invariant is kept |
| Scoring.AfterGrade | scripts/scoring.js:17-21 | only the named counter rises, by exactly one (from 0 if absent); combo becomes 0 exactly for 'miss'; score, hits and max combo are untouched |
| Scoring.ScoreSystem.RegisterGrade | scripts/scoring.js:17-21 | the in-place update equals the grade step and keeps max combo ≥ combo |
| Scoring.AfterMiss | scripts/scoring.js:23-26 | a miss leaves combo 0 and the miss counter exactly one higher, every other counter and score, hits and max combo unchanged |
| Scoring.ScoreSystem.Miss | scripts/scoring.js:23-26 | the in-place update equals the miss step |
| Scoring.AccuracyOf | scripts/scoring.js:28-51 | 0 when hits plus misses is 0; NaN when that is positive but the four counters sum to 0; otherwise within 0.005 of 100·(perfect + 0.8·great + 0.5·good)/(grade sum); always a whole number of hundredths in [0, 100] |
| Scoring.RoundedHundredths | scripts/scoring.js:50-51 | the integer rounding is within half a hundredth of the exact accuracy and at most 10000 |
| Scoring.WeightedCountOfWeights | scripts/scoring.js:34-48 | the loop over the weight table sums to 10·perfect + 8·great + 5·good tenths, and its plain count is the grade sum |
| Scoring.ScoreSystem.GetAccuracy | scripts/scoring.js:28-52 | the accumulating loop returns exactly the accuracy of the current state |
| Scoring.AccuracyExample | scripts/scoring.js:33-51 | counts 8 perfect, 1 great, 1 good, 0 miss give accuracy 93 |
| Scoring.ApplyFacts | scripts/scoring.js:10-26 | one call keeps max combo ≥ combo and never lowers max combo; only `addHit` adds its points and one hit; `miss` and `registerGrade` of one of the four grades add one to the grade sum |
| Scoring.RunFacts | scripts/scoring.js:10-26 | over any sequence of calls: max combo ≥ combo is kept, max combo never decreases, score grows by exactly the hit points, hits counts the hits, each grade-recording call adds one to the grade sum |
| Scoring.ThreeHitsThenMiss | scripts/scoring.js:10-26 | three hits then a miss leave combo 0, max combo 3, hits 3 and one miss |
| Grades.TableDescending | scripts/grades.js:3-11 | the thresholds strictly decrease in declaration order |
| Grades.TableNamesDistinct | scripts/grades.js:3-11 | no two entries share a grade name |
| Grades.ScanFrom | scripts/grades.js:15-18 | the scan from any position stops at the first matching entry, or falls back to F when none matches |
| Grades.GradeIndex | scripts/grades.js:14-18 | the chosen entry matches and no earlier entry matches, or nothing matches and F is chosen |
| Grades.CalculateGrade | scripts/grades.js:14-19 | the result is the table entry at the first-match position, with its grade name |
| Grades.GradeTotal | scripts/grades.js:14-19 | every accuracy ≥ 0 matches the chosen entry; anything below 0, or NaN, yields F |
| Grades.GradeMonotone | scripts/grades.js:3-17 | a higher accuracy never yields a lower-ranked grade |
| Grades.GradeBoundaries | scripts/grades.js:14-17 | the comparison is inclusive: 100 is SSS+, 99.5 SSS, 99.49 and 98 SS, 59.99 F |
| Grades.EntryNamed | scripts/grades.js:28 | the entry with the given name, or F's entry when no entry has that name |
| Grades.CalculateFinalScore | scripts/grades.js:27-30 | the nearest integer to base + the grade's reward (F's reward for an unknown name) |
| Grades.FinalScoreOfInteger | scripts/grades.js:27-30 | for an integer base the final score is exactly base + reward, and base itself for an unknown grade |
| Grades.FormatNumber | scripts/grades.js:22-24 | the formatted text is never empty |
| Grades.GroupUnformat | scripts/grades.js:22-24 | deleting the commas from a grouped digit string gives the digits back |
| Grades.FormatNumberUnformat | scripts/grades.js:22-24 | deleting the commas gives back `String(n)`, with its minus sign for a negative n |
| Grades.GroupWellGrouped | scripts/grades.js:22-24 | grouping produces digits and commas only, a first group of 1 to 3 digits and exactly three digits after every comma |
| Grades.FormatNumberGroups | scripts/grades.js:22-24 | for a non-negative integer the formatted text is well grouped in that sense |
| Grades.GroupMatchesRegex | scripts/grades.js:23 | grouping from the right equals inserting a comma at every non-initial position followed by a multiple of three digits, which is what the regular expression does |
| Grades.FormatExamples | scripts/grades.js:22-24 | 999 stays 999, 1000 becomes 1,000 and 1234567 becomes 1,234,567 |
| Numbers.Round | scripts/grades.js:29 | `Math.round`: the integer r with r − 0.5 ≤ x < r + 0.5, so halves round up |
| Numbers.RoundOfInteger | scripts/grades.js:29 | rounding an integer gives that integer |
| Numbers.Clamp | scripts/chartData.js:169 | the clamped value lies in the bounds and equals x when x already does |
| Numbers.NatToString | scripts/input.js:61 | `String(n)` is a non-empty digit string without a leading zero |
| Numbers.NatToStringValue | scripts/input.js:61 | the decimal string denotes n |
| Numbers.NatToStringInjective | scripts/input.js:61 | different button indices have different names |
| Numbers.LowerChar | scripts/input.js:78 | upper-case ASCII letters are shifted to lower case; every other character is kept |
| Numbers.ToLower | scripts/input.js:78 | lower-casing keeps the length and lowers each character |
| Numbers.ToLowerHasNoUpper | scripts/input.js:78 | a lower-cased key contains no upper-case letter |
| JsValues.ToNumber | scripts/chartData.js:80 | the coercion applied by the division: a number is itself; undefined and NaN coerce to NaN |
| ChartValidation.Validate | scripts/chartData.js:9-54 | the section, field and per-note loops return exactly the first failure of the validation specification, or success |
| ChartValidation.SectionsPassExactly | scripts/chartData.js:11-24 | the header checks pass exactly when meta, timing and notes are truthy and title, bpm and offset are defined |
| ChartValidation.NotesPassExactly | scripts/chartData.js:31-53 | the note scan passes exactly when every note from that index passes its own check |
| ChartValidation.ValidationAcceptsExactly | scripts/chartData.js:9-54 | a chart is accepted if and only if its header is complete, notes is an array and every note passes |
| ChartValidation.RejectsMissingRequiredField | scripts/chartData.js:19-23 | a missing title, bpm or offset is rejected with a header error, not a note error |
| ChartValidation.HeaderOrder | scripts/chartData.js:11-29 | the reported error is the first missing item in the order meta, title, bpm, timing, offset, notes, then the non-array check |
| ChartValidation.FirstFailingNoteFrom | scripts/chartData.js:31-53 | a failing scan reports the check of some note k, and every earlier note passes |
| ChartValidation.FirstFailingNote | scripts/chartData.js:31-33 | a note error names the index of the first failing note, after a passing header |
| ChartValidation.CheckSectionsErrors | scripts/chartData.js:17-24 | header failures are never note errors |
| ChartValidation.CheckFieldsErrors | scripts/chartData.js:19-23 | a failing field check reports a missing field |
| ChartValidation.HoldWithZeroDurationRejected | scripts/chartData.js:38-40 | a hold note with duration 0 is rejected, since 0 is falsy |
| ChartValidation.MultiWithScalarZoneRejected | scripts/chartData.js:46-50 | a multi note with a numeric zone is rejected |
| ChartValidation.UntypedOrUnknownTypePasses | scripts/chartData.js:36-52 | a note with time and zone and no type, or a type other than hold, chain or multi, passes |
| ChartTiming.Put | scripts/chartData.js:88-91 | `Map.set`: the entry is replaced, and a new key goes to the end of the key order while an existing key keeps its place |
| ChartTiming.MsPerBeat | scripts/chartData.js:80-85 | a segment is used exactly when 60000/bpm is finite and positive, that is when the coerced tempo is a positive number; the value times the tempo is 60000 |
| ChartTiming.StepsDecrease | scripts/chartData.js:87-93 | each pass of the beat loop brings time closer to the segment end, so the loop ends |
| ChartTiming.FillSegmentWellFormed | scripts/chartData.js:87-93 | filling a segment keeps the key order free of duplicates and equal to the map's key set |
| ChartTiming.FillFromWellFormed | scripts/chartData.js:74-97 | the same for the remaining segments |
| ChartTiming.BeatMapWellFormed | scripts/chartData.js:66-97 | the generated beat map is well formed |
| ChartTiming.FillSegmentSound | scripts/chartData.js:87-93 | every new key of a segment lies in [change time, end), carries that segment's tempo and has beat (key − change time)/ms-per-beat ≥ 0 |
| ChartTiming.FillFromSound | scripts/chartData.js:74-97 | every key written by the remaining segments comes from a segment that places beats |
| ChartTiming.BeatMapSound | scripts/chartData.js:71-97 | every beat-map entry comes from some segment i with a valid tempo: key in [time_i, end_i), end_i the next change's time or the chart end, bpm_i, and beat (key − time_i)/ms-per-beat_i ≥ 0 |
| ChartTiming.FillSegmentKeeps | scripts/chartData.js:87-93 | keys already in the map stay there |
| ChartTiming.FillSegmentCovers | scripts/chartData.js:87-93 | every point time + j·ms-per-beat below the segment end becomes a key |
| ChartTiming.BeatOffsetFacts | scripts/chartData.js:92 | after j additions of ms-per-beat the time has moved by exactly j·ms-per-beat, never backwards |
| ChartTiming.FillSegmentCoversOffset | scripts/chartData.js:87-93 | every point reached by repeated additions of ms-per-beat that lies below the segment end becomes a key |
| ChartTiming.FillSegmentIncreasing | scripts/chartData.js:87-93 | a segment appends strictly increasing keys after keys that are all below its start |
| ChartTiming.FillFromIncreasing | scripts/chartData.js:74-97 | with tempo changes sorted by time, the remaining segments keep the keys strictly increasing |
| ChartTiming.BeatMapIncreasing | scripts/chartData.js:66-97 | with sorted tempo changes the beat map's keys are strictly increasing |
| Sorting.SortBySorted | scripts/chartData.js:58-59 | the sort returns a permutation of its input ordered by time |
| Sorting.SortByStable | scripts/chartData.js:58-59 | entries with equal times keep their original order |
| ChartData.ValidatedNotesAreObjects | scripts/chartData.js:27-33 | an accepted chart's notes are an array of objects |
| ChartData.BpmChangesOf | scripts/chartData.js:58-59 | the tempo changes are non-empty, sorted by time, a permutation of the chart's own, or the single default change at 0 with `bpm.init` or `bpm` when the chart has none |
| ChartData.TimeSignaturesOf | scripts/chartData.js:62-63 | the signatures are sorted and a permutation of the chart's own, or 4/4 at time 0 when absent |
| ChartData.MaxTime | scripts/chartData.js:71 | `Math.max` over the note times is NaN exactly when some time is not a number; otherwise it is at least every time and equal to one of them |
| ChartData.ChartEndAfterLastNote | scripts/chartData.js:71-72 | the chart end is at least 10000 ms after every note |
| ChartData.ChartData.constructor | scripts/chartData.js:3-7 | a constructed chart has object notes, non-empty sorted tempo changes and a well-formed beat map with increasing keys |
| ChartData.ChartData.ProcessTimingData | scripts/chartData.js:56-98 | the fields become the sorted tempo changes, the sorted signatures and the beat map of the tempo changes up to the chart end |
| ChartData.ChartData.MapSegment | scripts/chartData.js:87-93 | the `while` loop adds exactly the segment's beats to the map |
| ChartData.ChartData.Load | scripts/chartData.js:3-7 | construction fails with the validation error, or else with the type error of timing processing, and succeeds exactly when neither occurs |
| ChartData.NotesInRange | scripts/chartData.js:100-102 | a note is returned exactly when it is a note of the chart with start ≤ time < end |
| ChartData.NotesInRangeAppend | scripts/chartData.js:100-102 | the filter keeps the original order: filtering a concatenation concatenates the results |
| ChartData.NotesInRangeSplit | scripts/chartData.js:100-102 | half-open ranges split cleanly: the counts for [s, m) and [m, e) add up to the count for [s, e) |
| ChartData.GetBpmAtTime | scripts/chartData.js:104-110 | the backward loop returns the tempo of the scan specification |
| ChartData.BpmScanMeaning | scripts/chartData.js:106-109 | the scan returns the tempo of the last change at or before the time, or the first change's tempo if there is none |
| ChartData.BpmAtMeaning | scripts/chartData.js:104-110 | the tempo at a time is that of the last change at or before it, or the first change's |
| ChartData.BpmScanAt | scripts/chartData.js:106-108 | when change i is the last one at or before the time, the scan returns its tempo |
| ChartData.BpmAtBeat | scripts/chartData.js:104-110 | with sorted changes, the tempo at any beat-map key is the tempo recorded in that entry |
| ChartData.FindSection | scripts/chartData.js:114 | `find` returns the first section with start ≤ time < end, or not-found exactly when none contains the time |
| ChartData.SectionAtTime | scripts/chartData.js:112-115 | null with no sections; otherwise the first section containing the time, and one is found whenever one contains it |
| ChartData.Closest | scripts/chartData.js:119-122 | the reduce returns a key at minimal distance from the time, the earliest such key on ties |
| ChartData.NearestEarliestExtend | scripts/chartData.js:120-121 | one reduce step: the last key replaces the running best only when strictly closer, and the result stays the earliest nearest key |
| ChartData.BeatInfo | scripts/chartData.js:117-125 | an empty beat map throws; otherwise the result is the entry of the key at minimal distance from the time that comes first in the map's order among the equally near keys, and that key is nearest among all entries of the map |
| ChartData.NearestKeyOfMap | scripts/chartData.js:119-124 | the key the reduce picks from the map's key list is a key of the map and nearest among all its entries |
| ChartData.CountKind | scripts/chartData.js:137-140 | no counter exceeds the number of notes |
| ChartData.GetNoteStats | scripts/chartData.js:128-143 | the counting loop yields exactly the note statistics |
| ChartData.NoteStatsPartition | scripts/chartData.js:137-140 | each note is counted once: regular, hold, chain, multi, type 'total' and other types add up to the number of notes |
| ChartData.NoteStatsTotal | scripts/chartData.js:129-130 | without notes typed 'total', the total is the number of notes |
| ChartData.CalculateDifficulty | scripts/chartData.js:146-175 | a truthy stated difficulty is returned as is; otherwise the level is in 1..15, NaN exactly when there are no notes or a time is not a number, and 15 when the last note is at 0 |
| ChartData.ClampedLevel | scripts/chartData.js:168-174 | the rounded clamped level lies in 1..15 |
| ChartData.ClampedLevelMonotone | scripts/chartData.js:168-174 | the level is monotone in the raw score |
| ChartData.DifficultyMonotoneInChanges | scripts/chartData.js:165-174 | more tempo changes never lower the computed level |
| Gameplay.FloorClamp | scripts/gameplay.js:77-79 | the floored zone is clamped into [0, 5] |
| Gameplay.SanitizeNotes | scripts/gameplay.js:66-83 | the loop yields the sanitised notes, skipped + kept equals the number of notes, and clamped counts the zones moved into range |
| Gameplay.SanitizedAppend | scripts/gameplay.js:71-82 | sanitising works note by note and keeps the order |
| Gameplay.ZoneIndex | scripts/gameplay.js:301-310 | a zone has a position exactly when it is an integer in [0, 5] |
| Gameplay.SanitizedNotes | scripts/gameplay.js:71-82 | every kept note has numeric time and a zone with a position, and comes from an input note with its other fields preserved |
| Gameplay.SanitizeIdempotent | scripts/gameplay.js:66-83 | sanitising already sanitised notes changes nothing |
| Gameplay.ScanEndFacts | scripts/gameplay.js:342-356 | the scan never moves backwards, never passes the end, passes only invalid or due notes, and stops at the first valid note not yet due |
| Gameplay.ScanEndMonotone | scripts/gameplay.js:350-354 | a later clock reading never schedules fewer notes |
| Gameplay.SpawnedFacts | scripts/gameplay.js:342-356 | each spawned note carries a chart index the scan passed, and the indices strictly increase |
| Gameplay.SpawnedNotes | scripts/gameplay.js:342-356 | each spawned note is the due chart note at its index, with that note's time as target and a zone that has a position |
| Gameplay.ExpiredIff | scripts/gameplay.js:361-371 | progress ≥ 1 exactly when now ≥ target time |
| Gameplay.MissTimesFacts | scripts/gameplay.js:371-377 | k misses through the corrected `_onMiss` keep max combo ≥ combo and add k to the grade sum |
| Gameplay.ExpiryMissesAsWrittenFacts | scripts/gameplay.js:371-377 | k expired notes through the as-written `_onMiss` (lines 498-502) keep max combo ≥ combo and add 2k to the miss counter and to the grade sum |
| Gameplay.RemainingFacts | scripts/gameplay.js:359-378 | the notes kept are exactly those with now < target time; the expired indices are exactly those of notes with now ≥ target; kept + expired = all |
| Gameplay.RemainingIncreasing | scripts/gameplay.js:359-378 | removal keeps the remaining notes in chart order |
| Gameplay.ExpiredIndicesCount | scripts/gameplay.js:359-378 | the number of distinct expired indices equals the number of expired notes |
| Gameplay.FindClosest | scripts/gameplay.js:463-470 | −1 exactly when no active note is in the zone; otherwise a note in the zone at minimal distance from now, the earliest one on ties |
| Gameplay.Judge | scripts/gameplay.js:472-477 | the grade is one of the four, miss exactly beyond 200 ms, and a miss scores 0 |
| Gameplay.JudgeMonotone | scripts/gameplay.js:474-477 | a closer press never scores fewer points |
| Gameplay.JudgeBoundaries | scripts/gameplay.js:474-477 | the windows are inclusive: 50 perfect/300, 50.5 great, 100 great/150, 200 good/50, 200.5 miss |
| Gameplay.AfterJudgeFacts | scripts/gameplay.js:485-495 | a judged press keeps max combo ≥ combo and adds exactly one to the grade sum |
| Gameplay.Gameplay.constructor | scripts/gameplay.js:6-57 | a new game has a fresh score system, no chart, no active notes, is not running, and has the given latency |
| Gameplay.Gameplay.LoadSong | scripts/gameplay.js:59-101 | a loaded note list is replaced by its sanitised form, with the skipped and clamped counts; audio presence is recorded |
| Gameplay.Gameplay.Start | scripts/gameplay.js:103-115 | running, scheduled index 0, no active notes, nothing judged or spawned, latency re-read; the score and chart are left as they were |
| Gameplay.Gameplay.FreshSessionValid | scripts/gameplay.js:103-115 | a session with nothing in flight, judged or spawned, counted from the current grade total, satisfies the invariant |
| Gameplay.Gameplay.Stop | scripts/gameplay.js:117-120 | the game is not running, however often it is called |
| Gameplay.Gameplay.Schedule | scripts/gameplay.js:342-356 | the index advances to the end of the scan, exactly the spawned notes are appended to the active notes, and the spawned count rises by their number |
| Gameplay.Gameplay.ScheduleDue | scripts/gameplay.js:342 | with a chart and notes left the scan runs; otherwise nothing is spawned and the index stays |
| Gameplay.Gameplay.SpawnNote | scripts/gameplay.js:300-330 | a note with a position becomes an active note with its time and zone and is counted as spawned; one without a position is not added |
| Gameplay.Gameplay.ScheduleValid | scripts/gameplay.js:342-356 | after scheduling, every active note has a valid zone, an index below the scheduled index that was never judged, and indices strictly increase, so no chart index is in play twice |
| Gameplay.Gameplay.OnMissAsWritten | scripts/gameplay.js:498-502 | the as-written miss handler applies a miss and then a second 'miss' grade |
| Gameplay.Gameplay.OnMiss | scripts/gameplay.js:498-502 | the corrected miss handler applies exactly one miss |
| Gameplay.Gameplay.Expire | scripts/gameplay.js:359-378 | exactly the expired notes are removed, each is judged and counted as a miss, and every remaining note has now < target time |
| Gameplay.Gameplay.RemoveExpired | scripts/gameplay.js:359-378 | the backward splice loop leaves the unexpired notes in order and records one miss per expired note, through the corrected `_onMiss` |
| Gameplay.Gameplay.ExpireValid | scripts/gameplay.js:359-378 | expiry keeps the game invariant: every judged index was scheduled once, none is active, and the grade sum rises by one per judged note |
| Gameplay.Gameplay.TryHit | scripts/gameplay.js:460-496 | with no note in the zone nothing changes; otherwise exactly the closest note is removed and judged, once, and the score changes by its grade |
| Gameplay.ClosestMeaning | scripts/gameplay.js:463-470 | the search finds a note exactly when the zone has one, and then the earliest of the nearest notes |
| Gameplay.ClosestUnique | scripts/gameplay.js:463-470 | only one position is the earliest nearest note of a zone |
| Gameplay.PressStepFacts | scripts/gameplay.js:471-495 | one `_tryHit` removes at most one note, keeps the judged indices and max combo ≥ combo, and adds one grade per removed note |
| Gameplay.PressAllFacts | scripts/gameplay.js:444-445 | trying the pressed zones in order removes at most one note per press, keeps the judged indices and max combo ≥ combo, and raises the grade sum by one per removed note |
| Gameplay.PressEmptyZone | scripts/gameplay.js:463-471 | a press in a zone without notes changes nothing |
| Gameplay.Gameplay.TryHitValid | scripts/gameplay.js:479-483 | removing the judged note keeps the game invariant |
| Gameplay.Gameplay.JudgePresses | scripts/gameplay.js:444-445 | the active notes, judged indices and score become those of trying each pressed zone in order with `_tryHit`; the game invariant is kept and each press removes at most one active note |
| Gameplay.Gameplay.TryHitIsPressStep | scripts/gameplay.js:460-496 | the state `_tryHit` leaves is exactly one step of the press fold: unchanged for a zone with no note, else the earliest nearest note spliced out and judged |
| Gameplay.Gameplay.CheckEnd | scripts/gameplay.js:450-457 | when a chart is loaded, everything is scheduled, nothing is active and, with audio, the clock has reached the last note's time + 2000 ms, the results are computed from the score (accuracy, grade, final score) and the game stops, every spawned note has been judged and the grade total has risen by the number of notes spawned; otherwise nothing changes |
| Gameplay.Gameplay.Tick | scripts/gameplay.js:338-458 | a stopped game is not ticked: active notes, scheduled index, score and results stay as they were; the scheduled index never decreases; the chart, audio flag and latency are outside what a tick may change |
| Gameplay.Gameplay.Advance | scripts/gameplay.js:342-458 | a running tick moves the index to the end of the scan, counts the spawned notes, and leaves the notes, judged indices and score of `PressAll` applied after `ExpireAll` to the old notes plus the spawned ones; every note left is ahead of the clock; at the end the results come from the score and every spawned note is judged; otherwise running and results are kept |
| Gameplay.Gameplay.ExpireThenJudge | scripts/gameplay.js:359-445 | expiry and then the presses: the state is `PressAll` after `ExpireAll` of the old state, and every note left is ahead of the clock |
| Gameplay.ExpiryBeforePresses | scripts/gameplay.js:359-445 | because expiry runs first, a press judges only a note whose target time is still ahead of the clock, and only such notes stay in flight |
| Gameplay.PressAllFromActive | scripts/gameplay.js:444-496 | presses only remove notes in flight, and every index they judge belongs to one of them |
| Gameplay.OnMissAsWrittenCountsTwice | scripts/gameplay.js:498-502 | as written, one expired note raises the miss counter and the grade sum by 2, where a miss raises them by 1 |
| Gameplay.OnMissAccuracyExample | scripts/gameplay.js:498-502 | one perfect and one expired note give accuracy 33.33 as written and 50 when corrected |
| Input.SetAdd | scripts/input.js:32 | `Set.add`: the element is present afterwards, nothing else is added, an existing element changes nothing and no duplicate arises |
| Input.KeyZonesMeaning | scripts/input.js:77-79 | a zone comes from the key buffer exactly when some buffered key maps to it after lower-casing |
| Input.ButtonZonesMeaning | scripts/input.js:80 | a zone comes from the button buffer exactly when some buffered button maps to it |
| Input.PressedZonesMeaning | scripts/input.js:75-83 | the pressed zones have no repeats, and a zone is reported exactly when a buffered key or button maps to it |
| Input.DefaultKeyMapAsWrittenNeverMatches | scripts/input.js:11 | with the default key map as written, no key in any case ever yields a zone |
| Input.DefaultKeyMapAsWrittenPressedZones | scripts/input.js:11 | with the as-written default key map the pressed zones are those of the buffered buttons alone, whatever keys were pressed |
| Input.DefaultKeyMapMatches | scripts/input.js:75-79 | with lower-case defaults, `p` and `P` both reach zone 2 and unmapped keys are ignored |
| Input.AfterKeyDown | scripts/input.js:31-33 | the key is buffered unless it was already held, and is held afterwards |
| Input.KeyDownIdempotent | scripts/input.js:30-33 | a repeated keydown of a held key changes neither the buffer nor the held keys |
| Input.KeyBufferedOnce | scripts/input.js:30-39 | pressing, releasing and pressing again before a drain buffers the key once |
| Input.StatesStep | scripts/input.js:67 | remembering button n's state updates exactly entry n |
| Input.RisingStep | scripts/input.js:57-67 | a button is buffered exactly when pressed now and not at the previous poll |
| Input.InputHandler.constructor | scripts/input.js:4-25 | the maps from the settings or the corrected lower-case default key map; empty buffers; no remap |
| Input.InputHandler.OnKeyDown | scripts/input.js:30-38 | the edge-buffer step; during a remap the lower-cased key is bound to the target zone, the remap ends and resolves with that key |
| Input.InputHandler.OnKeyUp | scripts/input.js:39 | only the key's held state is forgotten |
| Input.InputHandler.Poll | scripts/input.js:56-69 | exactly the rising-edge buttons are buffered, in index order; every button's state is remembered; the first rising edge completes a waiting remap |
| Input.InputHandler.VisitButton | scripts/input.js:57-68 | one button: buffered on a rising edge, bound on a rising edge during a remap, state remembered |
| Input.InputHandler.GetPressedZones | scripts/input.js:75-83 | returns the pressed zones of the buffers and empties both, so an immediate second call returns nothing |
| Input.InputHandler.GetMappings | scripts/input.js:85 | returns the two maps as values, so the caller cannot change the handler's maps through them |
| Input.InputHandler.StartRemap | scripts/input.js:87-91 | fails while a remap is active; otherwise arms one for the zone |
| Input.InputHandler.EndRemap | scripts/input.js:93 | no remap is active, no target, no waiting resolver |
| Input.InputHandler.ResetBuffers | scripts/input.js:95 | both buffers are empty; the maps and held keys are untouched |

## Left out

- Rendering and animation are not modelled. This covers PIXI sprites, rings, particles, glows, blooms, parallax, the hit feedback, the combo modal, the results overlay, the validation toast and the pointer listener. None of them feeds back into judgement.
- I/O is not modelled. This covers `fetch` and `res.json()` in `loadSong`, dynamic `import()`, audio loading and playback, and `console.warn`. `LoadSong` takes the parsed note list, or none when loading failed, and whether audio loaded.
- The clock is a parameter. `performance.now()` and the audio clock become the `now` argument of `Tick`, one reading per tick, and `TryHit` judges with the same reading. The audio time at the end check is that same `now`.
- The ticker is not modelled. `start()` adding `_update` to the ticker, and the double registration when `start()` runs twice, are left out.
- The gamepad is partly modelled. Choosing the gamepad (`pads[gamepadIndex] || pads[0]`), the connect and disconnect listeners, and `requestAnimationFrame` are left out. `Poll` takes the pressed state of each button of the chosen pad.
- JavaScript numbers are modelled as exact reals, with no binary floating-point rounding. `toFixed(2)` is modelled as round-half-up of the exact accuracy.
- Infinity is not modelled. Where the chart code's result depends on it, the model states that result directly: level 15 for a chart whose last note is at 0, and NaN for `Math.max` of no notes.
- Times are real milliseconds, not integers, so the beat map can hold fractional keys.
- `toLowerCase` is modelled on ASCII letters only.
- `Number()` coercion of strings, arrays and objects gives NaN in `JsValues.ToNumber`. Numeric strings such as "120" are not parsed.
- Sorting is modelled as a new sorted list. The chart's own arrays are sorted in place by the JavaScript code; aliasing with the raw chart is not modelled.
- A remap's promise is modelled as a pending flag. The value it resolves with is `OnKeyDown`'s or `Poll`'s result. The rejected promise of a second `startRemap` is `Fail`.
- `setInverted` and the `inverted`, `polling` and `gamepadIndex` fields are not modelled. They do not affect the buffers, the maps or the remap state.
- A `null` entry in the notes array: the source throws a `TypeError` while reading `.time`, and `ChartValidation` reports it as a note error for that index.
- Note statistics for a note whose type names an inherited property (such as "constructor") are lumped with the other unknown types.
- `ChartData.ChartData.constructor` requires a chart that validation and timing processing accept. Charts that throw are handled by `ChartData.ChartData.Load`, which returns the error.
- The branch at scripts/gameplay.js:363-369 removes an active note whose zone has no position. It cannot run, because `_spawnNote` only adds notes with a position. The model proves that invariant instead.
- A chart document whose `notes` field is not an array is not modelled for gameplay: `LoadSong` receives a note list or nothing.
- Each active note carries its chart index (`ActiveNote.index`). This is a bookkeeping field added to state that each index is scheduled once and judged exactly once.
- `_showResults` runs asynchronously after a dynamic import. `CheckEnd` computes the results synchronously, before `stop()`.
- Gameplay.Gameplay.Tick: its own contract states only the guard for a stopped game and the frame facts. What a running tick does is stated by `Advance`, which it calls.
- Gameplay.Gameplay.Expire: removes the due notes through the corrected `_onMiss`, one miss each, not the two misses of scripts/gameplay.js:498-502 as written. The as-written effect on the score is stated by `Gameplay.ExpiryMissesAsWrittenFacts`.
- Gameplay.Gameplay.RemoveExpired: its loop calls the corrected `OnMiss`, not `OnMissAsWritten`, for the same reason.
- Gameplay.Gameplay.ExpireValid: the invariant that the grade sum rises by one per judged note holds for the corrected handler only. As written, each expired note adds two.
- Input.InputHandler.constructor: without key settings it installs the corrected lower-case default key map. The as-written map of scripts/input.js:11 never matches a key, as stated by `Input.DefaultKeyMapAsWrittenNeverMatches` and `Input.DefaultKeyMapAsWrittenPressedZones`; a handler built with it is not itself modelled.
- The `time` of tempo changes and time signatures, and a section's `startTime` and `endTime`, are numbers by assumption. Lost cases: a change with a missing or non-numeric `time`, where the sort comparator returns NaN and the beat loop's `time < endTime` is false, so that segment maps nothing; a next change whose `time` is undefined; `null` entries in these lists; and truthy non-array `bpmChanges`, `timeSignatures` or `sections`, where `.sort` throws a `TypeError`.
- Grades.EntryNamed: `GRADES[grade]` also finds inherited properties, so a name such as "constructor" gives a function without a `reward` and a final score of `Math.round(NaN)`. The model falls back to F's entry for every name outside the table. The game never passes such a name, since the grade comes from `calculateGrade`.
- Grades.FormatNumber: its own contract states only that the text is non-empty. Grouping and round-trip are stated by `Grades.FormatNumberGroups` and `Grades.FormatNumberUnformat`; a fractional number's digits after the point are not modelled.

## Findings

| source | as written | input that shows it | evidently intended | confidence | as-written member | corrected member |
|---|---|---|---|---|---|---|
| scripts/input.js:11 | the default key map uses the upper-case keys P W Q E O I, while `getPressedZones` looks up the lower-cased key (line 78) | no key map in the settings and the key `p` or `P` pressed: the lookup of `p` finds nothing, so no default key ever produces a zone | the same keys in lower case, as the lookup expects | not executed | Input.DefaultKeyMapAsWrittenNeverMatches | Input.DefaultKeyMapMatches |
| scripts/gameplay.js:498-502 | `_onMiss` calls `score.miss()`, which already records a miss, and then `registerGrade('miss')` | one perfect hit then one expired note: the miss counter is 2 and the accuracy 33.33 | one miss per expired note, like the miss branch of `_tryHit` (line 492), giving 50 | not executed | Gameplay.OnMissAccuracyExample | Gameplay.Gameplay.OnMiss |
