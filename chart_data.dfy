/**
 * `ChartData`: a validated chart with its sorted tempo changes, sorted
 * time signatures and beat map, and the queries the game makes of it.
 */
module ChartData {
  import opened Numbers
  import opened JsValues
  import opened Wrappers
  import opened Sorting
  import opened ChartValidation
  import opened ChartTiming

  function BpmTime(c: BpmChange): real { c.time }
  function SignatureTime(s: TimeSignature): real { s.time }

  /** Every element of the notes array is an object (validation rejects `null`). */
  predicate AllObjects(notes: seq<RawNote>)
  {
    forall i :: 0 <= i < |notes| ==> notes[i].Note?
  }

  /** A chart that passes validation has an array of note objects. */
  lemma ValidatedNotesAreObjects(raw: RawChart)
    requires ValidationResult(raw).Pass?
    ensures raw.notes.NotesArray? && AllObjects(raw.notes.items)
  {
    ValidationAcceptsExactly(raw);
    forall i | 0 <= i < |raw.notes.items|
      ensures raw.notes.items[i].Note?
    {
      assert CheckNote(raw.notes.items[i], i).Pass?;
    }
  }

  // Timing data

  /** `meta.bpm.init || meta.bpm`; `None` where reading `.init` of `null` or `undefined` throws. */
  function DefaultBpm(raw: RawChart): Option<Value>
  {
    if raw.bpm.Null? || raw.bpm.Undefined? then None
    else Some(if Truthy(raw.bpmInit) then raw.bpmInit else raw.bpm)
  }

  /**
   * The `TypeError` that `processTimingData` throws, if any: the default
   * tempo change reads `.init` of a `null` bpm, or a present but empty list
   * of tempo changes leaves `bpmChanges[0]` undefined.
   */
  function TimingError(raw: RawChart): Option<ChartError>
  {
    if raw.bpmChanges.None? && DefaultBpm(raw).None? then Some(TypeError("bpm of null"))
    else if raw.bpmChanges.Some? && |raw.bpmChanges.value| == 0 then Some(TypeError("no first tempo change"))
    else None
  }

  /** The tempo changes: the chart's own or one at time 0 with the default tempo, sorted stably by time. */
  function BpmChangesOf(raw: RawChart): (r: seq<BpmChange>)
    requires TimingError(raw).None?
    ensures |r| > 0 && SortedByTime(r)
    ensures raw.bpmChanges.Some? ==> multiset(r) == multiset(raw.bpmChanges.value)
    ensures raw.bpmChanges.None? ==> r == [BpmChange(0.0, DefaultBpm(raw).value)]
  {
    var given := if raw.bpmChanges.Some? then raw.bpmChanges.value else [BpmChange(0.0, DefaultBpm(raw).value)];
    SortBySorted(given, BpmTime);
    assert raw.bpmChanges.None? ==> SortBy(given, BpmTime) == [given[0]] by {
      if raw.bpmChanges.None? {
        assert given[..0] == [];
      }
    }
    SortBy(given, BpmTime)
  }

  /** The time signatures: the chart's own or 4/4 at time 0, sorted stably by time. */
  function TimeSignaturesOf(raw: RawChart): (r: seq<TimeSignature>)
    ensures SortedBy(r, SignatureTime)
    ensures raw.timeSignatures.Some? ==> multiset(r) == multiset(raw.timeSignatures.value)
    ensures raw.timeSignatures.None? ==> r == [TimeSignature(0.0, Num(4.0), Num(4.0))]
  {
    var given := if raw.timeSignatures.Some? then raw.timeSignatures.value
                 else [TimeSignature(0.0, Num(4.0), Num(4.0))];
    SortBySorted(given, SignatureTime);
    assert raw.timeSignatures.None? ==> SortBy(given, SignatureTime) == [given[0]] by {
      if raw.timeSignatures.None? {
        assert given[..0] == [];
      }
    }
    SortBy(given, SignatureTime)
  }

  function TimeOf(n: RawNote): Number
  {
    if n.Note? then ToNumber(n.time) else Number.NaN
  }

  /** `Math.max(...notes.map(n => n.time))` for a non-empty array. */
  function MaxTime(notes: seq<RawNote>): (r: Number)
    requires |notes| > 0
    ensures r.Finite? <==> forall i :: 0 <= i < |notes| ==> TimeOf(notes[i]).Finite?
    ensures r.Finite? ==> (forall i :: 0 <= i < |notes| ==> TimeOf(notes[i]).value <= r.value)
                           && exists i :: 0 <= i < |notes| && TimeOf(notes[i]) == r
    decreases |notes|
  {
    var last := TimeOf(notes[|notes| - 1]);
    if |notes| == 1 then last
    else
      var m := MaxTime(notes[..|notes| - 1]);
      assert forall i :: 0 <= i < |notes| - 1 ==> notes[..|notes| - 1][i] == notes[i];
      if m.NaN? || last.NaN? then Number.NaN
      else if m.value >= last.value then m
      else last
  }

  /** Ten seconds after the last note, or after five minutes when there are no notes; NaN if a time is not a number. */
  function ChartEndTime(notes: seq<RawNote>): Number
  {
    if |notes| == 0 then Finite(300000.0 + 10000.0)
    else match MaxTime(notes)
      case Finite(m) => Finite(m + 10000.0)
      case NaN => Number.NaN
  }

  /** The chart ends 10 seconds after its last note. */
  lemma ChartEndAfterLastNote(notes: seq<RawNote>, i: nat)
    requires i < |notes| && ChartEndTime(notes).Finite?
    ensures TimeOf(notes[i]).Finite? && TimeOf(notes[i]).value + 10000.0 <= ChartEndTime(notes).value
  {
  }

  class ChartData {
    const raw: RawChart
    const notes: seq<RawNote>
    var bpmChanges: seq<BpmChange>
    var timeSignatures: seq<TimeSignature>
    var beatMap: BeatMap

    ghost predicate Valid()
      reads this
    {
      ValidationResult(raw).Pass? && TimingError(raw).None? && raw.notes == NotesArray(notes)
      && bpmChanges == BpmChangesOf(raw)
      && timeSignatures == TimeSignaturesOf(raw)
      && beatMap == BeatMapOf(bpmChanges, ChartEndTime(notes))
    }

    /** `new ChartData(raw)` for a chart that validates and whose timing data can be processed. */
    constructor(raw: RawChart)
      requires ValidationResult(raw).Pass? && TimingError(raw).None?
      ensures Valid() && this.raw == raw
      ensures AllObjects(notes) && |bpmChanges| > 0 && SortedByTime(bpmChanges)
      ensures WellFormed(beatMap) && Increasing(beatMap.keys)
    {
      ValidatedNotesAreObjects(raw);
      this.raw := raw;
      this.notes := raw.notes.items;
      new;
      ProcessTimingData();
      BeatMapWellFormed(bpmChanges, ChartEndTime(notes));
      BeatMapIncreasing(bpmChanges, ChartEndTime(notes));
    }

    /** `processTimingData()`: sorts the timing lists and fills the beat map segment by segment. */
    method ProcessTimingData()
      requires TimingError(raw).None?
      modifies this
      ensures bpmChanges == BpmChangesOf(raw)
      ensures timeSignatures == TimeSignaturesOf(raw)
      ensures beatMap == BeatMapOf(bpmChanges, ChartEndTime(notes))
    {
      bpmChanges := BpmChangesOf(raw);
      timeSignatures := TimeSignaturesOf(raw);
      beatMap := EmptyBeatMap;
      var chartEnd := ChartEndTime(notes);
      var i := 0;
      while i < |bpmChanges|
        invariant 0 <= i <= |bpmChanges|
        invariant bpmChanges == BpmChangesOf(raw) && timeSignatures == TimeSignaturesOf(raw)
        invariant FillFrom(beatMap, bpmChanges, i, chartEnd) == BeatMapOf(bpmChanges, chartEnd)
      {
        var change := bpmChanges[i];
        var endTime := if i + 1 < |bpmChanges| then Finite(bpmChanges[i + 1].time) else chartEnd;
        var msPerBeat := MsPerBeat(change.bpm);
        assert endTime == SegmentEnd(bpmChanges, i, chartEnd);
        // A NaN end time makes `time < endTime` false at once.
        if msPerBeat.Some? && endTime.Finite? {
          MapSegment(change, endTime.value, msPerBeat.value);
        }
        i := i + 1;
      }
    }

    /** The `while (time < endTime)` loop of one tempo segment. */
    method MapSegment(change: BpmChange, endTime: real, msPerBeat: real)
      requires msPerBeat > 0.0
      modifies this`beatMap
      ensures beatMap == FillSegment(old(beatMap), change.time, change.time, endTime, msPerBeat, change.bpm)
    {
      var time := change.time;
      while time < endTime
        invariant FillSegment(beatMap, change.time, time, endTime, msPerBeat, change.bpm)
                  == FillSegment(old(beatMap), change.time, change.time, endTime, msPerBeat, change.bpm)
        decreases Steps(time, endTime, msPerBeat)
      {
        StepsDecrease(time, endTime, msPerBeat);
        beatMap := Put(beatMap, time, BeatEntry((time - change.time) / msPerBeat, change.bpm));
        time := time + msPerBeat;
      }
    }

    /** Validation, then construction: the error of whichever step throws first. */
    static method Load(raw: RawChart) returns (r: Result<ChartData, ChartError>)
      ensures ValidationResult(raw).Fail? ==> r == Failure(ValidationResult(raw).error)
      ensures ValidationResult(raw).Pass? && TimingError(raw).Some? ==> r == Failure(TimingError(raw).value)
      ensures r.Success? <==> ValidationResult(raw).Pass? && TimingError(raw).None?
      ensures r.Success? ==> fresh(r.value) && r.value.Valid() && r.value.raw == raw
    {
      var v := Validate(raw);
      if v.Fail? {
        return Failure(v.error);
      }
      var t := TimingError(raw);
      if t.Some? {
        return Failure(t.value);
      }
      var c := new ChartData(raw);
      return Success(c);
    }
  }

  // getNotesInRange

  predicate InRange(n: RawNote, start: real, end: real)
  {
    TimeOf(n).Finite? && start <= TimeOf(n).value < end
  }

  /** `notes.filter(n => n.time >= start && n.time < end)`. */
  function NotesInRange(notes: seq<RawNote>, start: real, end: real): (r: seq<RawNote>)
    ensures |r| <= |notes|
    ensures forall n :: n in r <==> n in notes && InRange(n, start, end)
    decreases |notes|
  {
    if notes == [] then []
    else
      var rest := NotesInRange(notes[..|notes| - 1], start, end);
      var last := notes[|notes| - 1];
      assert notes == notes[..|notes| - 1] + [last];
      if InRange(last, start, end) then rest + [last] else rest
  }

  /** Filtering keeps chart order: the range of a concatenation is the concatenation of the ranges. */
  lemma {:induction false} NotesInRangeAppend(a: seq<RawNote>, b: seq<RawNote>, start: real, end: real)
    ensures NotesInRange(a + b, start, end) == NotesInRange(a, start, end) + NotesInRange(b, start, end)
    decreases |b|
  {
    if b == [] {
      assert a + b == a;
    } else {
      var b' := b[..|b| - 1];
      assert (a + b)[..|a + b| - 1] == a + b';
      NotesInRangeAppend(a, b', start, end);
    }
  }

  /** Adjacent half-open ranges split the notes between them: none is counted twice or lost. */
  lemma {:induction false} NotesInRangeSplit(notes: seq<RawNote>, start: real, mid: real, end: real)
    requires start <= mid <= end
    ensures |NotesInRange(notes, start, end)| == |NotesInRange(notes, start, mid)| + |NotesInRange(notes, mid, end)|
    decreases |notes|
  {
    if notes != [] {
      NotesInRangeSplit(notes[..|notes| - 1], start, mid, end);
    }
  }

  // getBPMAtTime

  /** The backward scan over changes `0 .. n-1`. */
  function BpmScan(cs: seq<BpmChange>, time: real, n: nat): Value
    requires 0 < |cs| && n <= |cs|
  {
    if n == 0 then cs[0].bpm
    else if cs[n - 1].time <= time then cs[n - 1].bpm
    else BpmScan(cs, time, n - 1)
  }

  function BpmAt(cs: seq<BpmChange>, time: real): Value
    requires 0 < |cs|
  {
    BpmScan(cs, time, |cs|)
  }

  /** `getBPMAtTime(time)`: the loop from the last change down to the first. */
  method GetBpmAtTime(cs: seq<BpmChange>, time: real) returns (bpm: Value)
    requires 0 < |cs|
    ensures bpm == BpmAt(cs, time)
  {
    var i := |cs|;
    while i > 0
      invariant 0 <= i <= |cs|
      invariant BpmScan(cs, time, i) == BpmAt(cs, time)
    {
      if cs[i - 1].time <= time {
        return cs[i - 1].bpm;
      }
      i := i - 1;
    }
    return cs[0].bpm;
  }

  /** Index `i` is the last change at or before `time`. */
  predicate LastAtOrBefore(cs: seq<BpmChange>, time: real, i: nat)
  {
    i < |cs| && cs[i].time <= time && forall j :: i < j < |cs| ==> cs[j].time > time
  }

  lemma {:induction false} BpmScanMeaning(cs: seq<BpmChange>, time: real, n: nat)
    requires 0 < |cs| && n <= |cs|
    requires forall j :: n <= j < |cs| ==> cs[j].time > time
    ensures (exists i: nat :: LastAtOrBefore(cs, time, i) && BpmScan(cs, time, n) == cs[i].bpm)
            || ((forall j :: 0 <= j < |cs| ==> cs[j].time > time) && BpmScan(cs, time, n) == cs[0].bpm)
  {
    if n > 0 {
      if cs[n - 1].time <= time {
        assert LastAtOrBefore(cs, time, n - 1);
      } else {
        BpmScanMeaning(cs, time, n - 1);
      }
    }
  }

  /** The tempo at `time` is that of the last change at or before it, or the first change's when all are later. */
  lemma BpmAtMeaning(cs: seq<BpmChange>, time: real)
    requires 0 < |cs|
    ensures (exists i: nat :: LastAtOrBefore(cs, time, i) && BpmAt(cs, time) == cs[i].bpm)
            || ((forall j :: 0 <= j < |cs| ==> cs[j].time > time) && BpmAt(cs, time) == cs[0].bpm)
  {
    BpmScanMeaning(cs, time, |cs|);
  }

  lemma {:induction false} BpmScanAt(cs: seq<BpmChange>, time: real, n: nat, i: nat)
    requires 0 < |cs| && n <= |cs| && LastAtOrBefore(cs, time, i) && i < n
    ensures BpmScan(cs, time, n) == cs[i].bpm
  {
    if n - 1 != i {
      BpmScanAt(cs, time, n - 1, i);
    }
  }

  /**
   * With sorted changes, the tempo the query reports at a beat's time is the
   * tempo the beat map recorded for that beat.
   */
  lemma BpmAtBeat(cs: seq<BpmChange>, chartEnd: Number, k: real)
    requires 0 < |cs| && SortedByTime(cs)
    requires k in BeatMapOf(cs, chartEnd).entries
    ensures BpmAt(cs, k) == BeatMapOf(cs, chartEnd).entries[k].bpm
  {
    BeatMapSound(cs, chartEnd);
    var i :| BeatOf(cs, chartEnd, i, k, BeatMapOf(cs, chartEnd).entries[k]);
    assert LastAtOrBefore(cs, k, i);
    BpmScanAt(cs, k, |cs|, i);
  }

  // getSectionAtTime

  datatype SectionQuery = NoSections | NotFound | Found(section: Section)

  predicate Contains(s: Section, time: real)
  {
    s.startTime <= time < s.endTime
  }

  /** `sections.find(...)` from index `i` on. */
  function FindSection(ss: seq<Section>, time: real, i: nat): (r: SectionQuery)
    requires i <= |ss|
    ensures !r.NoSections?
    ensures r.Found? ==> exists k :: i <= k < |ss| && ss[k] == r.section && Contains(ss[k], time)
                                     && forall j :: i <= j < k ==> !Contains(ss[j], time)
    ensures r.NotFound? <==> forall j :: i <= j < |ss| ==> !Contains(ss[j], time)
    decreases |ss| - i
  {
    if i == |ss| then NotFound
    else if Contains(ss[i], time) then Found(ss[i])
    else FindSection(ss, time, i + 1)
  }

  /** `getSectionAtTime(time)`: `null` without sections, otherwise the first section containing `time`. */
  function SectionAtTime(sections: Option<seq<Section>>, time: real): (r: SectionQuery)
    ensures r.NoSections? <==> sections.None?
    ensures r.Found? ==> r.section in sections.value && Contains(r.section, time)
    ensures sections.Some? && (exists s :: s in sections.value && Contains(s, time)) ==> r.Found?
    ensures r.Found? ==> exists k :: 0 <= k < |sections.value| && sections.value[k] == r.section
                                     && forall j :: 0 <= j < k ==> !Contains(sections.value[j], time)
  {
    if sections.None? then NoSections else FindSection(sections.value, time, 0)
  }

  // getBeatInfo

  /** `keys[i]` is at minimal distance from `time`, and no earlier key is as close. */
  ghost predicate NearestEarliest(keys: seq<real>, time: real, i: int)
  {
    && 0 <= i < |keys|
    && (forall j :: 0 <= j < |keys| ==> Abs(keys[i] - time) <= Abs(keys[j] - time))
    && (forall j :: 0 <= j < i ==> Abs(keys[j] - time) > Abs(keys[i] - time))
  }

  /** The `reduce` over the keys: a later key replaces the current one only when strictly closer. */
  function Closest(keys: seq<real>, time: real): (r: real)
    requires |keys| > 0
    ensures exists i :: NearestEarliest(keys, time, i) && keys[i] == r
    decreases |keys|
  {
    if |keys| == 1 then
      assert NearestEarliest(keys, time, 0);
      keys[0]
    else
      var init := keys[..|keys| - 1];
      var prev := Closest(init, time);
      var curr := keys[|keys| - 1];
      var r := if Abs(curr - time) < Abs(prev - time) then curr else prev;
      assert exists i :: NearestEarliest(keys, time, i) && keys[i] == r by {
        var p :| NearestEarliest(init, time, p) && init[p] == prev;
        NearestEarliestExtend(keys, time, p);
      }
      r
  }

  /** One step of the `reduce`: the last key wins only when strictly closer than the best of the others. */
  lemma NearestEarliestExtend(keys: seq<real>, time: real, p: int)
    requires |keys| > 1 && NearestEarliest(keys[..|keys| - 1], time, p)
    ensures Abs(keys[|keys| - 1] - time) < Abs(keys[p] - time) ==> NearestEarliest(keys, time, |keys| - 1)
    ensures Abs(keys[|keys| - 1] - time) >= Abs(keys[p] - time) ==> NearestEarliest(keys, time, p)
  {
    var init := keys[..|keys| - 1];
    assert forall j :: 0 <= j < |init| ==> init[j] == keys[j];
  }

  /** `getBeatInfo(time)`: the entry of the closest beat; `reduce` on an empty map throws. */
  function BeatInfo(bm: BeatMap, time: real): (r: Result<BeatEntry, ChartError>)
    requires WellFormed(bm)
    ensures r.Failure? <==> |bm.keys| == 0
    ensures r.Success? ==> exists k :: k in bm.entries && r.value == bm.entries[k]
                                       && forall j :: j in bm.entries ==> Abs(k - time) <= Abs(j - time)
    ensures r.Success? ==> exists i :: NearestEarliest(bm.keys, time, i)
                                       && bm.keys[i] in bm.entries && r.value == bm.entries[bm.keys[i]]
  {
    if |bm.keys| == 0 then Failure(TypeError("reduce of empty array"))
    else
      var k := Closest(bm.keys, time);
      assert k in bm.entries && forall j :: j in bm.entries ==> Abs(k - time) <= Abs(j - time) by {
        var i :| NearestEarliest(bm.keys, time, i) && bm.keys[i] == k;
        NearestKeyOfMap(bm, time, i);
      }
      Success(bm.entries[k])
  }

  /** The earliest nearest key is a key of the map and is nearest among all of its entries. */
  lemma NearestKeyOfMap(bm: BeatMap, time: real, i: int)
    requires WellFormed(bm) && NearestEarliest(bm.keys, time, i)
    ensures bm.keys[i] in bm.entries
    ensures forall j :: j in bm.entries ==> Abs(bm.keys[i] - time) <= Abs(j - time)
  {
    forall j | j in bm.entries
      ensures Abs(bm.keys[i] - time) <= Abs(j - time)
    {
      var m :| 0 <= m < |bm.keys| && bm.keys[m] == j;
    }
  }

  // getNoteStats

  datatype NoteKind = Regular | Hold | Chain | Multi | TotalKey | Other(kind: Value)

  /** Regular when the type is missing or 'regular'; otherwise the counter named by the type. */
  function KindOf(n: RawNote): NoteKind
    requires n.Note?
  {
    if !Truthy(n.kind) || n.kind == Str("regular") then Regular
    else if n.kind == Str("hold") then Hold
    else if n.kind == Str("chain") then Chain
    else if n.kind == Str("multi") then Multi
    else if n.kind == Str("total") then TotalKey
    else Other(n.kind)
  }

  function CountKind(notes: seq<RawNote>, k: NoteKind): (c: nat)
    requires AllObjects(notes)
    ensures c <= |notes|
    decreases |notes|
  {
    if notes == [] then 0
    else CountKind(notes[..|notes| - 1], k) + (if KindOf(notes[|notes| - 1]) == k then 1 else 0)
  }

  /** The notes whose type is some other name, each of which gets a NaN counter. */
  function CountOthers(notes: seq<RawNote>): (c: nat)
    requires AllObjects(notes)
    decreases |notes|
  {
    if notes == [] then 0
    else CountOthers(notes[..|notes| - 1]) + (if KindOf(notes[|notes| - 1]).Other? then 1 else 0)
  }

  function OtherTypes(notes: seq<RawNote>): set<Value>
    requires AllObjects(notes)
    decreases |notes|
  {
    if notes == [] then {}
    else
      var k := KindOf(notes[|notes| - 1]);
      OtherTypes(notes[..|notes| - 1]) + (if k.Other? then {k.kind} else {})
  }

  /** The stats object; `others` are the extra keys that other type names create, whose values are NaN. */
  datatype NoteStats = NoteStats(total: nat, regular: nat, hold: nat, chain: nat, multi: nat, others: set<Value>)

  function NoteStatsOf(notes: seq<RawNote>): NoteStats
    requires AllObjects(notes)
  {
    NoteStats(|notes| + CountKind(notes, TotalKey), CountKind(notes, Regular), CountKind(notes, Hold),
              CountKind(notes, Chain), CountKind(notes, Multi), OtherTypes(notes))
  }

  /** `getNoteStats()`: one pass over the notes, bumping the counter each note's type names. */
  method GetNoteStats(notes: seq<RawNote>) returns (stats: NoteStats)
    requires AllObjects(notes)
    ensures stats == NoteStatsOf(notes)
  {
    stats := NoteStats(|notes|, 0, 0, 0, 0, {});
    for i := 0 to |notes|
      invariant stats.total == |notes| + CountKind(notes[..i], TotalKey)
      invariant stats.regular == CountKind(notes[..i], Regular)
      invariant stats.hold == CountKind(notes[..i], Hold)
      invariant stats.chain == CountKind(notes[..i], Chain)
      invariant stats.multi == CountKind(notes[..i], Multi)
      invariant stats.others == OtherTypes(notes[..i])
    {
      assert notes[..i + 1][..i] == notes[..i];
      match KindOf(notes[i])
      case Regular => stats := stats.(regular := stats.regular + 1);
      case Hold => stats := stats.(hold := stats.hold + 1);
      case Chain => stats := stats.(chain := stats.chain + 1);
      case Multi => stats := stats.(multi := stats.multi + 1);
      case TotalKey => stats := stats.(total := stats.total + 1);
      case Other(kind) => stats := stats.(others := stats.others + {kind});
    }
    assert notes[..|notes|] == notes;
  }

  /** Every note lands in exactly one counter: the counts add up to the number of notes. */
  lemma {:induction false} NoteStatsPartition(notes: seq<RawNote>)
    requires AllObjects(notes)
    ensures var s := NoteStatsOf(notes);
      s.regular + s.hold + s.chain + s.multi + CountKind(notes, TotalKey) + CountOthers(notes) == |notes|
    decreases |notes|
  {
    if notes != [] {
      NoteStatsPartition(notes[..|notes| - 1]);
    }
  }

  /** Without notes typed 'total', `total` is the number of notes. */
  lemma {:induction false} NoteStatsTotal(notes: seq<RawNote>)
    requires AllObjects(notes)
    requires forall i :: 0 <= i < |notes| ==> notes[i].kind != Str("total")
    ensures NoteStatsOf(notes).total == |notes|
    decreases |notes|
  {
    if notes != [] {
      NoteStatsTotal(notes[..|notes| - 1]);
    }
  }

  // calculateDifficulty

  datatype Difficulty = Stated(value: Value) | Rated(level: int) | NotANumber

  function BpmChangeScore(changes: nat): real
  {
    if changes > 1 then Min(2.0, changes as real * 0.5) else 0.0
  }

  /**
   * `calculateDifficulty()`: the chart's own truthy difficulty, or a level
   * from note density, note types and tempo changes, clamped to 1..15 and
   * rounded. With no notes `Math.max()` is -Infinity and the type score is
   * 0/0, so the result is NaN; a last note at time 0 makes the density
   * +Infinity. `changes` is `this.bpmChanges.length`, the number of tempo
   * changes `BpmChangesOf` gives the chart and `ProcessTimingData` stores.
   */
  function CalculateDifficulty(difficulty: Value, notes: seq<RawNote>, changes: nat): (r: Difficulty)
    requires AllObjects(notes)
    ensures r.Stated? <==> Truthy(difficulty)
    ensures r.Stated? ==> r.value == difficulty
    ensures r.Rated? ==> 1 <= r.level <= 15
    ensures !Truthy(difficulty) ==> (r.NotANumber? <==> |notes| == 0 || MaxTime(notes).NaN?)
    ensures !Truthy(difficulty) && |notes| > 0 && MaxTime(notes) == Finite(0.0) ==> r == Rated(15)
  {
    if Truthy(difficulty) then Stated(difficulty)
    else if |notes| == 0 then NotANumber
    else match MaxTime(notes)
      case NaN => NotANumber
      case Finite(m) =>
        if m == 0.0 then Rated(15)
        else Rated(ClampedLevel(RawScore(NoteStatsOf(notes), m, changes)))
  }

  /** Density, type complexity and tempo-change scores summed. */
  function RawScore(stats: NoteStats, maxTime: real, changes: nat): real
    requires stats.total > 0 && maxTime != 0.0
  {
    var density := stats.total as real / (maxTime / 1000.0) * 0.8;
    var complexity := (stats.hold as real * 1.2 + stats.chain as real * 1.5 + stats.multi as real * 2.0)
                      / stats.total as real * 5.0;
    density + complexity + BpmChangeScore(changes)
  }

  /** `Math.round(Math.min(15, Math.max(1, x)))`. */
  function ClampedLevel(x: real): (r: int)
    ensures 1 <= r <= 15
  {
    Round(Clamp(1.0, 15.0, x))
  }

  lemma ClampedLevelMonotone(x: real, y: real)
    requires x <= y
    ensures ClampedLevel(x) <= ClampedLevel(y)
  {
    var a, b := Clamp(1.0, 15.0, x), Clamp(1.0, 15.0, y);
    assert a <= b;
    assert Round(a) <= Round(b);
  }

  /** More tempo changes never lower the computed level. */
  lemma DifficultyMonotoneInChanges(difficulty: Value, notes: seq<RawNote>, c1: nat, c2: nat)
    requires AllObjects(notes) && c1 <= c2
    requires CalculateDifficulty(difficulty, notes, c1).Rated?
    ensures CalculateDifficulty(difficulty, notes, c2).Rated?
    ensures CalculateDifficulty(difficulty, notes, c1).level <= CalculateDifficulty(difficulty, notes, c2).level
  {
    var m := MaxTime(notes).value;
    if m != 0.0 {
      var stats := NoteStatsOf(notes);
      assert BpmChangeScore(c1) <= BpmChangeScore(c2);
      ClampedLevelMonotone(RawScore(stats, m, c1), RawScore(stats, m, c2));
    }
  }
}
