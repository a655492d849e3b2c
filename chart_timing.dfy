/**
 * `ChartData.processTimingData`: the beat map, a JavaScript `Map` from a
 * beat's time to its beat number and tempo, filled segment by segment
 * from the sorted tempo changes.
 */
module ChartTiming {
  import opened Numbers
  import opened JsValues
  import opened ChartValidation
  import opened Wrappers

  datatype BeatEntry = BeatEntry(beat: real, bpm: Value)

  /** A `Map`: its keys in insertion order and its key-value pairs. */
  datatype BeatMap = BeatMap(keys: seq<real>, entries: map<real, BeatEntry>)

  const EmptyBeatMap := BeatMap([], map[])

  /** The keys are distinct and are exactly the domain of the entries. */
  ghost predicate WellFormed(bm: BeatMap)
  {
    (forall i, j :: 0 <= i < j < |bm.keys| ==> bm.keys[i] != bm.keys[j])
    && (forall k :: k in bm.entries <==> k in bm.keys)
  }

  /** `Map.prototype.set`: a new key goes last, an existing one keeps its place. */
  function Put(bm: BeatMap, k: real, v: BeatEntry): (r: BeatMap)
    ensures WellFormed(bm) ==> WellFormed(r)
    ensures r.entries == bm.entries[k := v]
    ensures k in bm.entries ==> r.keys == bm.keys
    ensures WellFormed(bm) && k !in bm.entries ==> r.keys == bm.keys + [k]
  {
    if k in bm.entries then bm.(entries := bm.entries[k := v])
    else BeatMap(bm.keys + [k], bm.entries[k := v])
  }

  /** `60000 / bpm` when it is finite and positive: a tempo segment is skipped otherwise. */
  function MsPerBeat(bpm: Value): (r: Option<real>)
    ensures r.Some? <==> ToNumber(bpm).Finite? && ToNumber(bpm).value > 0.0
    ensures r.Some? ==> r.value > 0.0 && r.value * ToNumber(bpm).value == 60000.0
  {
    match ToNumber(bpm)
    case Finite(x) => if x > 0.0 then Some(60000.0 / x) else None
    case NaN => None
  }

  /** The number of beats a segment still has to place from `time` on. */
  function Steps(time: real, end: real, mpb: real): nat
    requires mpb > 0.0
  {
    if time < end then ((end - time) / mpb).Floor + 1 else 0
  }

  lemma StepsDecrease(time: real, end: real, mpb: real)
    requires mpb > 0.0 && time < end
    ensures Steps(time + mpb, end, mpb) < Steps(time, end, mpb)
  {
    var x := (end - time) / mpb;
    var y := (end - (time + mpb)) / mpb;
    assert x * mpb == end - time;
    assert y * mpb == end - time - mpb;
    assert (x - 1.0) * mpb == x * mpb - mpb;
    assert (y - (x - 1.0)) * mpb == 0.0;
    assert y == x - 1.0 by {
      if y != x - 1.0 {
        NonZeroProduct(y - (x - 1.0), mpb);
      }
    }
    assert (x - 1.0).Floor == x.Floor - 1;
  }

  lemma NonZeroProduct(a: real, b: real)
    requires a != 0.0 && b > 0.0
    ensures a * b != 0.0
  {
    if a > 0.0 {
      assert a * b > 0.0;
    } else {
      assert (-a) * b > 0.0;
    }
  }

  /** `j` beats of `mpb` milliseconds each, added up one beat at a time as the loop does. */
  function BeatOffset(j: nat, mpb: real): real
  {
    if j == 0 then 0.0 else BeatOffset(j - 1, mpb) + mpb
  }

  lemma {:induction false} BeatOffsetFacts(j: nat, mpb: real)
    requires mpb > 0.0
    ensures BeatOffset(j, mpb) >= 0.0
    ensures BeatOffset(j, mpb) == j as real * mpb
  {
    if j > 0 {
      BeatOffsetFacts(j - 1, mpb);
      assert (j - 1) as real * mpb + mpb == j as real * mpb;
    }
  }

  /** The `while (time < endTime)` loop of one tempo segment that starts at `start`. */
  function FillSegment(bm: BeatMap, start: real, time: real, end: real, mpb: real, bpm: Value): BeatMap
    requires mpb > 0.0
    decreases Steps(time, end, mpb)
  {
    if time < end then
      StepsDecrease(time, end, mpb);
      FillSegment(Put(bm, time, BeatEntry((time - start) / mpb, bpm)), start, time + mpb, end, mpb, bpm)
    else bm
  }

  /** `endTime` of segment `i`: the next change's time, or the chart's end for the last one. */
  function SegmentEnd(cs: seq<BpmChange>, i: nat, chartEnd: Number): Number
    requires i < |cs|
  {
    if i + 1 < |cs| then Finite(cs[i + 1].time) else chartEnd
  }

  /** Segment `i` places beats: its tempo is usable and its end is a number. */
  predicate Placing(cs: seq<BpmChange>, i: nat, chartEnd: Number)
    requires i < |cs|
  {
    MsPerBeat(cs[i].bpm).Some? && SegmentEnd(cs, i, chartEnd).Finite?
  }

  /** The `forEach` over the tempo changes, from change `i` on. */
  function FillFrom(bm: BeatMap, cs: seq<BpmChange>, i: nat, chartEnd: Number): BeatMap
    requires i <= |cs|
    decreases |cs| - i
  {
    if i == |cs| then bm
    else if !Placing(cs, i, chartEnd) then FillFrom(bm, cs, i + 1, chartEnd)
    else
      var m := MsPerBeat(cs[i].bpm).value;
      var next := FillSegment(bm, cs[i].time, cs[i].time, SegmentEnd(cs, i, chartEnd).value, m, cs[i].bpm);
      FillFrom(next, cs, i + 1, chartEnd)
  }

  /** The beat map `processTimingData` builds from the sorted changes and the chart's end time. */
  function BeatMapOf(cs: seq<BpmChange>, chartEnd: Number): BeatMap
  {
    FillFrom(EmptyBeatMap, cs, 0, chartEnd)
  }

  // Well-formedness

  lemma {:induction false} FillSegmentWellFormed(bm: BeatMap, start: real, time: real, end: real, mpb: real, bpm: Value)
    requires mpb > 0.0 && WellFormed(bm)
    ensures WellFormed(FillSegment(bm, start, time, end, mpb, bpm))
    decreases Steps(time, end, mpb)
  {
    if time < end {
      StepsDecrease(time, end, mpb);
      FillSegmentWellFormed(Put(bm, time, BeatEntry((time - start) / mpb, bpm)), start, time + mpb, end, mpb, bpm);
    }
  }

  lemma {:induction false} FillFromWellFormed(bm: BeatMap, cs: seq<BpmChange>, i: nat, chartEnd: Number)
    requires i <= |cs| && WellFormed(bm)
    ensures WellFormed(FillFrom(bm, cs, i, chartEnd))
    decreases |cs| - i
  {
    if i < |cs| {
      if Placing(cs, i, chartEnd) {
        var m := MsPerBeat(cs[i].bpm).value;
        FillSegmentWellFormed(bm, cs[i].time, cs[i].time, SegmentEnd(cs, i, chartEnd).value, m, cs[i].bpm);
        FillFromWellFormed(FillSegment(bm, cs[i].time, cs[i].time, SegmentEnd(cs, i, chartEnd).value, m, cs[i].bpm), cs, i + 1, chartEnd);
      } else {
        FillFromWellFormed(bm, cs, i + 1, chartEnd);
      }
    }
  }

  /** The beat map is a well-formed map. */
  lemma BeatMapWellFormed(cs: seq<BpmChange>, chartEnd: Number)
    ensures WellFormed(BeatMapOf(cs, chartEnd))
  {
    FillFromWellFormed(EmptyBeatMap, cs, 0, chartEnd);
  }

  // Soundness: every entry belongs to a tempo segment that contains its time

  /** Entry `e` at time `k` is a beat of placing segment `i`. */
  ghost predicate BeatOf(cs: seq<BpmChange>, chartEnd: Number, i: nat, k: real, e: BeatEntry)
  {
    i < |cs| && Placing(cs, i, chartEnd)
    && cs[i].time <= k < SegmentEnd(cs, i, chartEnd).value
    && e.bpm == cs[i].bpm
    && e.beat == (k - cs[i].time) / MsPerBeat(cs[i].bpm).value
    && e.beat >= 0.0
  }

  ghost predicate Sound(bm: BeatMap, cs: seq<BpmChange>, chartEnd: Number)
  {
    forall k :: k in bm.entries ==> exists i :: BeatOf(cs, chartEnd, i, k, bm.entries[k])
  }

  lemma {:induction false} FillSegmentSound(bm: BeatMap, cs: seq<BpmChange>, chartEnd: Number, i: nat, time: real)
    requires i < |cs| && Placing(cs, i, chartEnd) && Sound(bm, cs, chartEnd)
    requires time >= cs[i].time
    ensures Sound(FillSegment(bm, cs[i].time, time, SegmentEnd(cs, i, chartEnd).value,
                              MsPerBeat(cs[i].bpm).value, cs[i].bpm), cs, chartEnd)
    decreases Steps(time, SegmentEnd(cs, i, chartEnd).value, MsPerBeat(cs[i].bpm).value)
  {
    var m := MsPerBeat(cs[i].bpm).value;
    var end := SegmentEnd(cs, i, chartEnd).value;
    if time < end {
      var e := BeatEntry((time - cs[i].time) / m, cs[i].bpm);
      var bm' := Put(bm, time, e);
      assert BeatOf(cs, chartEnd, i, time, e);
      forall k | k in bm'.entries
        ensures exists j :: BeatOf(cs, chartEnd, j, k, bm'.entries[k])
      {
        if k == time {
          assert BeatOf(cs, chartEnd, i, k, bm'.entries[k]);
        } else {
          assert bm'.entries[k] == bm.entries[k];
        }
      }
      StepsDecrease(time, end, m);
      FillSegmentSound(bm', cs, chartEnd, i, time + m);
    }
  }

  lemma {:induction false} FillFromSound(bm: BeatMap, cs: seq<BpmChange>, i: nat, chartEnd: Number)
    requires i <= |cs| && Sound(bm, cs, chartEnd)
    ensures Sound(FillFrom(bm, cs, i, chartEnd), cs, chartEnd)
    decreases |cs| - i
  {
    if i < |cs| {
      if Placing(cs, i, chartEnd) {
        var m := MsPerBeat(cs[i].bpm).value;
        var end := SegmentEnd(cs, i, chartEnd).value;
        FillSegmentSound(bm, cs, chartEnd, i, cs[i].time);
        FillFromSound(FillSegment(bm, cs[i].time, cs[i].time, end, m, cs[i].bpm), cs, i + 1, chartEnd);
      } else {
        FillFromSound(bm, cs, i + 1, chartEnd);
      }
    }
  }

  /**
   * Every key of the beat map lies in a tempo segment with a usable tempo,
   * between that change's time and the segment's end, and its entry holds
   * that segment's tempo and the (non-negative) number of beats since the
   * change.
   */
  lemma BeatMapSound(cs: seq<BpmChange>, chartEnd: Number)
    ensures Sound(BeatMapOf(cs, chartEnd), cs, chartEnd)
  {
    FillFromSound(EmptyBeatMap, cs, 0, chartEnd);
  }

  // Coverage: a segment places a beat at every multiple of its beat length

  lemma {:induction false} FillSegmentKeeps(bm: BeatMap, start: real, time: real, end: real, mpb: real, bpm: Value, k: real)
    requires mpb > 0.0 && k in bm.entries
    ensures k in FillSegment(bm, start, time, end, mpb, bpm).entries
    decreases Steps(time, end, mpb)
  {
    if time < end {
      StepsDecrease(time, end, mpb);
      FillSegmentKeeps(Put(bm, time, BeatEntry((time - start) / mpb, bpm)), start, time + mpb, end, mpb, bpm, k);
    }
  }

  /** The segment loop places a key at `time + j * mpb` for every `j` that stays before `end`. */
  lemma {:induction false} FillSegmentCovers(bm: BeatMap, start: real, time: real, end: real, mpb: real, bpm: Value, j: nat)
    requires mpb > 0.0 && time + j as real * mpb < end
    ensures time + j as real * mpb in FillSegment(bm, start, time, end, mpb, bpm).entries
  {
    BeatOffsetFacts(j, mpb);
    FillSegmentCoversOffset(bm, start, time, end, mpb, bpm, j);
  }

  lemma {:induction false} FillSegmentCoversOffset(bm: BeatMap, start: real, time: real, end: real, mpb: real, bpm: Value, j: nat)
    requires mpb > 0.0 && time + BeatOffset(j, mpb) < end
    ensures time + BeatOffset(j, mpb) in FillSegment(bm, start, time, end, mpb, bpm).entries
    decreases j
  {
    BeatOffsetFacts(j, mpb);
    StepsDecrease(time, end, mpb);
    var bm' := Put(bm, time, BeatEntry((time - start) / mpb, bpm));
    if j == 0 {
      FillSegmentKeeps(bm', start, time + mpb, end, mpb, bpm, time);
    } else {
      assert (time + mpb) + BeatOffset(j - 1, mpb) == time + BeatOffset(j, mpb);
      FillSegmentCoversOffset(bm', start, time + mpb, end, mpb, bpm, j - 1);
    }
  }

  // Ordering: sorted changes give strictly increasing keys

  ghost predicate Increasing(keys: seq<real>)
  {
    forall i, j :: 0 <= i < j < |keys| ==> keys[i] < keys[j]
  }

  ghost predicate AllBelow(keys: seq<real>, b: real)
  {
    forall i :: 0 <= i < |keys| ==> keys[i] < b
  }

  lemma {:induction false} FillSegmentIncreasing(bm: BeatMap, start: real, time: real, end: real, mpb: real, bpm: Value)
    requires mpb > 0.0 && WellFormed(bm) && Increasing(bm.keys) && AllBelow(bm.keys, time)
    ensures var r := FillSegment(bm, start, time, end, mpb, bpm);
      Increasing(r.keys) && AllBelow(r.keys, Max(time, end))
    decreases Steps(time, end, mpb)
  {
    if time < end {
      var bm' := Put(bm, time, BeatEntry((time - start) / mpb, bpm));
      assert time !in bm.keys;
      assert bm'.keys == bm.keys + [time];
      StepsDecrease(time, end, mpb);
      FillSegmentIncreasing(bm', start, time + mpb, end, mpb, bpm);
    }
  }

  /** `cs` is sorted by time, as `processTimingData` leaves it. */
  predicate SortedByTime(cs: seq<BpmChange>)
  {
    forall i, j :: 0 <= i < j < |cs| ==> cs[i].time <= cs[j].time
  }

  lemma {:induction false} FillFromIncreasing(bm: BeatMap, cs: seq<BpmChange>, i: nat, chartEnd: Number)
    requires i < |cs| && SortedByTime(cs)
    requires WellFormed(bm) && Increasing(bm.keys) && AllBelow(bm.keys, cs[i].time)
    ensures Increasing(FillFrom(bm, cs, i, chartEnd).keys)
    decreases |cs| - i
  {
    var next := bm;
    if Placing(cs, i, chartEnd) {
      var m := MsPerBeat(cs[i].bpm).value;
      var end := SegmentEnd(cs, i, chartEnd).value;
      FillSegmentIncreasing(bm, cs[i].time, cs[i].time, end, m, cs[i].bpm);
      FillSegmentWellFormed(bm, cs[i].time, cs[i].time, end, m, cs[i].bpm);
      next := FillSegment(bm, cs[i].time, cs[i].time, end, m, cs[i].bpm);
      assert AllBelow(next.keys, Max(cs[i].time, end));
    }
    assert FillFrom(bm, cs, i, chartEnd) == FillFrom(next, cs, i + 1, chartEnd);
    if i + 1 < |cs| {
      assert AllBelow(next.keys, cs[i + 1].time);
      FillFromIncreasing(next, cs, i + 1, chartEnd);
    }
  }

  /** With tempo changes sorted by time, the segments do not overlap and the beat times come out strictly increasing. */
  lemma BeatMapIncreasing(cs: seq<BpmChange>, chartEnd: Number)
    requires SortedByTime(cs)
    ensures Increasing(BeatMapOf(cs, chartEnd).keys)
  {
    if |cs| > 0 {
      FillFromIncreasing(EmptyBeatMap, cs, 0, chartEnd);
    }
  }
}
