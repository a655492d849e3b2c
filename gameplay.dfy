/**
 * The judgement state of `Gameplay`: chart-note sanitising, the
 * scheduling scan, expiry of notes in flight, closest-note hit judgement,
 * the score updates and the end-of-song check. The clock reading `now`
 * and the zones pressed in a frame are parameters.
 */
module Gameplay {
  import opened Numbers
  import opened JsValues
  import opened Wrappers
  import opened Scoring
  import Grades

  /** Milliseconds a note takes from spawn to its hit position. */
  const ApproachTime: real := 1500.0
  /** `_createHexGrid` creates six zone positions, so the highest zone is 5. */
  const MaxZone: int := 5
  const PerfectWindow: real := 50.0
  const GreatWindow: real := 100.0
  const GoodWindow: real := 200.0
  /** Milliseconds of audio after the last note before a session with audio ends. */
  const EndDelay: real := 2000.0

  // Sanitising (the loop in `loadSong`)

  /** A note is kept when it is an object whose time and zone are numbers other than NaN. */
  predicate Keeps(n: RawNote)
  {
    n.Note? && n.time.Num? && n.zone.Num?
  }

  /** `Math.floor(zone)`, then clamped into `[0, MaxZone]`. */
  function FloorClamp(z: real): (r: int)
    ensures 0 <= r <= MaxZone
  {
    var f := z.Floor;
    if f < 0 then 0 else if f > MaxZone then MaxZone else f
  }

  predicate NeedsClamp(z: real) { z.Floor < 0 || z.Floor > MaxZone }

  /** `Object.assign({}, n, { zone })`: every other field is kept. */
  function SanitizeNote(n: RawNote): RawNote
    requires Keeps(n)
  {
    n.(zone := Num(FloorClamp(n.zone.n) as real))
  }

  function Sanitized(notes: seq<RawNote>): seq<RawNote>
    decreases |notes|
  {
    if notes == [] then []
    else
      var last := notes[|notes| - 1];
      Sanitized(notes[..|notes| - 1]) + (if Keeps(last) then [SanitizeNote(last)] else [])
  }

  function ClampCount(notes: seq<RawNote>): nat
    decreases |notes|
  {
    if notes == [] then 0
    else
      var last := notes[|notes| - 1];
      ClampCount(notes[..|notes| - 1]) + (if Keeps(last) && NeedsClamp(last.zone.n) then 1 else 0)
  }

  /** The sanitising loop: the kept notes, with the numbers skipped and clamped. */
  method SanitizeNotes(notes: seq<RawNote>) returns (sanitized: seq<RawNote>, skipped: nat, clamped: nat)
    ensures sanitized == Sanitized(notes)
    ensures skipped + |sanitized| == |notes|
    ensures clamped == ClampCount(notes)
  {
    sanitized, skipped, clamped := [], 0, 0;
    for i := 0 to |notes|
      invariant sanitized == Sanitized(notes[..i])
      invariant skipped + |sanitized| == i
      invariant clamped == ClampCount(notes[..i])
    {
      assert notes[..i + 1][..i] == notes[..i];
      var n := notes[i];
      if !Keeps(n) {
        skipped := skipped + 1;
        continue;
      }
      var zone := n.zone.n.Floor;
      if zone < 0 {
        zone := 0;
        clamped := clamped + 1;
      } else if zone > MaxZone {
        zone := MaxZone;
        clamped := clamped + 1;
      }
      sanitized := sanitized + [n.(zone := Num(zone as real))];
    }
    assert notes[..|notes|] == notes;
  }

  /** Sanitising keeps chart order: it distributes over concatenation. */
  lemma {:induction false} SanitizedAppend(a: seq<RawNote>, b: seq<RawNote>)
    ensures Sanitized(a + b) == Sanitized(a) + Sanitized(b)
    decreases |b|
  {
    if b == [] {
      assert a + b == a;
    } else {
      assert (a + b)[..|a + b| - 1] == a + b[..|b| - 1];
      SanitizedAppend(a, b[..|b| - 1]);
    }
  }

  /** `zonePositions[zone]` exists: the zone is an integer from 0 to `MaxZone`. */
  function ZoneIndex(zone: Value): (r: Option<int>)
    ensures r.Some? ==> 0 <= r.value <= MaxZone && zone == Num(r.value as real)
  {
    if zone.Num? && zone.n == zone.n.Floor as real && 0 <= zone.n.Floor <= MaxZone then Some(zone.n.Floor)
    else None
  }

  /**
   * Every sanitised note is some kept note of the input with its zone
   * floored and clamped, so its time is a number and its zone has a
   * position.
   */
  lemma {:induction false} SanitizedNotes(notes: seq<RawNote>)
    ensures forall n :: n in Sanitized(notes) ==>
      Keeps(n) && ZoneIndex(n.zone).Some? && exists m :: m in notes && Keeps(m) && n == SanitizeNote(m)
    decreases |notes|
  {
    if notes != [] {
      var init := notes[..|notes| - 1];
      SanitizedNotes(init);
      forall n | n in Sanitized(notes)
        ensures Keeps(n) && ZoneIndex(n.zone).Some? && exists m :: m in notes && Keeps(m) && n == SanitizeNote(m)
      {
        if n in Sanitized(init) {
          var m :| m in init && Keeps(m) && n == SanitizeNote(m);
          assert m in notes;
        } else {
          var last := notes[|notes| - 1];
          assert n == SanitizeNote(last);
          assert ZoneIndex(n.zone) == Some(FloorClamp(last.zone.n));
        }
      }
    }
  }

  /** Sanitising an already sanitised chart changes nothing. */
  lemma {:induction false} SanitizeIdempotent(notes: seq<RawNote>)
    ensures Sanitized(Sanitized(notes)) == Sanitized(notes)
    decreases |notes|
  {
    if notes != [] {
      var init := notes[..|notes| - 1];
      var last := notes[|notes| - 1];
      SanitizeIdempotent(init);
      SanitizedAppend(Sanitized(init), if Keeps(last) then [SanitizeNote(last)] else []);
      if Keeps(last) {
        var s := SanitizeNote(last);
        assert [s][..0] == [];
        assert Sanitized([s]) == [SanitizeNote(s)];
        assert SanitizeNote(s) == s;
      }
    }
  }

  // Scheduling (the `while` loop at the top of `_update`)

  /** `n && typeof n.time === 'number' && typeof n.zone === 'number'` (NaN included). */
  predicate Schedulable(n: RawNote)
  {
    n.Note? && IsNumber(n.time) && IsNumber(n.zone)
  }

  /** `now >= n.time - approachTime - latencyOffset`; a NaN time is never due. */
  predicate Due(n: RawNote, now: real, latency: real)
  {
    n.Note? && n.time.Num? && now >= n.time.n - ApproachTime - latency
  }

  /** The index at which the scan from `i` stops. */
  function ScanEnd(notes: seq<RawNote>, i: nat, now: real, latency: real): nat
    decreases |notes| - i
  {
    if i >= |notes| then i
    else if !Schedulable(notes[i]) || Due(notes[i], now, latency) then ScanEnd(notes, i + 1, now, latency)
    else i
  }

  datatype ActiveNote = ActiveNote(index: nat, note: RawNote, targetTime: real, zone: int, spawnedAt: real)

  /** `_spawnNote` for a due note whose zone has a position. */
  function Spawn(notes: seq<RawNote>, k: nat, now: real): ActiveNote
    requires k < |notes| && notes[k].Note? && notes[k].time.Num? && ZoneIndex(notes[k].zone).Some?
  {
    ActiveNote(k, notes[k], notes[k].time.n, ZoneIndex(notes[k].zone).value, now)
  }

  /** The notes the scan from `i` spawns, in chart order. */
  function Spawned(notes: seq<RawNote>, i: nat, now: real, latency: real): seq<ActiveNote>
    decreases |notes| - i
  {
    if i >= |notes| then []
    else if !Schedulable(notes[i]) then Spawned(notes, i + 1, now, latency)
    else if Due(notes[i], now, latency) then
      (if ZoneIndex(notes[i].zone).Some? then [Spawn(notes, i, now)] else []) + Spawned(notes, i + 1, now, latency)
    else []
  }

  /**
   * The scan from `i` passes invalid and due notes only, and stops at the
   * end of the chart or at the first valid note that is not yet due.
   */
  lemma {:induction false} ScanEndFacts(notes: seq<RawNote>, i: nat, now: real, latency: real)
    ensures var r := ScanEnd(notes, i, now, latency);
      && i <= r
      && (i <= |notes| ==> r <= |notes|)
      && (forall j :: i <= j < r ==> !Schedulable(notes[j]) || Due(notes[j], now, latency))
      && (r < |notes| ==> Schedulable(notes[r]) && !Due(notes[r], now, latency))
    decreases |notes| - i
  {
    if i < |notes| && (!Schedulable(notes[i]) || Due(notes[i], now, latency)) {
      ScanEndFacts(notes, i + 1, now, latency);
    }
  }

  /** A later clock reading never schedules fewer notes. */
  lemma {:induction false} ScanEndMonotone(notes: seq<RawNote>, i: nat, now1: real, now2: real, latency: real)
    requires now1 <= now2
    ensures ScanEnd(notes, i, now1, latency) <= ScanEnd(notes, i, now2, latency)
    decreases |notes| - i
  {
    if i < |notes| {
      if !Schedulable(notes[i]) || Due(notes[i], now1, latency) {
        ScanEndMonotone(notes, i + 1, now1, now2, latency);
      } else {
        ScanEndFacts(notes, i, now2, latency);
      }
    }
  }

  /**
   * Each spawned note comes from one index the scan passed, in increasing
   * index order.
   */
  lemma {:induction false} SpawnedFacts(notes: seq<RawNote>, i: nat, now: real, latency: real)
    ensures var s := Spawned(notes, i, now, latency);
      && (forall k :: 0 <= k < |s| ==> i <= s[k].index < ScanEnd(notes, i, now, latency))
      && IndicesIncreasing(s)
    decreases |notes| - i
  {
    if i < |notes| && (!Schedulable(notes[i]) || Due(notes[i], now, latency)) {
      SpawnedFacts(notes, i + 1, now, latency);
      ScanEndFacts(notes, i + 1, now, latency);
      var t := Spawned(notes, i + 1, now, latency);
      if Schedulable(notes[i]) && ZoneIndex(notes[i].zone).Some? {
        var s := Spawned(notes, i, now, latency);
        assert s == [Spawn(notes, i, now)] + t;
        forall k | 0 < k < |s|
          ensures s[k] == t[k - 1]
        {
        }
      }
    }
  }

  /**
   * Each spawned note is a due chart note, with that note's time as target
   * and a zone that has a position.
   */
  lemma {:induction false} SpawnedNotes(notes: seq<RawNote>, i: nat, now: real, latency: real)
    ensures forall a :: a in Spawned(notes, i, now, latency) ==>
      && 0 <= a.zone <= MaxZone && a.index < |notes| && a.note == notes[a.index]
      && Due(notes[a.index], now, latency) && Num(a.targetTime) == notes[a.index].time
    decreases |notes| - i
  {
    if i < |notes| && (!Schedulable(notes[i]) || Due(notes[i], now, latency)) {
      SpawnedNotes(notes, i + 1, now, latency);
      var t := Spawned(notes, i + 1, now, latency);
      if Schedulable(notes[i]) && ZoneIndex(notes[i].zone).Some? {
        var r := Spawned(notes, i, now, latency);
        assert r == [Spawn(notes, i, now)] + t;
        forall k | 0 < k < |r|
          ensures r[k] == t[k - 1]
        {
        }
      }
    }
  }

  // Expiry (the backward loop over `activeNotes` in `_update`)

  /** `progress >= 1` for `progress = (now - (targetTime - approachTime)) / approachTime`. */
  predicate Expired(a: ActiveNote, now: real)
  {
    (now - (a.targetTime - ApproachTime)) / ApproachTime >= 1.0
  }

  /** A note expires exactly when the clock reaches its target time. */
  lemma ExpiredIff(a: ActiveNote, now: real)
    ensures Expired(a, now) <==> now >= a.targetTime
  {
  }

  function Remaining(s: seq<ActiveNote>, now: real): seq<ActiveNote>
    decreases |s|
  {
    if s == [] then [] else (if Expired(s[0], now) then [] else [s[0]]) + Remaining(s[1..], now)
  }

  function ExpiredIndices(s: seq<ActiveNote>, now: real): set<nat>
    decreases |s|
  {
    if s == [] then {} else (if Expired(s[0], now) then {s[0].index} else {}) + ExpiredIndices(s[1..], now)
  }

  function ExpiredCount(s: seq<ActiveNote>, now: real): nat
    decreases |s|
  {
    if s == [] then 0 else (if Expired(s[0], now) then 1 else 0) + ExpiredCount(s[1..], now)
  }

  /** The score after `k` misses. */
  function MissTimes(st: ScoreState, k: nat): ScoreState
  {
    if k == 0 then st else AfterMiss(MissTimes(st, k - 1))
  }

  lemma {:induction false} MissTimesFacts(st: ScoreState, k: nat)
    requires Inv(st)
    ensures Inv(MissTimes(st, k)) && GradeSum(MissTimes(st, k)) == GradeSum(st) + k
  {
    if k > 0 {
      MissTimesFacts(st, k - 1);
    }
  }

  /** The score after `k` expired notes with the as-written `_onMiss`: `miss()` and then `registerGrade('miss')` each time. */
  function ExpiryMissesAsWritten(st: ScoreState, k: nat): ScoreState
  {
    if k == 0 then st else AfterGrade(AfterMiss(ExpiryMissesAsWritten(st, k - 1)), MissGrade)
  }

  /** As written, `k` expired notes add `2k` to the miss counter and to the grade sum, where `MissTimes` adds `k`. */
  lemma {:induction false} ExpiryMissesAsWrittenFacts(st: ScoreState, k: nat)
    requires Inv(st)
    ensures Inv(ExpiryMissesAsWritten(st, k))
    ensures Count(ExpiryMissesAsWritten(st, k), MissGrade) == Count(st, MissGrade) + 2 * k
    ensures GradeSum(ExpiryMissesAsWritten(st, k)) == GradeSum(st) + 2 * k
  {
    if k > 0 {
      ExpiryMissesAsWrittenFacts(st, k - 1);
      OnMissAsWrittenCountsTwice(ExpiryMissesAsWritten(st, k - 1));
    }
  }

  /** Only notes not yet at their target time remain, in order; the expired ones are exactly those at or past it. */
  lemma {:induction false} RemainingFacts(s: seq<ActiveNote>, now: real)
    ensures forall a :: a in Remaining(s, now) <==> a in s && now < a.targetTime
    ensures forall k :: k in ExpiredIndices(s, now) <==> exists a :: a in s && a.index == k && now >= a.targetTime
    ensures |Remaining(s, now)| + ExpiredCount(s, now) == |s|
    decreases |s|
  {
    if s != [] {
      RemainingFacts(s[1..], now);
      ExpiredIff(s[0], now);
      forall k | k in ExpiredIndices(s, now)
        ensures exists a :: a in s && a.index == k && now >= a.targetTime
      {
        if k !in ExpiredIndices(s[1..], now) {
          assert s[0].index == k;
        } else {
          var a :| a in s[1..] && a.index == k && now >= a.targetTime;
          assert a in s;
        }
      }
      forall a | a in s && now >= a.targetTime
        ensures a.index in ExpiredIndices(s, now)
      {
        ExpiredIff(a, now);
        if a != s[0] {
          assert a in s[1..];
        }
      }
    }
  }

  ghost predicate IndicesIncreasing(s: seq<ActiveNote>)
  {
    forall k, l :: 0 <= k < l < |s| ==> s[k].index < s[l].index
  }

  lemma IndexDeterminesNote(s: seq<ActiveNote>, a: ActiveNote, b: ActiveNote)
    requires IndicesIncreasing(s) && a in s && b in s && a.index == b.index
    ensures a == b
  {
    var p :| 0 <= p < |s| && s[p] == a;
    var q :| 0 <= q < |s| && s[q] == b;
    assert p == q;
  }

  lemma SpliceStep(s: seq<ActiveNote>, i: nat, rest: seq<ActiveNote>)
    requires 0 < i <= |s|
    ensures (s[..i] + rest)[..i - 1] + (s[..i] + rest)[i..] == s[..i - 1] + rest
  {
    assert (s[..i] + rest)[..i - 1] == s[..i - 1];
    assert (s[..i] + rest)[i..] == rest;
  }

  /** One step of the backward loop: the note at `i - 1` joins the processed suffix. */
  lemma SuffixStep(s: seq<ActiveNote>, i: nat, now: real)
    requires 0 < i <= |s|
    ensures Remaining(s[i - 1..], now) == (if Expired(s[i - 1], now) then [] else [s[i - 1]]) + Remaining(s[i..], now)
    ensures ExpiredIndices(s[i - 1..], now) == (if Expired(s[i - 1], now) then {s[i - 1].index} else {}) + ExpiredIndices(s[i..], now)
    ensures ExpiredCount(s[i - 1..], now) == (if Expired(s[i - 1], now) then 1 else 0) + ExpiredCount(s[i..], now)
  {
    assert s[i - 1..][1..] == s[i..];
  }

  lemma ConsIncreasing(h: ActiveNote, r: seq<ActiveNote>)
    requires IndicesIncreasing(r) && forall a :: a in r ==> h.index < a.index
    ensures IndicesIncreasing([h] + r)
  {
    var c := [h] + r;
    forall k, l | 0 <= k < l < |c|
      ensures c[k].index < c[l].index
    {
      assert c[l] == r[l - 1];
      if k > 0 {
        assert c[k] == r[k - 1];
      } else {
        assert r[l - 1] in r;
      }
    }
  }

  lemma {:induction false} RemainingIncreasing(s: seq<ActiveNote>, now: real)
    requires IndicesIncreasing(s)
    ensures IndicesIncreasing(Remaining(s, now))
    ensures forall a :: a in Remaining(s, now) ==> a in s
    decreases |s|
  {
    if s != [] {
      var tail := s[1..];
      TailIncreasing(s);
      RemainingIncreasing(tail, now);
      var r := Remaining(tail, now);
      assert Remaining(s, now) == (if Expired(s[0], now) then [] else [s[0]]) + r;
      if !Expired(s[0], now) {
        HeadBelowTail(s, r);
        ConsIncreasing(s[0], r);
      } else {
        assert Remaining(s, now) == r;
      }
    }
  }

  lemma TailIncreasing(s: seq<ActiveNote>)
    requires s != [] && IndicesIncreasing(s)
    ensures IndicesIncreasing(s[1..])
  {
    var tail := s[1..];
    forall k, l | 0 <= k < l < |tail|
      ensures tail[k].index < tail[l].index
    {
      assert tail[k] == s[k + 1] && tail[l] == s[l + 1];
    }
  }

  /** In increasing order, the first note's index is below that of every later note kept. */
  lemma HeadBelowTail(s: seq<ActiveNote>, r: seq<ActiveNote>)
    requires s != [] && IndicesIncreasing(s) && forall a :: a in r ==> a in s[1..]
    ensures forall a :: a in r ==> s[0].index < a.index
  {
    forall a | a in r
      ensures s[0].index < a.index
    {
      var l :| 0 <= l < |s[1..]| && s[1..][l] == a;
      assert s[l + 1] == a;
    }
  }

  /** With distinct indices, one index per expired note. */
  lemma {:induction false} ExpiredIndicesCount(s: seq<ActiveNote>, now: real)
    requires IndicesIncreasing(s)
    ensures |ExpiredIndices(s, now)| == ExpiredCount(s, now)
    decreases |s|
  {
    if s != [] {
      ExpiredIndicesCount(s[1..], now);
      RemainingFacts(s[1..], now);
    }
  }

  // Judgement (`_tryHit`)

  /** `ActiveNote` at position `b` is in `zone`, nearest to `now`, and no earlier note in `zone` is as near. */
  ghost predicate IsClosest(active: seq<ActiveNote>, zone: int, now: real, b: nat)
  {
    b < |active| && active[b].zone == zone
    && (forall j :: 0 <= j < |active| && active[j].zone == zone ==>
          Abs(active[b].targetTime - now) <= Abs(active[j].targetTime - now))
    && (forall j :: 0 <= j < b && active[j].zone == zone ==>
          Abs(active[j].targetTime - now) > Abs(active[b].targetTime - now))
  }

  /** The search loop of `_tryHit`; `-1` stands for "no note", and for the initial `Infinity` distance. */
  method FindClosest(active: seq<ActiveNote>, zone: int, now: real) returns (best: int, bestDiff: real)
    ensures best == -1 <==> forall j :: 0 <= j < |active| ==> active[j].zone != zone
    ensures best != -1 ==> 0 <= best && IsClosest(active, zone, now, best)
                           && bestDiff == Abs(active[best].targetTime - now)
  {
    best, bestDiff := -1, 0.0;
    for i := 0 to |active|
      invariant best == -1 <==> forall j :: 0 <= j < i ==> active[j].zone != zone
      invariant best != -1 ==> 0 <= best < i && active[best].zone == zone
                               && bestDiff == Abs(active[best].targetTime - now)
                               && (forall j :: 0 <= j < i && active[j].zone == zone ==> bestDiff <= Abs(active[j].targetTime - now))
                               && (forall j :: 0 <= j < best && active[j].zone == zone ==> Abs(active[j].targetTime - now) > bestDiff)
    {
      var a := active[i];
      if a.zone != zone {
        continue;
      }
      var diff := Abs(a.targetTime - now);
      if best == -1 || diff < bestDiff {
        best, bestDiff := i, diff;
      }
    }
  }

  /** The grade and points for a hit `ms` milliseconds from its target. */
  function Judge(ms: real): (r: (string, nat))
    ensures r.0 == Perfect || r.0 == Great || r.0 == Good || r.0 == MissGrade
    ensures r.0 == MissGrade <==> ms > GoodWindow
    ensures r.0 == MissGrade ==> r.1 == 0
  {
    if ms <= PerfectWindow then (Perfect, 300)
    else if ms <= GreatWindow then (Great, 150)
    else if ms <= GoodWindow then (Good, 50)
    else (MissGrade, 0)
  }

  /** A closer hit never earns fewer points. */
  lemma JudgeMonotone(ms1: real, ms2: real)
    requires ms1 <= ms2
    ensures Judge(ms1).1 >= Judge(ms2).1
  {
  }

  /** The windows are inclusive: 50, 100 and 200 ms are still perfect, great and good. */
  lemma JudgeBoundaries()
    ensures Judge(50.0) == (Perfect, 300) && Judge(50.5) == (Great, 150)
    ensures Judge(100.0) == (Great, 150) && Judge(200.0) == (Good, 50) && Judge(200.5) == (MissGrade, 0)
  {
  }

  /** The score after judging a press: a hit adds points and its grade, a miss press calls `miss()` once. */
  function AfterJudge(s: ScoreState, j: (string, nat)): ScoreState
  {
    if j.0 != MissGrade then AfterGrade(AfterHit(s, j.1), j.0) else AfterMiss(s)
  }

  lemma AfterJudgeFacts(s: ScoreState, j: (string, nat))
    requires Inv(s) && (j.0 == Perfect || j.0 == Great || j.0 == Good || j.0 == MissGrade)
    ensures Inv(AfterJudge(s, j)) && GradeSum(AfterJudge(s, j)) == GradeSum(s) + 1
  {
  }

  /** The earliest nearest note of `zone` among the first `i` notes, found as the search loop does; `-1` when there is none. */
  function ClosestUpTo(active: seq<ActiveNote>, zone: int, now: real, i: nat): (b: int)
    requires i <= |active|
    ensures -1 <= b < i
  {
    if i == 0 then -1
    else
      var p := ClosestUpTo(active, zone, now, i - 1);
      if active[i - 1].zone != zone then p
      else if p == -1 || Abs(active[i - 1].targetTime - now) < Abs(active[p].targetTime - now) then i - 1
      else p
  }

  function Closest(active: seq<ActiveNote>, zone: int, now: real): (b: int)
    ensures -1 <= b < |active|
  {
    ClosestUpTo(active, zone, now, |active|)
  }

  lemma {:induction false} ClosestUpToFacts(active: seq<ActiveNote>, zone: int, now: real, i: nat)
    requires i <= |active|
    ensures var b := ClosestUpTo(active, zone, now, i);
      && (b == -1 <==> forall j :: 0 <= j < i ==> active[j].zone != zone)
      && (b != -1 ==>
            && active[b].zone == zone
            && (forall j :: 0 <= j < i && active[j].zone == zone ==>
                  Abs(active[b].targetTime - now) <= Abs(active[j].targetTime - now))
            && (forall j :: 0 <= j < b && active[j].zone == zone ==>
                  Abs(active[j].targetTime - now) > Abs(active[b].targetTime - now)))
  {
    if i > 0 {
      ClosestUpToFacts(active, zone, now, i - 1);
    }
  }

  /** `Closest` finds a note of the zone exactly when there is one, and then the earliest nearest. */
  lemma ClosestMeaning(active: seq<ActiveNote>, zone: int, now: real)
    ensures Closest(active, zone, now) == -1 <==> forall j :: 0 <= j < |active| ==> active[j].zone != zone
    ensures Closest(active, zone, now) != -1 ==> IsClosest(active, zone, now, Closest(active, zone, now))
  {
    ClosestUpToFacts(active, zone, now, |active|);
  }

  /** At most one position is the earliest nearest note of a zone. */
  lemma ClosestUnique(active: seq<ActiveNote>, zone: int, now: real, b1: nat, b2: nat)
    requires IsClosest(active, zone, now, b1) && IsClosest(active, zone, now, b2)
    ensures b1 == b2
  {
  }

  /** What `_tryHit` touches: the notes in flight, the judged chart indices and the score. */
  datatype PlayState = PlayState(active: seq<ActiveNote>, judged: set<nat>, score: ScoreState)

  /** `_tryHit(zone)` on a play state: the closest note of the zone, if any, is removed, recorded and judged. */
  function PressStep(h: PlayState, zone: int, now: real): PlayState
  {
    var b := Closest(h.active, zone, now);
    if b == -1 then h
    else
      PlayState(h.active[..b] + h.active[b + 1..], h.judged + {h.active[b].index},
                AfterJudge(h.score, Judge(Abs(h.active[b].targetTime - now))))
  }

  /** The pressed zones tried in order. */
  function PressAll(h: PlayState, pressed: seq<int>, now: real): PlayState
    decreases |pressed|
  {
    if pressed == [] then h else PressStep(PressAll(h, pressed[..|pressed| - 1], now), pressed[|pressed| - 1], now)
  }

  /**
   * Trying the pressed zones in order removes at most one note per press,
   * keeps every judged index, and raises the grade sum by one per removed note.
   */
  lemma {:induction false} PressAllFacts(h: PlayState, pressed: seq<int>, now: real)
    requires Inv(h.score)
    ensures var r := PressAll(h, pressed, now);
      && |h.active| - |pressed| <= |r.active| <= |h.active|
      && h.judged <= r.judged
      && Inv(r.score)
      && GradeSum(r.score) == GradeSum(h.score) + (|h.active| - |r.active|)
    decreases |pressed|
  {
    if pressed != [] {
      var m := PressAll(h, pressed[..|pressed| - 1], now);
      PressAllFacts(h, pressed[..|pressed| - 1], now);
      PressStepFacts(m, pressed[|pressed| - 1], now);
    }
  }

  /** One press removes at most one note, keeps the judged indices and adds one grade per removed note. */
  lemma PressStepFacts(h: PlayState, zone: int, now: real)
    requires Inv(h.score)
    ensures var r := PressStep(h, zone, now);
      && |h.active| - 1 <= |r.active| <= |h.active|
      && h.judged <= r.judged
      && Inv(r.score)
      && GradeSum(r.score) == GradeSum(h.score) + (|h.active| - |r.active|)
  {
    var b := Closest(h.active, zone, now);
    if b != -1 {
      var rest := h.active[..b] + h.active[b + 1..];
      assert |rest| == |h.active| - 1;
      assert PressStep(h, zone, now).active == rest;
      AfterJudgeFacts(h.score, Judge(Abs(h.active[b].targetTime - now)));
    }
  }

  /** A press in a zone with no note changes nothing. */
  lemma PressEmptyZone(h: PlayState, zone: int, now: real)
    requires forall j :: 0 <= j < |h.active| ==> h.active[j].zone != zone
    ensures PressStep(h, zone, now) == h
  {
    ClosestMeaning(h.active, zone, now);
  }

  /** Presses only remove notes in flight, and each index they judge belongs to one of them. */
  lemma {:induction false} PressAllFromActive(h: PlayState, pressed: seq<int>, now: real)
    ensures var r := PressAll(h, pressed, now);
      && (forall a :: a in r.active ==> a in h.active)
      && (forall k :: k in r.judged ==> k in h.judged || exists a :: a in h.active && a.index == k)
    decreases |pressed|
  {
    if pressed != [] {
      var m := PressAll(h, pressed[..|pressed| - 1], now);
      PressAllFromActive(h, pressed[..|pressed| - 1], now);
      var b := Closest(m.active, pressed[|pressed| - 1], now);
      if b != -1 {
        forall a | a in m.active[..b] + m.active[b + 1..]
          ensures a in m.active
        {
        }
      }
    }
  }

  // A tick of a running game

  /** The notes a scheduling pass spawns: none without a chart. */
  function SpawnedBy(chart: Option<seq<RawNote>>, i: nat, now: real, latency: real): seq<ActiveNote>
  {
    if chart.Some? then Spawned(chart.value, i, now, latency) else []
  }

  /** The index a scheduling pass stops at: unchanged without a chart. */
  function ScheduledTo(chart: Option<seq<RawNote>>, i: nat, now: real, latency: real): nat
  {
    if chart.Some? then ScanEnd(chart.value, i, now, latency) else i
  }

  /** The expiry pass on a play state: the due notes leave and are judged, one miss each. */
  function ExpireAll(h: PlayState, now: real): PlayState
  {
    PlayState(Remaining(h.active, now), h.judged + ExpiredIndices(h.active, now),
              MissTimes(h.score, ExpiredCount(h.active, now)))
  }

  /**
   * Expiry runs before the presses, so a press can only judge a note still
   * ahead of the clock, and every note left in flight is ahead of it.
   */
  lemma ExpiryBeforePresses(h: PlayState, pressed: seq<int>, now: real)
    ensures var e := ExpireAll(h, now); var r := PressAll(e, pressed, now);
      && (forall a :: a in r.active ==> a in h.active && now < a.targetTime)
      && (forall k :: k in r.judged && k !in e.judged ==> exists a :: a in h.active && a.index == k && now < a.targetTime)
  {
    var e := ExpireAll(h, now);
    RemainingFacts(h.active, now);
    PressAllFromActive(e, pressed, now);
  }

  // End of session

  /** `audioEnded`: the clock has passed the last array note's time by 2 s (a chart without notes: time 0). */
  predicate AudioEnded(notes: seq<RawNote>, now: real)
  {
    if |notes| == 0 then now >= 0.0
    else
      var last := notes[|notes| - 1];
      last.Note? && ToNumber(last.time).Finite? && now >= ToNumber(last.time).value + EndDelay
  }

  predicate Finished(chart: Option<seq<RawNote>>, scheduledIndex: nat, activeCount: nat, hasAudio: bool, now: real)
  {
    chart.Some? && scheduledIndex >= |chart.value| && activeCount == 0
    && (hasAudio ==> AudioEnded(chart.value, now))
  }

  /** What `_showResults` computes before drawing: accuracy, grade and final score. */
  datatype Results = Results(accuracy: Number, grade: Grades.GradeEntry, finalScore: int)

  class Gameplay {
    const score: ScoreSystem
    var running: bool
    /** `this.chart.notes`; `None` while no chart is loaded. */
    var chart: Option<seq<RawNote>>
    /** Whether an audio manager is loaded; its clock is then the `now` passed in. */
    var hasAudio: bool
    var scheduledIndex: nat
    var activeNotes: seq<ActiveNote>
    var latencyOffset: real
    var results: Option<Results>
    /** Chart indices of the notes judged (hit, missed or expired) since `start()`. */
    ghost var judged: set<nat>
    /** The number of notes spawned since `start()`. */
    ghost var spawnedCount: nat
    /** The score's grade total when the session started. */
    ghost var baseGradeSum: nat

    /**
     * The session invariant: the in-flight facts, and every spawned note is
     * either in flight or judged (the two being disjoint, with distinct indices).
     */
    ghost predicate Valid()
      reads this, score
    {
      InFlight() && spawnedCount == |judged| + |activeNotes|
    }

    /** The notes in flight are positioned, in chart order, scheduled and not yet judged; each judged note adds one grade. */
    ghost predicate InFlight()
      reads this, score
    {
      score.Valid()
      && (forall k :: 0 <= k < |activeNotes| ==> 0 <= activeNotes[k].zone <= MaxZone)
      && IndicesIncreasing(activeNotes)
      && (forall k :: 0 <= k < |activeNotes| ==> activeNotes[k].index < scheduledIndex)
      && (forall k :: 0 <= k < |activeNotes| ==> activeNotes[k].index !in judged)
      && (forall k :: k in judged ==> k < scheduledIndex)
      && GradeSum(score.State()) == baseGradeSum + |judged|
    }

    /** The constructor's state: a fresh score, no chart, no audio, nothing scheduled. */
    constructor (latency: real)
      ensures Valid() && fresh(score) && score.State() == Fresh()
      ensures !running && chart.None? && !hasAudio && scheduledIndex == 0 && activeNotes == []
      ensures latencyOffset == latency && results.None?
    {
      score := new ScoreSystem();
      running, chart, hasAudio := false, None, false;
      scheduledIndex, activeNotes, latencyOffset, results := 0, [], latency, None;
      judged, spawnedCount, baseGradeSum := {}, 0, 0;
    }

    /**
     * `loadSong`: a chart document whose notes were read is sanitised and
     * replaces the chart; a song with a file sets whether audio loaded.
     */
    method LoadSong(notes: Option<seq<RawNote>>, audioLoaded: Option<bool>) returns (skipped: nat, clamped: nat)
      requires Valid()
      modifies this`chart, this`hasAudio
      ensures Valid()
      ensures chart == if notes.Some? then Some(Sanitized(notes.value)) else old(chart)
      ensures hasAudio == if audioLoaded.Some? then audioLoaded.value else old(hasAudio)
      ensures notes.Some? ==> skipped + |Sanitized(notes.value)| == |notes.value| && clamped == ClampCount(notes.value)
    {
      skipped, clamped := 0, 0;
      if notes.Some? {
        var sanitized;
        sanitized, skipped, clamped := SanitizeNotes(notes.value);
        chart := Some(sanitized);
      }
      if audioLoaded.Some? {
        hasAudio := audioLoaded.value;
      }
    }

    /** `start()`: running, nothing scheduled or in flight, latency re-read; the score is not reset. */
    method Start(latency: real)
      requires score.Valid()
      modifies this`running, this`scheduledIndex, this`activeNotes, this`latencyOffset, this`judged, this`spawnedCount, this`baseGradeSum
      ensures Valid()
      ensures running && scheduledIndex == 0 && activeNotes == [] && latencyOffset == latency
      ensures chart == old(chart) && hasAudio == old(hasAudio) && results == old(results)
      ensures score.State() == old(score.State())
      ensures judged == {} && spawnedCount == 0
    {
      running := true;
      scheduledIndex := 0;
      activeNotes := [];
      latencyOffset := latency;
      judged := {};
      spawnedCount := 0;
      baseGradeSum := GradeSum(score.State());
      FreshSessionValid();
    }

    /** A session with nothing in flight, judged or spawned, counted from the current grade total, is valid. */
    lemma FreshSessionValid()
      requires score.Valid() && activeNotes == [] && judged == {} && spawnedCount == 0
      requires GradeSum(score.State()) == baseGradeSum
      ensures Valid()
    {
    }

    /** `stop()`: only clears `running`, so a second call changes nothing. */
    method Stop()
      modifies this`running
      ensures !running
    {
      running := false;
    }

    /** The scheduling scan: spawns every due note from `scheduledIndex` on and stops at the first that is not due. */
    method Schedule(now: real)
      requires Valid() && chart.Some?
      modifies this`scheduledIndex, this`activeNotes, this`spawnedCount
      ensures Valid()
      ensures scheduledIndex == ScanEnd(chart.value, old(scheduledIndex), now, latencyOffset)
      ensures activeNotes == old(activeNotes) + Spawned(chart.value, old(scheduledIndex), now, latencyOffset)
      ensures spawnedCount == old(spawnedCount) + |Spawned(chart.value, old(scheduledIndex), now, latencyOffset)|
    {
      var notes := chart.value;
      ghost var start := scheduledIndex;
      ghost var before := activeNotes;
      SpawnedFacts(notes, start, now, latencyOffset);
      SpawnedNotes(notes, start, now, latencyOffset);
      ScanEndFacts(notes, start, now, latencyOffset);
      while scheduledIndex < |notes|
        invariant start <= scheduledIndex
        invariant ScanEnd(notes, scheduledIndex, now, latencyOffset) == ScanEnd(notes, start, now, latencyOffset)
        invariant activeNotes + Spawned(notes, scheduledIndex, now, latencyOffset)
                  == before + Spawned(notes, start, now, latencyOffset)
        invariant spawnedCount == |judged| + |activeNotes|
        decreases |notes| - scheduledIndex
      {
        var n := notes[scheduledIndex];
        if !Schedulable(n) {
          scheduledIndex := scheduledIndex + 1;
          continue;
        }
        if Due(n, now, latencyOffset) {
          SpawnNote(notes, now);
          scheduledIndex := scheduledIndex + 1;
        } else {
          break;
        }
      }
      ScheduleValid(before, start, now);
    }

    /** `_spawnNote`: a note whose zone has a position joins the notes in flight. */
    method SpawnNote(notes: seq<RawNote>, now: real)
      requires scheduledIndex < |notes| && notes[scheduledIndex].Note? && notes[scheduledIndex].time.Num?
      requires IsNumber(notes[scheduledIndex].zone)
      modifies this`activeNotes, this`spawnedCount
      ensures activeNotes == old(activeNotes) +
        if ZoneIndex(notes[scheduledIndex].zone).Some? then [Spawn(notes, scheduledIndex, now)] else []
      ensures spawnedCount == old(spawnedCount) + if ZoneIndex(notes[scheduledIndex].zone).Some? then 1 else 0
    {
      var n := notes[scheduledIndex];
      var pos := ZoneIndex(n.zone);
      if pos.None? {
        return;
      }
      activeNotes := activeNotes + [ActiveNote(scheduledIndex, n, n.time.n, pos.value, now)];
      spawnedCount := spawnedCount + 1;
    }

    lemma ScheduleValid(before: seq<ActiveNote>, start: nat, now: real)
      requires chart.Some? && score.Valid()
      requires (forall k :: 0 <= k < |before| ==> 0 <= before[k].zone <= MaxZone)
        && IndicesIncreasing(before)
        && (forall k :: 0 <= k < |before| ==> before[k].index < start && before[k].index !in judged)
        && (forall k :: k in judged ==> k < start)
        && GradeSum(score.State()) == baseGradeSum + |judged|
      requires scheduledIndex == ScanEnd(chart.value, start, now, latencyOffset)
      requires activeNotes == before + Spawned(chart.value, start, now, latencyOffset)
      ensures InFlight()
    {
      var s := Spawned(chart.value, start, now, latencyOffset);
      SpawnedFacts(chart.value, start, now, latencyOffset);
      SpawnedNotes(chart.value, start, now, latencyOffset);
      ScanEndFacts(chart.value, start, now, latencyOffset);
      forall k | 0 <= k < |activeNotes|
        ensures 0 <= activeNotes[k].zone <= MaxZone && activeNotes[k].index < scheduledIndex
        ensures activeNotes[k].index !in judged
      {
        if k >= |before| {
          assert activeNotes[k] == s[k - |before|];
        }
      }
      forall k, l | 0 <= k < l < |activeNotes|
        ensures activeNotes[k].index < activeNotes[l].index
      {
        if l >= |before| && k < |before| {
          assert activeNotes[l] == s[l - |before|];
        } else if k >= |before| {
          assert activeNotes[l] == s[l - |before|] && activeNotes[k] == s[k - |before|];
        }
      }
    }

    /** As written, `_onMiss` records the miss twice: once in `miss()` and once more in `registerGrade`. */
    method OnMissAsWritten(a: ActiveNote)
      requires score.Valid()
      modifies score
      ensures score.Valid()
      ensures score.State() == AfterGrade(AfterMiss(old(score.State())), MissGrade)
    {
      score.Miss();
      score.RegisterGrade(MissGrade);
    }

    /** `_onMiss` with the miss recorded once, as a missed press records it. */
    method OnMiss(a: ActiveNote)
      requires score.Valid()
      modifies score
      ensures score.Valid()
      ensures score.State() == AfterMiss(old(score.State()))
    {
      score.Miss();
    }

    /** Expiry keeps the session invariant and leaves only notes still ahead of the clock. */
    method Expire(now: real)
      requires Valid()
      modifies this`activeNotes, this`judged, score
      ensures Valid()
      ensures activeNotes == Remaining(old(activeNotes), now)
      ensures judged == old(judged) + ExpiredIndices(old(activeNotes), now)
      ensures score.State() == MissTimes(old(score.State()), ExpiredCount(old(activeNotes), now))
      ensures forall a :: a in activeNotes ==> now < a.targetTime
    {
      ghost var s0 := activeNotes;
      ghost var j0 := judged;
      ghost var st0 := score.State();
      RemoveExpired(now);
      ExpireValid(s0, j0, st0, now);
    }

    /** The expiry loop: from the last note in flight to the first, each note at or past its target is missed and removed. */
    method RemoveExpired(now: real)
      requires score.Valid()
      modifies this`activeNotes, this`judged, score
      ensures score.Valid()
      ensures activeNotes == Remaining(old(activeNotes), now)
      ensures judged == old(judged) + ExpiredIndices(old(activeNotes), now)
      ensures score.State() == MissTimes(old(score.State()), ExpiredCount(old(activeNotes), now))
    {
      ghost var s0 := activeNotes;
      ghost var j0 := judged;
      ghost var st0 := score.State();
      var i := |activeNotes|;
      assert s0[i..] == [];
      while i > 0
        invariant 0 <= i <= |s0|
        invariant activeNotes == s0[..i] + Remaining(s0[i..], now)
        invariant judged == j0 + ExpiredIndices(s0[i..], now)
        invariant score.State() == MissTimes(st0, ExpiredCount(s0[i..], now))
        invariant score.Valid()
      {
        var a := activeNotes[i - 1];
        assert a == s0[i - 1];
        SuffixStep(s0, i, now);
        var progress := (now - (a.targetTime - ApproachTime)) / ApproachTime;
        if progress >= 1.0 {
          OnMiss(a);
          SpliceStep(s0, i, Remaining(s0[i..], now));
          activeNotes := activeNotes[..i - 1] + activeNotes[i..];
          judged := judged + {a.index};
        } else {
          assert s0[..i] == s0[..i - 1] + [a];
        }
        i := i - 1;
      }
      assert s0[0..] == s0;
    }

    lemma ExpireValid(s0: seq<ActiveNote>, j0: set<nat>, st0: ScoreState, now: real)
      requires Inv(st0) && score.Valid()
      requires (forall k :: 0 <= k < |s0| ==> 0 <= s0[k].zone <= MaxZone)
      requires IndicesIncreasing(s0)
      requires forall k :: 0 <= k < |s0| ==> s0[k].index < scheduledIndex && s0[k].index !in j0
      requires forall k :: k in j0 ==> k < scheduledIndex
      requires GradeSum(st0) == baseGradeSum + |j0|
      requires activeNotes == Remaining(s0, now)
      requires judged == j0 + ExpiredIndices(s0, now)
      requires score.State() == MissTimes(st0, ExpiredCount(s0, now))
      ensures InFlight() && |judged| + |activeNotes| == |j0| + |s0|
      ensures forall a :: a in activeNotes ==> now < a.targetTime
    {
      RemainingFacts(s0, now);
      RemainingIncreasing(s0, now);
      ExpiredIndicesCount(s0, now);
      MissTimesFacts(st0, ExpiredCount(s0, now));
      var e := ExpiredIndices(s0, now);
      assert j0 !! e by {
        forall k | k in e
          ensures k !in j0
        {
          var a :| a in s0 && a.index == k && now >= a.targetTime;
        }
      }
      assert |j0 + e| == |j0| + |e|;
      forall k | 0 <= k < |activeNotes|
        ensures 0 <= activeNotes[k].zone <= MaxZone && activeNotes[k].index < scheduledIndex
        ensures activeNotes[k].index !in judged
      {
        var a := activeNotes[k];
        assert a in s0;
        if a.index in e {
          var b :| b in s0 && b.index == a.index && now >= b.targetTime;
          IndexDeterminesNote(s0, a, b);
        }
      }
      forall k | k in judged
        ensures k < scheduledIndex
      {
        if k in e {
          var a :| a in s0 && a.index == k && now >= a.targetTime;
        }
      }
    }

    /**
     * `_tryHit(zone)`: judges the closest note in the zone, if any, and
     * removes it; `b` is its position, or -1 when the zone has no note.
     */
    method TryHit(zone: int, now: real) returns (ghost b: int)
      requires Valid()
      modifies this`activeNotes, this`judged, score
      ensures Valid()
      ensures b == -1 <==> forall j :: 0 <= j < |old(activeNotes)| ==> old(activeNotes)[j].zone != zone
      ensures b == -1 ==> activeNotes == old(activeNotes) && judged == old(judged) && score.State() == old(score.State())
      ensures b != -1 ==>
        (0 <= b && IsClosest(old(activeNotes), zone, now, b)
         && activeNotes == old(activeNotes)[..b] + old(activeNotes)[b + 1..]
         && judged == old(judged) + {old(activeNotes)[b].index}
         && score.State() == AfterJudge(old(score.State()), Judge(Abs(old(activeNotes)[b].targetTime - now))))
    {
      var best, ms := FindClosest(activeNotes, zone, now);
      b := best;
      if best == -1 {
        return;
      }
      var (grade, points) := Judge(ms);
      var a := activeNotes[best];
      ghost var st := score.State();
      ghost var before := activeNotes;
      activeNotes := activeNotes[..best] + activeNotes[best + 1..];
      if grade != MissGrade {
        score.AddHit(points);
        score.RegisterGrade(grade);
      } else {
        score.Miss();
      }
      judged := judged + {a.index};
      AfterJudgeFacts(st, (grade, points));
      TryHitValid(before, best);
    }

    lemma TryHitValid(before: seq<ActiveNote>, b: nat)
      requires b < |before| && activeNotes == before[..b] + before[b + 1..]
      requires score.Valid()
      requires (forall k :: 0 <= k < |before| ==> 0 <= before[k].zone <= MaxZone)
      requires IndicesIncreasing(before)
      requires forall k :: 0 <= k < |before| ==> before[k].index < scheduledIndex
      requires forall k :: 0 <= k < |before| ==> before[k].index !in judged - {before[b].index}
      requires forall k :: k in judged ==> k < scheduledIndex
      requires before[b].index in judged
      requires GradeSum(score.State()) == baseGradeSum + |judged|
      ensures InFlight()
    {
      forall k | 0 <= k < |activeNotes|
        ensures activeNotes[k] == before[if k < b then k else k + 1]
      {
      }
    }

    /** The end check: once finished, results are computed from the score and the session stops. */
    method CheckEnd(now: real)
      requires Valid()
      modifies this`results, this`running
      ensures Valid()
      ensures Finished(chart, scheduledIndex, |activeNotes|, hasAudio, now) ==>
        !running && results.Some?
        && results.value.accuracy == AccuracyOf(score.State())
        && results.value.grade == Grades.CalculateGrade(AccuracyOf(score.State()))
        && results.value.finalScore == Grades.CalculateFinalScore(score.score as real, Grades.CalculateGrade(AccuracyOf(score.State())).grade)
      ensures !Finished(chart, scheduledIndex, |activeNotes|, hasAudio, now) ==>
        running == old(running) && results == old(results)
      ensures Finished(chart, scheduledIndex, |activeNotes|, hasAudio, now) ==>
        |judged| == spawnedCount && GradeSum(score.State()) == baseGradeSum + spawnedCount
    {
      var allScheduled := chart.Some? && scheduledIndex >= |chart.value|;
      var noActive := |activeNotes| == 0;
      var audioEnded := hasAudio && chart.Some? && AudioEnded(chart.value, now);
      if allScheduled && noActive && (if hasAudio then audioEnded else allScheduled) {
        var accuracy := score.GetAccuracy();
        var grade := Grades.CalculateGrade(accuracy);
        var finalScore := Grades.CalculateFinalScore(score.score as real, grade.grade);
        results := Some(Results(accuracy, grade, finalScore));
        Stop();
      }
    }

    /**
     * `_update(delta)` with the clock reading and the pressed zones given:
     * schedule, expire, judge each press, then check for the end. A stopped
     * game is not ticked.
     */
    method Tick(now: real, pressed: seq<int>)
      requires Valid()
      modifies this`scheduledIndex, this`activeNotes, this`judged, this`spawnedCount, this`results, this`running, score
      ensures Valid()
      ensures !old(running) ==> activeNotes == old(activeNotes) && scheduledIndex == old(scheduledIndex)
                                && score.State() == old(score.State()) && results == old(results)
      ensures scheduledIndex >= old(scheduledIndex)
    {
      if !running {
        return;
      }
      Advance(now, pressed);
    }

    /**
     * The body of a tick of a running game: the due notes are spawned, the
     * expired notes missed, the pressed zones tried in order on what is
     * left, and then the end is checked.
     */
    method Advance(now: real, pressed: seq<int>)
      requires Valid()
      modifies this`scheduledIndex, this`activeNotes, this`judged, this`spawnedCount, this`results, this`running, score
      ensures Valid()
      ensures scheduledIndex == ScheduledTo(chart, old(scheduledIndex), now, latencyOffset) >= old(scheduledIndex)
      ensures spawnedCount == old(spawnedCount) + |SpawnedBy(chart, old(scheduledIndex), now, latencyOffset)|
      ensures PlayState(activeNotes, judged, score.State())
           == PressAll(ExpireAll(PlayState(old(activeNotes) + SpawnedBy(chart, old(scheduledIndex), now, latencyOffset),
                                           old(judged), old(score.State())), now), pressed, now)
      ensures forall a :: a in activeNotes ==> now < a.targetTime
      ensures Finished(chart, scheduledIndex, |activeNotes|, hasAudio, now) ==>
        !running && results.Some?
        && results.value.accuracy == AccuracyOf(score.State())
        && results.value.grade == Grades.CalculateGrade(AccuracyOf(score.State()))
        && results.value.finalScore == Grades.CalculateFinalScore(score.score as real, Grades.CalculateGrade(AccuracyOf(score.State())).grade)
        && |judged| == spawnedCount && GradeSum(score.State()) == baseGradeSum + spawnedCount
      ensures !Finished(chart, scheduledIndex, |activeNotes|, hasAudio, now) ==> running == old(running) && results == old(results)
    {
      ghost var h0 := PlayState(activeNotes + SpawnedBy(chart, scheduledIndex, now, latencyOffset), judged, score.State());
      ScheduleDue(now);
      ghost var h1 := PlayState(activeNotes, judged, score.State());
      ghost var i1, sp1 := scheduledIndex, spawnedCount;
      assert h1 == h0;
      ExpireThenJudge(now, pressed);
      ghost var r := PlayState(activeNotes, judged, score.State());
      CheckEnd(now);
      assert PlayState(activeNotes, judged, score.State()) == r;
      assert scheduledIndex == i1 && spawnedCount == sp1;
    }

    /** Expiry and then the presses, which can judge only notes still ahead of the clock. */
    method ExpireThenJudge(now: real, pressed: seq<int>)
      requires Valid()
      modifies this`activeNotes, this`judged, score
      ensures Valid()
      ensures PlayState(activeNotes, judged, score.State())
           == PressAll(ExpireAll(PlayState(old(activeNotes), old(judged), old(score.State())), now), pressed, now)
      ensures forall a :: a in activeNotes ==> now < a.targetTime
    {
      ghost var h1 := PlayState(activeNotes, judged, score.State());
      Expire(now);
      ghost var e := PlayState(activeNotes, judged, score.State());
      assert e == ExpireAll(h1, now);
      JudgePresses(pressed, now);
      ExpiryBeforePresses(h1, pressed, now);
    }

    /** The guard around the scheduling scan: it runs only with a chart and notes left to schedule; otherwise nothing is spawned. */
    method ScheduleDue(now: real)
      requires Valid()
      modifies this`scheduledIndex, this`activeNotes, this`spawnedCount
      ensures Valid()
      ensures scheduledIndex == ScheduledTo(chart, old(scheduledIndex), now, latencyOffset) >= old(scheduledIndex)
      ensures activeNotes == old(activeNotes) + SpawnedBy(chart, old(scheduledIndex), now, latencyOffset)
      ensures spawnedCount == old(spawnedCount) + |SpawnedBy(chart, old(scheduledIndex), now, latencyOffset)|
    {
      if chart.Some? && scheduledIndex < |chart.value| {
        ghost var i0 := scheduledIndex;
        Schedule(now);
        ScanEndFacts(chart.value, i0, now, latencyOffset);
      } else {
        assert SpawnedBy(chart, scheduledIndex, now, latencyOffset) == [];
        assert activeNotes + [] == activeNotes;
      }
    }

    /** `for (const z of pressedZones) this._tryHit(z)`: the zones are tried in order. */
    method JudgePresses(pressed: seq<int>, now: real)
      requires Valid()
      modifies this`activeNotes, this`judged, score
      ensures Valid()
      ensures PlayState(activeNotes, judged, score.State())
           == PressAll(PlayState(old(activeNotes), old(judged), old(score.State())), pressed, now)
      ensures |old(activeNotes)| - |pressed| <= |activeNotes| <= |old(activeNotes)|
    {
      ghost var h0 := PlayState(activeNotes, judged, score.State());
      for p := 0 to |pressed|
        invariant Valid()
        invariant PlayState(activeNotes, judged, score.State()) == PressAll(h0, pressed[..p], now)
      {
        ghost var h := PlayState(activeNotes, judged, score.State());
        ghost var b := TryHit(pressed[p], now);
        TryHitIsPressStep(h, pressed[p], now, b, PlayState(activeNotes, judged, score.State()));
        assert pressed[..p + 1][..p] == pressed[..p];
      }
      assert pressed[..|pressed|] == pressed;
      PressAllFacts(h0, pressed, now);
    }

    /** The contract of `TryHit` pins its new state down to `PressStep`. */
    lemma TryHitIsPressStep(h: PlayState, zone: int, now: real, b: int, after: PlayState)
      requires b == -1 <==> forall j :: 0 <= j < |h.active| ==> h.active[j].zone != zone
      requires b == -1 ==> after == h
      requires b != -1 ==>
        (0 <= b && IsClosest(h.active, zone, now, b)
         && after == PlayState(h.active[..b] + h.active[b + 1..], h.judged + {h.active[b].index},
                               AfterJudge(h.score, Judge(Abs(h.active[b].targetTime - now)))))
      ensures after == PressStep(h, zone, now)
    {
      ClosestMeaning(h.active, zone, now);
      if b != -1 {
        ClosestUnique(h.active, zone, now, b, Closest(h.active, zone, now));
      }
    }
  }

  /** The as-written `_onMiss` adds two to the miss counter where a missed press adds one. */
  lemma OnMissAsWrittenCountsTwice(s: ScoreState)
    requires Inv(s)
    ensures Count(AfterGrade(AfterMiss(s), MissGrade), MissGrade) == Count(s, MissGrade) + 2
    ensures GradeSum(AfterGrade(AfterMiss(s), MissGrade)) == GradeSum(s) + 2
    ensures Count(AfterMiss(s), MissGrade) == Count(s, MissGrade) + 1
  {
  }

  /**
   * One perfect hit and one expired note: with the as-written `_onMiss` the
   * accuracy is 33.33, with the miss recorded once it is 50.
   */
  lemma OnMissAccuracyExample()
    ensures AccuracyOf(AfterGrade(AfterMiss(AfterGrade(AfterHit(Fresh(), 300), Perfect)), MissGrade)) == Finite(33.33)
    ensures AccuracyOf(AfterMiss(AfterGrade(AfterHit(Fresh(), 300), Perfect))) == Finite(50.0)
  {
  }
}
