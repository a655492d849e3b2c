/**
 * The score state machine: score, combo, max combo, hit count and
 * per-grade counters, with a weighted accuracy.
 */
module Scoring {
  import opened Numbers

  /** The abstract state of a score system. */
  datatype ScoreState = ScoreState(
    score: int, combo: nat, maxCombo: nat, hits: nat, grades: map<string, nat>)

  const Perfect: string := "perfect"
  const Great: string := "great"
  const Good: string := "good"
  const MissGrade: string := "miss"

  /** The state of a freshly constructed score system. */
  function Fresh(): (s: ScoreState)
    ensures s.score == 0 && s.combo == 0 && s.maxCombo == 0 && s.hits == 0
    ensures forall g :: g in s.grades ==> s.grades[g] == 0
    ensures s.grades.Keys == {Perfect, Great, Good, MissGrade}
  {
    ScoreState(0, 0, 0, 0, map[Perfect := 0, Great := 0, Good := 0, MissGrade := 0])
  }

  /** `grades[g] || 0`. */
  function Count(s: ScoreState, g: string): nat
  {
    if g in s.grades then s.grades[g] else 0
  }

  /** `maxCombo >= combo`, the invariant every operation keeps. */
  predicate Inv(s: ScoreState) { s.maxCombo >= s.combo }

  /** The state after `addHit(points)`. */
  function AfterHit(s: ScoreState, points: int): (r: ScoreState)
    ensures Inv(r)
    ensures r.maxCombo >= s.maxCombo && r.maxCombo >= r.combo == s.combo + 1
    ensures r.maxCombo == s.maxCombo || r.maxCombo == r.combo
    ensures r.score == s.score + points && r.hits == s.hits + 1 && r.grades == s.grades
  {
    var combo := s.combo + 1;
    s.(score := s.score + points, combo := combo, hits := s.hits + 1,
       maxCombo := if combo > s.maxCombo then combo else s.maxCombo)
  }

  /** The state after `registerGrade(g)`. */
  function AfterGrade(s: ScoreState, g: string): (r: ScoreState)
    ensures Inv(s) ==> Inv(r)
    ensures Count(r, g) == Count(s, g) + 1
    ensures forall h :: h != g ==> Count(r, h) == Count(s, h)
    ensures r.combo == if g == MissGrade then 0 else s.combo
    ensures r.score == s.score && r.hits == s.hits && r.maxCombo == s.maxCombo
  {
    var combo := if g == MissGrade then 0 else s.combo;
    s.(grades := s.grades[g := Count(s, g) + 1], combo := combo)
  }

  /** The state after `miss()`: the combo is reset and one miss recorded. */
  function AfterMiss(s: ScoreState): (r: ScoreState)
    ensures Inv(r)
    ensures r.combo == 0
    ensures Count(r, MissGrade) == Count(s, MissGrade) + 1
    ensures forall h :: h != MissGrade ==> Count(r, h) == Count(s, h)
    ensures r.score == s.score && r.hits == s.hits && r.maxCombo == s.maxCombo
  {
    AfterGrade(s.(combo := 0), MissGrade)
  }

  /** The number of judged notes recorded in the four grade counters. */
  function GradeSum(s: ScoreState): nat
  {
    Count(s, Perfect) + Count(s, Great) + Count(s, Good) + Count(s, MissGrade)
  }

  /** The accuracy weights of the four grades, in tenths. */
  const Weights: seq<(string, nat)> := [(Perfect, 10), (Great, 8), (Good, 5), (MissGrade, 0)]

  /** Sum of count * weight over a list of weights. */
  function WeightedCount(s: ScoreState, ws: seq<(string, nat)>): nat
  {
    if ws == [] then 0
    else WeightedCount(s, ws[..|ws| - 1]) + Count(s, ws[|ws| - 1].0) * ws[|ws| - 1].1
  }

  /** Sum of counts over a list of weights. */
  function CountOver(s: ScoreState, ws: seq<(string, nat)>): nat
  {
    if ws == [] then 0 else CountOver(s, ws[..|ws| - 1]) + Count(s, ws[|ws| - 1].0)
  }

  /** The exact accuracy in percent, `100 * weighted / total`. */
  function ExactAccuracy(s: ScoreState): real
    requires GradeSum(s) > 0
  {
    100.0 * (Count(s, Perfect) as real + 0.8 * Count(s, Great) as real + 0.5 * Count(s, Good) as real)
      / GradeSum(s) as real
  }

  /**
   * `getAccuracy()`: 0 when nothing was judged, NaN when hits or misses
   * exist but the grade counters sum to 0, and otherwise the weighted
   * accuracy rounded (half up) to two decimals.
   */
  function AccuracyOf(s: ScoreState): (r: Number)
    ensures s.hits + Count(s, MissGrade) == 0 ==> r == Finite(0.0)
    ensures s.hits + Count(s, MissGrade) > 0 && GradeSum(s) == 0 ==> r == NaN
    ensures s.hits + Count(s, MissGrade) > 0 && GradeSum(s) > 0 ==>
      r.Finite? && r.value - 0.005 <= ExactAccuracy(s) < r.value + 0.005
    ensures r.Finite? ==> 0.0 <= r.value <= 100.0
    ensures r.Finite? ==> (r.value * 100.0).Floor as real == r.value * 100.0
  {
    if s.hits + Count(s, MissGrade) == 0 then Finite(0.0)
    else if GradeSum(s) == 0 then NaN
    else
      var total := GradeSum(s);
      var hundredths := RoundedHundredths(s);
      Finite(hundredths as real / 100.0)
  }

  /** The accuracy in hundredths of a percent, rounded half up. */
  function RoundedHundredths(s: ScoreState): (h: nat)
    requires GradeSum(s) > 0
    ensures h <= 10000
    ensures h as real - 0.5 <= 100.0 * ExactAccuracy(s) < h as real + 0.5
  {
    var p, g, d, total := Count(s, Perfect), Count(s, Great), Count(s, Good), GradeSum(s);
    var w := 10 * p + 8 * g + 5 * d;
    var h := (2000 * w + total) / (2 * total);
    HundredthsBounds(p, g, d, total, w, h);
    h
  }

  lemma HundredthsBounds(p: nat, g: nat, d: nat, total: nat, w: nat, h: int)
    requires total > 0 && p + g + d <= total
    requires w == 10 * p + 8 * g + 5 * d
    requires h == (2000 * w + total) / (2 * total)
    ensures 0 <= h <= 10000
    ensures h as real - 0.5 <= 100.0 * (100.0 * (p as real + 0.8 * g as real + 0.5 * d as real) / total as real) < h as real + 0.5
  {
    var n := 2000 * w + total;
    var q := 2 * total;
    DivBounds(n, q);
    assert h * q <= n < h * q + q;
    assert h >= 0 by {
      if h < 0 { MulMonotone(h, -1, q); }
    }
    assert h <= 10000 by {
      if h > 10000 { MulMonotone(10001, h, q); }
    }
    ExactAsWeighted(p, g, d, total, w);
    var x := 1000.0 * w as real;
    assert (h as real - 0.5) * total as real <= x < (h as real + 0.5) * total as real by {
      assert (2 * h - 1) * total <= 2000 * w < (2 * h + 1) * total;
      assert ((2 * h - 1) * total) as real <= (2000 * w) as real < ((2 * h + 1) * total) as real;
    }
    QuotientBounds(x, total as real, h as real);
  }

  lemma DivBounds(n: int, q: int)
    requires q > 0
    ensures (n / q) * q <= n < (n / q) * q + q
  {
  }

  lemma MulMonotone(a: int, b: int, q: int)
    requires a <= b && q > 0
    ensures a * q <= b * q
  {
  }

  lemma ExactAsWeighted(p: nat, g: nat, d: nat, total: nat, w: nat)
    requires total > 0 && w == 10 * p + 8 * g + 5 * d
    ensures 100.0 * (100.0 * (p as real + 0.8 * g as real + 0.5 * d as real) / total as real)
         == 1000.0 * w as real / total as real
  {
    assert 100.0 * (p as real + 0.8 * g as real + 0.5 * d as real) == 10.0 * w as real;
  }

  lemma QuotientBounds(x: real, t: real, h: real)
    requires t > 0.0
    requires (h - 0.5) * t <= x < (h + 0.5) * t
    ensures h - 0.5 <= x / t < h + 0.5
  {
    var y := x / t;
    assert y * t == x;
    if y < h - 0.5 {
      ProductPositive(h - 0.5 - y, t);
    }
    if y >= h + 0.5 {
      ProductNonNegative(y - (h + 0.5), t);
    }
  }

  lemma ProductPositive(a: real, b: real)
    requires a > 0.0 && b > 0.0
    ensures a * b > 0.0
  {
  }

  lemma ProductNonNegative(a: real, b: real)
    requires a >= 0.0 && b > 0.0
    ensures a * b >= 0.0
  {
  }

  lemma {:induction false} WeightedCountOfWeights(s: ScoreState)
    ensures WeightedCount(s, Weights) == 10 * Count(s, Perfect) + 8 * Count(s, Great) + 5 * Count(s, Good)
    ensures CountOver(s, Weights) == GradeSum(s)
  {
    var w0, w1, w2, w3 := Weights[..0], Weights[..1], Weights[..2], Weights[..3];
    assert w3 == Weights[..|Weights| - 1] && w2 == w3[..|w3| - 1];
    assert w1 == w2[..|w2| - 1] && w0 == w1[..|w1| - 1] && w0 == [];
    assert WeightedCount(s, w1) == 10 * Count(s, Perfect);
    assert WeightedCount(s, w2) == 10 * Count(s, Perfect) + 8 * Count(s, Great);
    assert WeightedCount(s, w3) == 10 * Count(s, Perfect) + 8 * Count(s, Great) + 5 * Count(s, Good);
    assert CountOver(s, w1) == Count(s, Perfect);
    assert CountOver(s, w2) == Count(s, Perfect) + Count(s, Great);
    assert CountOver(s, w3) == Count(s, Perfect) + Count(s, Great) + Count(s, Good);
  }

  /** With counts 8 perfect / 1 great / 1 good / 0 miss the accuracy is 93. */
  lemma AccuracyExample(s: ScoreState)
    requires s.hits == 10
    requires Count(s, Perfect) == 8 && Count(s, Great) == 1 && Count(s, Good) == 1
    requires Count(s, MissGrade) == 0
    ensures AccuracyOf(s) == Finite(93.0)
  {
  }

  /** One score-system call. */
  datatype Op = HitOp(points: int) | GradeOp(grade: string) | MissOp

  function Apply(s: ScoreState, op: Op): ScoreState
  {
    match op
    case HitOp(p) => AfterHit(s, p)
    case GradeOp(g) => AfterGrade(s, g)
    case MissOp => AfterMiss(s)
  }

  function Run(s: ScoreState, ops: seq<Op>): ScoreState
    decreases |ops|
  {
    if ops == [] then s else Run(Apply(s, ops[0]), ops[1..])
  }

  function HitCount(ops: seq<Op>): nat
  {
    if ops == [] then 0 else (if ops[0].HitOp? then 1 else 0) + HitCount(ops[1..])
  }

  function Points(ops: seq<Op>): int
  {
    if ops == [] then 0 else (if ops[0].HitOp? then ops[0].points else 0) + Points(ops[1..])
  }

  predicate IsGradeName(g: string) { g == Perfect || g == Great || g == Good || g == MissGrade }

  /** Calls that record one of the four grades: `registerGrade` and `miss`. */
  function GradeCalls(ops: seq<Op>): nat
  {
    if ops == [] then 0
    else
      var counted := ops[0].MissOp? || (ops[0].GradeOp? && IsGradeName(ops[0].grade));
      (if counted then 1 else 0) + GradeCalls(ops[1..])
  }

  /**
   * Over any sequence of calls: `maxCombo >= combo` is kept, `maxCombo`
   * never decreases, the score grows by exactly the points of the hits,
   * `hits` counts the `addHit` calls, and every grade-recording call adds
   * exactly one to the grade counters.
   */
  lemma {:induction false} RunFacts(s: ScoreState, ops: seq<Op>)
    requires Inv(s)
    ensures Inv(Run(s, ops))
    ensures Run(s, ops).maxCombo >= s.maxCombo
    ensures Run(s, ops).score == s.score + Points(ops)
    ensures Run(s, ops).hits == s.hits + HitCount(ops)
    ensures GradeSum(Run(s, ops)) == GradeSum(s) + GradeCalls(ops)
    decreases |ops|
  {
    if ops != [] {
      var t := Apply(s, ops[0]);
      ApplyFacts(s, ops[0]);
      RunFacts(t, ops[1..]);
    }
  }

  /** One call of the run. */
  lemma ApplyFacts(s: ScoreState, op: Op)
    requires Inv(s)
    ensures Inv(Apply(s, op)) && Apply(s, op).maxCombo >= s.maxCombo
    ensures Apply(s, op).score == s.score + (if op.HitOp? then op.points else 0)
    ensures Apply(s, op).hits == s.hits + (if op.HitOp? then 1 else 0)
    ensures GradeSum(Apply(s, op)) == GradeSum(s) + (if op.MissOp? || (op.GradeOp? && IsGradeName(op.grade)) then 1 else 0)
  {
  }

  /** Three hits followed by one miss: combo 0, max combo still 3. */
  lemma ThreeHitsThenMiss(p1: int, p2: int, p3: int)
    ensures AfterMiss(AfterHit(AfterHit(AfterHit(Fresh(), p1), p2), p3)).combo == 0
    ensures AfterMiss(AfterHit(AfterHit(AfterHit(Fresh(), p1), p2), p3)).maxCombo == 3
    ensures AfterMiss(AfterHit(AfterHit(AfterHit(Fresh(), p1), p2), p3)).hits == 3
    ensures Count(AfterMiss(AfterHit(AfterHit(AfterHit(Fresh(), p1), p2), p3)), MissGrade) == 1
  {
  }

  /** `ScoreSystem`: the counters updated in place. */
  class ScoreSystem {
    var score: int
    var combo: nat
    var maxCombo: nat
    var hits: nat
    var grades: map<string, nat>

    function State(): ScoreState
      reads this
    {
      ScoreState(score, combo, maxCombo, hits, grades)
    }

    ghost predicate Valid()
      reads this
    {
      Inv(State())
    }

    constructor ()
      ensures Valid() && State() == Fresh()
    {
      score, combo, maxCombo, hits := 0, 0, 0, 0;
      grades := map[Perfect := 0, Great := 0, Good := 0, MissGrade := 0];
    }

    method AddHit(points: int)
      modifies this
      ensures Valid()
      ensures State() == AfterHit(old(State()), points)
    {
      score := score + points;
      combo := combo + 1;
      hits := hits + 1;
      if combo > maxCombo {
        maxCombo := combo;
      }
    }

    method RegisterGrade(grade: string)
      requires Valid()
      modifies this
      ensures Valid()
      ensures State() == AfterGrade(old(State()), grade)
    {
      if grade !in grades {
        grades := grades[grade := 0];
      }
      grades := grades[grade := grades[grade] + 1];
      if grade == MissGrade {
        combo := 0;
      }
    }

    method Miss()
      requires Valid()
      modifies this
      ensures Valid()
      ensures State() == AfterMiss(old(State()))
    {
      combo := 0;
      RegisterGrade(MissGrade);
    }

    /** `getAccuracy()`: accumulates the weighted and plain counts in a loop. */
    method GetAccuracy() returns (acc: Number)
      ensures acc == AccuracyOf(State())
    {
      var s := State();
      if hits + Count(s, MissGrade) == 0 {
        return Finite(0.0);
      }
      var weighted: nat := 0;
      var total: nat := 0;
      for i := 0 to |Weights|
        invariant weighted == WeightedCount(s, Weights[..i])
        invariant total == CountOver(s, Weights[..i])
      {
        var (grade, weight) := Weights[i];
        var count := if grade in grades then grades[grade] else 0;
        assert Weights[..i + 1][..i] == Weights[..i];
        weighted := weighted + count * weight;
        total := total + count;
      }
      assert Weights[..|Weights|] == Weights;
      WeightedCountOfWeights(s);
      if total == 0 {
        return NaN;
      }
      acc := Finite(((2000 * weighted + total) / (2 * total)) as real / 100.0);
    }
  }
}
