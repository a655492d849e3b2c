/**
 * The grade table (ordered thresholds, first match wins), the final
 * score with the grade's bonus, and the thousands-separator formatter.
 */
module Grades {
  import opened Numbers

  datatype GradeEntry = GradeEntry(
    grade: string, minAcc: real, color: int, reward: int, description: string, title: string)

  /** `GRADES`, in declaration order. */
  const Table: seq<GradeEntry> := [
    GradeEntry("SSS+", 100.0, 0xffe86b, 1000, "Perfect!", "Absolute Perfection"),
    GradeEntry("SSS", 99.5, 0xffd700, 800, "Phenomenal!", "Masterful Performance"),
    GradeEntry("SS", 98.0, 0xff9ef0, 600, "Incredible!", "Elite Performance"),
    GradeEntry("S", 95.0, 0x9ef0ff, 500, "Excellent!", "Superior Performance"),
    GradeEntry("A", 90.0, 0x6ee7b7, 400, "Great!", "Advanced Performance"),
    GradeEntry("B", 80.0, 0xa8d7ff, 300, "Good!", "Skilled Performance"),
    GradeEntry("C", 70.0, 0xff9ea8, 200, "Decent", "Standard Performance"),
    GradeEntry("D", 60.0, 0xff7b7b, 100, "Pass", "Basic Performance"),
    GradeEntry("F", 0.0, 0x888888, 0, "Failed", "Practice More")
  ]

  /** Position of the F entry, the fallback. */
  const FailIndex: nat := 8

  /** `accuracy >= data.minAcc` (never true for NaN). */
  predicate Matches(acc: Number, i: nat)
    requires i < |Table|
  {
    acc.Finite? && acc.value >= Table[i].minAcc
  }

  /** The thresholds strictly decrease in declaration order. */
  lemma TableDescending(i: nat, j: nat)
    requires i < j < |Table|
    ensures Table[i].minAcc > Table[j].minAcc
  {
  }

  /** Grade names are distinct, so a name identifies an entry. */
  lemma TableNamesDistinct(i: nat, j: nat)
    requires i < j < |Table|
    ensures Table[i].grade != Table[j].grade
  {
  }

  /** The scan of `calculateGrade` from position `i` on. */
  function ScanFrom(acc: Number, i: nat): (k: nat)
    requires i <= FailIndex
    ensures i <= k < |Table|
    ensures forall j :: i <= j < k ==> !Matches(acc, j)
    ensures Matches(acc, k) || (k == FailIndex && forall j :: i <= j < |Table| ==> !Matches(acc, j))
    decreases |Table| - i
  {
    if i == FailIndex then FailIndex
    else if Matches(acc, i) then i
    else ScanFrom(acc, i + 1)
  }

  /**
   * The index `calculateGrade(acc)` picks: the first entry in declaration
   * order whose threshold `acc` reaches, or F when none does.
   */
  function GradeIndex(acc: Number): (k: nat)
    ensures k < |Table|
    ensures forall j :: 0 <= j < k ==> !Matches(acc, j)
    ensures Matches(acc, k) || (k == FailIndex && forall j :: 0 <= j < |Table| ==> !Matches(acc, j))
  {
    ScanFrom(acc, 0)
  }

  /** `calculateGrade(accuracy)`: `{ grade, ...data }` of the chosen entry. */
  function CalculateGrade(acc: Number): (r: GradeEntry)
    ensures r == Table[GradeIndex(acc)]
  {
    Table[GradeIndex(acc)]
  }

  /** Every accuracy of at least 0 matches an entry; below 0 (or NaN) gives F. */
  lemma {:induction false} GradeTotal(acc: Number)
    ensures acc.Finite? && acc.value >= 0.0 ==> Matches(acc, GradeIndex(acc))
    ensures !(acc.Finite? && acc.value >= 0.0) ==> CalculateGrade(acc).grade == "F"
  {
    var k := GradeIndex(acc);
    if acc.Finite? && acc.value >= 0.0 {
      assert Matches(acc, FailIndex);
    } else {
      assert !Matches(acc, k);
    }
  }

  /** A higher accuracy never yields a lower-ranked grade. */
  lemma {:induction false} GradeMonotone(a: real, b: real)
    requires a <= b
    ensures GradeIndex(Finite(b)) <= GradeIndex(Finite(a))
  {
  }

  /** The thresholds are inclusive: 100 gives SSS+, 99.5 SSS, 98 SS, 59.99 F. */
  lemma GradeBoundaries()
    ensures CalculateGrade(Finite(100.0)).grade == "SSS+"
    ensures CalculateGrade(Finite(99.5)).grade == "SSS"
    ensures CalculateGrade(Finite(99.49)).grade == "SS"
    ensures CalculateGrade(Finite(98.0)).grade == "SS"
    ensures CalculateGrade(Finite(59.99)).grade == "F"
  {
  }

  /**
   * `GRADES[grade] || GRADES['F']`: the entry with that name, else F.
   * Names of inherited object properties, such as "constructor", also fall back to F here,
   * where the lookup as written would find a value without a reward.
   */
  function EntryNamed(name: string): (r: GradeEntry)
    ensures r in Table
    ensures (exists i :: 0 <= i < |Table| && Table[i].grade == name) ==> r.grade == name
    ensures (forall i :: 0 <= i < |Table| ==> Table[i].grade != name) ==> r == Table[FailIndex]
  {
    EntryNamedFrom(name, 0)
  }

  function EntryNamedFrom(name: string, i: nat): (r: GradeEntry)
    requires i <= |Table|
    ensures r in Table
    ensures (exists j :: i <= j < |Table| && Table[j].grade == name) ==> r.grade == name
    ensures (forall j :: i <= j < |Table| ==> Table[j].grade != name) ==> r == Table[FailIndex]
    decreases |Table| - i
  {
    if i == |Table| then Table[FailIndex]
    else if Table[i].grade == name then Table[i]
    else EntryNamedFrom(name, i + 1)
  }

  /** `calculateFinalScore(base, grade)`: `Math.round(base + reward)`. */
  function CalculateFinalScore(base: real, grade: string): (r: int)
    ensures r as real - 0.5 <= base + EntryNamed(grade).reward as real < r as real + 0.5
  {
    Round(base + EntryNamed(grade).reward as real)
  }

  /** For an integer score the final score is exactly score plus bonus; unknown names add 0. */
  lemma FinalScoreOfInteger(base: int, grade: string)
    ensures CalculateFinalScore(base as real, grade) == base + EntryNamed(grade).reward
    ensures (forall i :: 0 <= i < |Table| ==> Table[i].grade != grade) ==>
      CalculateFinalScore(base as real, grade) == base
  {
    RoundOfInteger(base + EntryNamed(grade).reward);
  }

  // ---------------------------------------------------------------------
  // formatNumber

  /** Groups a digit string in threes from the right, joined by commas. */
  function Group(s: string): (t: string)
    decreases |s|
  {
    if |s| <= 3 then s else Group(s[..|s| - 3]) + [','] + s[|s| - 3..]
  }

  /**
   * `formatNumber(n)` for an integer: the decimal string with a comma at
   * every non-boundary position followed by a multiple of three digits.
   * The sign is not a word character, so no comma follows it.
   */
  function FormatNumber(n: int): (t: string)
    ensures |t| >= 1
  {
    if n < 0 then "-" + Group(NatToString(-n)) else Group(NatToString(n))
  }

  /** The string with every comma deleted. */
  function RemoveCommas(t: string): string
  {
    if t == [] then [] else (if t[0] == ',' then [] else [t[0]]) + RemoveCommas(t[1..])
  }

  lemma {:induction false} RemoveCommasAppend(a: string, b: string)
    ensures RemoveCommas(a + b) == RemoveCommas(a) + RemoveCommas(b)
    decreases |a|
  {
    if a != [] {
      var head: string := if a[0] == ',' then [] else [a[0]];
      assert (a + b)[0] == a[0];
      assert (a + b)[1..] == a[1..] + b;
      RemoveCommasAppend(a[1..], b);
      calc {
        RemoveCommas(a + b);
        head + RemoveCommas(a[1..] + b);
        head + (RemoveCommas(a[1..]) + RemoveCommas(b));
        (head + RemoveCommas(a[1..])) + RemoveCommas(b);
        RemoveCommas(a) + RemoveCommas(b);
      }
    } else {
      assert a + b == b;
    }
  }

  lemma {:induction false} RemoveCommasNone(s: string)
    requires forall i :: 0 <= i < |s| ==> IsDigit(s[i])
    ensures RemoveCommas(s) == s
    decreases |s|
  {
    if s != [] {
      RemoveCommasNone(s[1..]);
      assert s == [s[0]] + s[1..];
    }
  }

  /** Deleting the commas gives back the digits. */
  lemma {:induction false} GroupUnformat(s: string)
    requires AllDigits(s)
    ensures RemoveCommas(Group(s)) == s
    decreases |s|
  {
    if |s| <= 3 {
      RemoveCommasNone(s);
    } else {
      var a, b := s[..|s| - 3], s[|s| - 3..];
      GroupUnformat(a);
      RemoveCommasJoin(Group(a), b);
      assert a + b == s;
    }
  }

  /** Deleting the commas of `g,b`, where `b` is all digits. */
  lemma RemoveCommasJoin(g: string, b: string)
    requires AllDigits(b)
    ensures RemoveCommas(g + [','] + b) == RemoveCommas(g) + b
  {
    RemoveCommasAppend(g + [','], b);
    RemoveCommasDropComma(g);
    RemoveCommasNone(b);
  }

  lemma RemoveCommasDropComma(g: string)
    ensures RemoveCommas(g + [',']) == RemoveCommas(g)
  {
    assert RemoveCommas([',']) == [] by {
      assert [','][1..] == [];
    }
    RemoveCommasAppend(g, [',']);
  }

  /** Deleting the commas of `formatNumber(n)` gives back `String(n)`. */
  lemma FormatNumberUnformat(n: int)
    ensures n >= 0 ==> RemoveCommas(FormatNumber(n)) == NatToString(n)
    ensures n < 0 ==> RemoveCommas(FormatNumber(n)) == "-" + NatToString(-n)
  {
    if n < 0 {
      GroupUnformat(NatToString(-n));
      RemoveCommasAppend("-", Group(NatToString(-n)));
      assert RemoveCommas("-") == "-";
    } else {
      GroupUnformat(NatToString(n));
    }
  }

  /** Only digits and commas, starting with a digit. */
  ghost predicate DigitsAndCommas(t: string)
  {
    |t| >= 1 && IsDigit(t[0]) && forall i :: 0 <= i < |t| ==> IsDigit(t[i]) || t[i] == ','
  }

  /** Every comma is followed by exactly three digits, then the end or another comma. */
  ghost predicate CommasBeforeTriples(t: string)
  {
    forall i :: 0 <= i < |t| && t[i] == ',' ==>
      i + 3 < |t| && IsDigit(t[i + 1]) && IsDigit(t[i + 2]) && IsDigit(t[i + 3])
      && (i + 4 == |t| || t[i + 4] == ',')
  }

  /** No four digits are adjacent, so the first group has at most three. */
  ghost predicate NoFourDigits(t: string)
  {
    forall i :: 0 <= i && i + 3 < |t| ==>
      t[i] == ',' || t[i + 1] == ',' || t[i + 2] == ',' || t[i + 3] == ','
  }

  /**
   * Shape of a grouped string: the first group has 1 to 3 digits and
   * every later group exactly 3.
   */
  ghost predicate WellGrouped(t: string)
  {
    DigitsAndCommas(t) && CommasBeforeTriples(t) && NoFourDigits(t)
  }

  predicate AllDigits(b: string) { forall i :: 0 <= i < |b| ==> IsDigit(b[i]) }

  lemma AppendGroupDigits(g: string, b: string)
    requires DigitsAndCommas(g) && |b| == 3 && AllDigits(b)
    ensures DigitsAndCommas(g + [','] + b)
  {
    var t := g + [','] + b;
    assert t[0] == g[0];
    forall i | 0 <= i < |t| ensures IsDigit(t[i]) || t[i] == ',' {
      if i < |g| { assert t[i] == g[i]; } else if i > |g| { assert t[i] == b[i - |g| - 1]; }
    }
  }

  lemma AppendGroupCommas(g: string, b: string)
    requires CommasBeforeTriples(g) && |b| == 3 && AllDigits(b)
    requires |g| >= 4 ==> g[|g| - 4] == ','
    requires forall i :: |g| - 3 <= i < |g| && 0 <= i ==> g[i] != ','
    ensures CommasBeforeTriples(g + [','] + b)
  {
    var t := g + [','] + b;
    forall i | 0 <= i < |t| && t[i] == ','
      ensures i + 3 < |t| && IsDigit(t[i + 1]) && IsDigit(t[i + 2]) && IsDigit(t[i + 3])
      ensures i + 4 == |t| || t[i + 4] == ','
    {
      if i < |g| {
        assert g[i] == ',';
        assert t[i + 1] == g[i + 1] && t[i + 2] == g[i + 2] && t[i + 3] == g[i + 3];
        if i + 4 == |g| {
          assert t[i + 4] == ',';
        } else {
          assert t[i + 4] == g[i + 4];
        }
      } else {
        assert i == |g|;
        assert t[i + 1] == b[0] && t[i + 2] == b[1] && t[i + 3] == b[2];
      }
    }
  }

  lemma AppendGroupNoFour(g: string, b: string)
    requires NoFourDigits(g) && |b| == 3
    ensures NoFourDigits(g + [','] + b)
  {
    var t := g + [','] + b;
    forall i | 0 <= i && i + 3 < |t|
      ensures t[i] == ',' || t[i + 1] == ',' || t[i + 2] == ',' || t[i + 3] == ','
    {
      if i + 3 < |g| {
        assert t[i] == g[i] && t[i + 1] == g[i + 1] && t[i + 2] == g[i + 2] && t[i + 3] == g[i + 3];
      } else {
        assert t[|g|] == ',';
      }
    }
  }

  lemma {:induction false} GroupWellGrouped(s: string)
    requires |s| >= 1 && AllDigits(s)
    ensures WellGrouped(Group(s))
    ensures |Group(s)| >= 4 ==> Group(s)[|Group(s)| - 4] == ','
    ensures forall i :: |Group(s)| - 3 <= i < |Group(s)| && 0 <= i ==> Group(s)[i] != ','
    decreases |s|
  {
    if |s| > 3 {
      var a, b := s[..|s| - 3], s[|s| - 3..];
      GroupWellGrouped(a);
      var g := Group(a);
      assert g + [','] + b == Group(s);
      AppendGroupDigits(g, b);
      AppendGroupCommas(g, b);
      AppendGroupNoFour(g, b);
      var t := g + [','] + b;
      assert t[|t| - 4] == ',';
      forall i | |t| - 3 <= i < |t| ensures t[i] != ',' {
        assert t[i] == b[i - |g| - 1];
      }
    }
  }

  /** `formatNumber(n)` of a non-negative integer is well grouped. */
  lemma FormatNumberGroups(n: nat)
    ensures WellGrouped(FormatNumber(n))
  {
    GroupWellGrouped(NatToString(n));
  }

  /**
   * The regular expression's view, scanning left to right: a comma goes
   * before position `k` when `0 < k` and the digits from `k` to the end
   * are a non-empty multiple of three.
   */
  function CommasFrom(s: string, k: nat): string
    requires k <= |s|
    decreases |s| - k
  {
    if k == |s| then []
    else (if 0 < k && MultipleOfThree(|s| - k) then [','] else []) + [s[k]] + CommasFrom(s, k + 1)
  }

  /** `n` is a multiple of three: what `(\d{3})+` asks of a non-empty run of digits. */
  predicate MultipleOfThree(n: nat)
    decreases n
  {
    if n < 3 then n == 0 else MultipleOfThree(n - 3)
  }

  lemma MultipleOfThreeStep(n: nat)
    ensures MultipleOfThree(n + 3) == MultipleOfThree(n)
  {
  }

  lemma CommasFromStep(s: string, k: nat)
    requires k < |s|
    ensures CommasFrom(s, k) == (if 0 < k && MultipleOfThree(|s| - k) then [','] else []) + [s[k]] + CommasFrom(s, k + 1)
  {
  }

  /** No comma goes inside the first position or the last group of three digits. */
  lemma {:induction false} CommasFromTail(s: string, k: nat)
    requires k <= |s| && (|s| <= 3 || |s| - 3 < k)
    ensures CommasFrom(s, k) == s[k..]
    decreases |s| - k
  {
    if k < |s| {
      CommasFromStep(s, k);
      CommasFromTail(s, k + 1);
      assert s[k..] == [s[k]] + s[k + 1..];
    }
  }

  lemma CommasFromLastThree(s: string)
    requires 3 < |s|
    ensures CommasFrom(s, |s| - 3) == [','] + s[|s| - 3..]
  {
    var n := |s|;
    assert MultipleOfThree(n - (n - 3));
    CommasFromStep(s, n - 3);
    CommasFromTail(s, n - 2);
    assert s[n - 3..] == [s[n - 3]] + s[n - 2..];
  }

  lemma RegroupComma(h: string, m: string, t: string)
    ensures h + (m + [','] + t) == (h + m) + [','] + t
  {
  }

  /** Appending a group of three digits puts one comma before it and leaves the rest alone. */
  lemma {:induction false} CommasFromSplit(a: string, t: string, k: nat)
    requires 0 < |a| && |t| == 3 && k <= |a|
    ensures CommasFrom(a + t, k) == CommasFrom(a, k) + [','] + t
    decreases |a| - k
  {
    var s := a + t;
    if k == |a| {
      CommasFromLastThree(s);
      assert s[|s| - 3..] == t;
      assert CommasFrom(a, k) == [];
    } else {
      CommasFromSplit(a, t, k + 1);
      var sep: string := if 0 < k && MultipleOfThree(|a| - k) then [','] else [];
      MultipleOfThreeStep(|a| - k);
      assert s[k] == a[k];
      CommasFromStep(a, k);
      CommasFromStep(s, k);
      RegroupComma(sep + [a[k]], CommasFrom(a, k + 1), t);
    }
  }

  /** Grouping from the right agrees with the regular expression's left-to-right rule. */
  lemma {:induction false} GroupMatchesRegex(s: string)
    ensures Group(s) == CommasFrom(s, 0)
    decreases |s|
  {
    if |s| <= 3 {
      CommasFromTail(s, 0);
    } else {
      GroupMatchesRegex(s[..|s| - 3]);
      CommasFromSplit(s[..|s| - 3], s[|s| - 3..], 0);
      assert s[..|s| - 3] + s[|s| - 3..] == s;
    }
  }

  /** Examples: 999 stays 999, 1000 is written 1,000 and 1234567 is written 1,234,567. */
  lemma FormatExamples()
    ensures FormatNumber(999) == "999"
    ensures FormatNumber(1000) == "1,000"
    ensures FormatNumber(1234567) == "1,234,567"
  {
    DigitsOfExample();
    GroupOfExample();
  }

  lemma DigitsOfExample()
    ensures NatToString(999) == "999" && NatToString(1000) == "1000"
    ensures NatToString(1234567) == "1234567"
  {
    assert NatToString(9) == "9" && NatToString(1) == "1";
    assert NatToString(99) == "99";
    assert NatToString(10) == "10";
    assert NatToString(100) == "100";
    assert NatToString(12) == "12";
    assert NatToString(123) == "123";
    assert NatToString(1234) == "1234";
    assert NatToString(12345) == "12345";
    assert NatToString(123456) == "123456";
  }

  lemma GroupOfExample()
    ensures Group("999") == "999" && Group("1000") == "1,000"
    ensures Group("1234567") == "1,234,567"
  {
    var u := "1000";
    assert u[..1] == "1" && u[1..] == "000";
    var s := "1234567";
    assert s[..4] == "1234" && s[4..] == "567";
    var t := "1234";
    assert t[..1] == "1" && t[1..] == "234";
    assert Group(t) == "1,234";
  }
}
