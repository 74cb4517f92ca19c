/**
 Reactor reports: a report is a sequence of levels, and it is safe when the
 levels only go one way and every step between neighbours is between one and
 three.
 */
module Reports {

  import opened Numbers

  datatype Report = Report(levels: seq<int>)

  /** No level is followed by a smaller one. */
  predicate NonDecreasing(s: seq<int>)
  {
    forall k :: 0 <= k < |s| - 1 ==> s[k] <= s[k + 1]
  }

  /** No level is followed by a larger one. */
  predicate NonIncreasing(s: seq<int>)
  {
    forall k :: 0 <= k < |s| - 1 ==> s[k] >= s[k + 1]
  }

  /** Every step between neighbouring levels has a size in `[lower, upper]`. */
  predicate StepsWithin(s: seq<int>, lower: int, upper: int)
  {
    forall k :: 0 <= k < |s| - 1 ==> lower <= Abs(s[k + 1] - s[k]) <= upper
  }

  /** Every level is followed by a larger one, by one to three. */
  predicate SafelyIncreasing(s: seq<int>)
  {
    forall k :: 0 <= k < |s| - 1 ==> 1 <= s[k + 1] - s[k] <= 3
  }

  /** Every level is followed by a smaller one, by one to three. */
  predicate SafelyDecreasing(s: seq<int>)
  {
    forall k :: 0 <= k < |s| - 1 ==> 1 <= s[k] - s[k + 1] <= 3
  }

  /** What makes a report safe, stated directly. */
  predicate Safe(r: Report)
  {
    SafelyIncreasing(r.levels) || SafelyDecreasing(r.levels)
  }

  /** Scans the neighbouring pairs, clearing `decreasing` at a rise and
      `increasing` at a fall; equal neighbours clear neither. */
  method IsMonotonic(r: Report) returns (b: bool)
    ensures b <==> NonDecreasing(r.levels) || NonIncreasing(r.levels)
  {
    var s := r.levels;
    var increasing := true;
    var decreasing := true;
    var i := 0;
    while i + 1 < |s|
      invariant 0 <= i <= if |s| == 0 then 0 else |s| - 1
      invariant increasing <==> forall k :: 0 <= k < i ==> s[k] <= s[k + 1]
      invariant decreasing <==> forall k :: 0 <= k < i ==> s[k] >= s[k + 1]
    {
      if s[i] < s[i + 1] {
        decreasing := false;
      } else if s[i] > s[i + 1] {
        increasing := false;
      }
      i := i + 1;
    }
    b := increasing || decreasing;
  }

  /** The size of every step between neighbours, in order. */
  method StepSizes(s: seq<int>) returns (differences: seq<nat>)
    ensures |differences| == if |s| == 0 then 0 else |s| - 1
    ensures forall k :: 0 <= k < |differences| ==> differences[k] == Abs(s[k + 1] - s[k])
  {
    differences := [];
    var i := 0;
    while i + 1 < |s|
      invariant 0 <= i <= if |s| == 0 then 0 else |s| - 1
      invariant |differences| == i
      invariant forall k :: 0 <= k < i ==> differences[k] == Abs(s[k + 1] - s[k])
    {
      differences := differences + [Abs(s[i + 1] - s[i])];
      i := i + 1;
    }
  }

  /** Whether every value lies in `[lower, upper]`. */
  method AllWithin(d: seq<nat>, lower: nat, upper: nat) returns (b: bool)
    ensures b <==> forall k :: 0 <= k < |d| ==> lower <= d[k] <= upper
  {
    b := true;
    var j := 0;
    while j < |d|
      invariant 0 <= j <= |d|
      invariant b <==> forall k :: 0 <= k < j ==> lower <= d[k] <= upper
    {
      b := b && lower <= d[j] && d[j] <= upper;
      j := j + 1;
    }
  }

  /** Collects the size of every step between neighbours, then checks that
      each lies in `[lower, upper]`. */
  method DifferenceWithinBounds(r: Report, lower: nat, upper: nat) returns (b: bool)
    ensures b <==> StepsWithin(r.levels, lower, upper)
  {
    var s := r.levels;
    var differences := StepSizes(s);
    b := AllWithin(differences, lower, upper);
    if b {
      forall k | 0 <= k < |s| - 1 ensures lower <= Abs(s[k + 1] - s[k]) <= upper {
        assert differences[k] == Abs(s[k + 1] - s[k]);
      }
    } else {
      var k :| 0 <= k < |differences| && !(lower <= differences[k] <= upper);
      assert differences[k] == Abs(s[k + 1] - s[k]);
    }
  }

  /** Monotone levels whose steps all have size one to three go strictly one
      way by one to three, and the converse. */
  lemma MonotoneBoundedMeaning(s: seq<int>)
    ensures (NonDecreasing(s) || NonIncreasing(s)) && StepsWithin(s, 1, 3)
      <==> SafelyIncreasing(s) || SafelyDecreasing(s)
  {
    if NonDecreasing(s) && StepsWithin(s, 1, 3) {
      assert SafelyIncreasing(s) by {
        forall k | 0 <= k < |s| - 1 ensures 1 <= s[k + 1] - s[k] <= 3 {
          assert s[k] <= s[k + 1];
          assert 1 <= Abs(s[k + 1] - s[k]) <= 3;
        }
      }
    }
    if NonIncreasing(s) && StepsWithin(s, 1, 3) {
      assert SafelyDecreasing(s) by {
        forall k | 0 <= k < |s| - 1 ensures 1 <= s[k] - s[k + 1] <= 3 {
          assert s[k] >= s[k + 1];
          assert 1 <= Abs(s[k + 1] - s[k]) <= 3;
        }
      }
    }
    if SafelyIncreasing(s) {
      assert NonDecreasing(s) && StepsWithin(s, 1, 3) by {
        forall k | 0 <= k < |s| - 1 ensures s[k] <= s[k + 1] && 1 <= Abs(s[k + 1] - s[k]) <= 3 {
          assert 1 <= s[k + 1] - s[k] <= 3;
        }
      }
    }
    if SafelyDecreasing(s) {
      assert NonIncreasing(s) && StepsWithin(s, 1, 3) by {
        forall k | 0 <= k < |s| - 1 ensures s[k] >= s[k + 1] && 1 <= Abs(s[k + 1] - s[k]) <= 3 {
          assert 1 <= s[k] - s[k + 1] <= 3;
        }
      }
    }
  }

  /** A report is safe when it is monotone and every step has size one to
      three; that is, when it goes strictly one way in steps of one to three. */
  method IsSafe(r: Report) returns (b: bool)
    ensures b <==> Safe(r)
  {
    var monotonic := IsMonotonic(r);
    var bounded := DifferenceWithinBounds(r, 1, 3);
    b := monotonic && bounded;
    MonotoneBoundedMeaning(r.levels);
  }

  /** Reports of fewer than two levels have no neighbours to disagree, so
      they are safe. */
  lemma ShortReportsSafe(r: Report)
    requires |r.levels| <= 1
    ensures Safe(r)
  {
  }

  /** A report with two equal neighbours is never safe. */
  lemma FlatStepUnsafe(r: Report, k: nat)
    requires k + 1 < |r.levels| && r.levels[k] == r.levels[k + 1]
    ensures !Safe(r)
  {
  }

  /** The number of safe reports among the first `n`. */
  function NumSafe(reports: seq<Report>, n: nat): (c: nat)
    requires n <= |reports|
    ensures c <= n
    decreases n
  {
    if n == 0 then 0
    else NumSafe(reports, n - 1) + (if Safe(reports[n - 1]) then 1 else 0)
  }

  /** Counts the safe reports, one report at a time. */
  method CountSafeReports(reports: seq<Report>) returns (count: nat)
    ensures count == NumSafe(reports, |reports|)
    ensures count <= |reports|
  {
    count := 0;
    var i := 0;
    while i < |reports|
      invariant 0 <= i <= |reports|
      invariant count == NumSafe(reports, i)
    {
      var safe := IsSafe(reports[i]);
      if safe {
        count := count + 1;
      }
      i := i + 1;
    }
  }

  /** The count of safe reports reaches the number of reports exactly when
      every report is safe. */
  lemma {:induction false} NumSafeAll(reports: seq<Report>, n: nat)
    requires n <= |reports|
    ensures NumSafe(reports, n) == n <==> forall k :: 0 <= k < n ==> Safe(reports[k])
    decreases n
  {
    if n > 0 {
      NumSafeAll(reports, n - 1);
    }
  }

  /** Counting the safe reports of `a + b` adds the counts of `a` and `b`. */
  lemma {:induction false} NumSafeAppend(a: seq<Report>, b: seq<Report>, m: nat)
    requires m <= |b|
    ensures NumSafe(a + b, |a| + m) == NumSafe(a, |a|) + NumSafe(b, m)
    decreases m
  {
    if m == 0 {
      NumSafePrefix(a + b, a, |a|);
    } else {
      NumSafeAppend(a, b, m - 1);
      assert (a + b)[|a| + m - 1] == b[m - 1];
    }
  }

  /** The count over the first `n` reports depends only on those reports. */
  lemma {:induction false} NumSafePrefix(x: seq<Report>, y: seq<Report>, n: nat)
    requires n <= |x| && n <= |y|
    requires forall k :: 0 <= k < n ==> x[k] == y[k]
    ensures NumSafe(x, n) == NumSafe(y, n)
    decreases n
  {
    if n > 0 {
      NumSafePrefix(x, y, n - 1);
    }
  }
}
