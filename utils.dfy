/** The scoring and list helpers: Levenshtein edit distance, the
    Interaction Quality Score, bucket names, duration formatting, chunking
    and the Fisher-Yates shuffle. */
module Utils {
  import opened Common
  import opened Text

  // ---------------------------------------------------------------------
  // Levenshtein distance

  /** `s.toLowerCase()`, with the case mapping given as a character map. */
  function Lowered(s: string, lower: char -> char): (r: string)
    ensures |r| == |s|
    ensures forall k | 0 <= k < |s| :: r[k] == lower(s[k])
  {
    seq(|s|, k requires 0 <= k < |s| => lower(s[k]))
  }

  /** The textbook recursive edit distance: the cheapest of deleting the
      last character of `x`, inserting the last character of `y`, or
      matching the two last characters (free when they are equal). */
  function Lev(x: string, y: string): nat
    decreases |x| + |y|
  {
    if |x| == 0 then |y|
    else if |y| == 0 then |x|
    else
      var cost := if x[|x| - 1] == y[|y| - 1] then 0 else 1;
      MinInt(MinInt(Lev(x[..|x| - 1], y) + 1, Lev(x, y[..|y| - 1]) + 1),
             Lev(x[..|x| - 1], y[..|y| - 1]) + cost)
  }

  /** The distance is at least the difference of the lengths. */
  lemma {:induction false} LevLowerBound(x: string, y: string)
    ensures Lev(x, y) >= |x| - |y| && Lev(x, y) >= |y| - |x|
    decreases |x| + |y|
  {
    if |x| > 0 && |y| > 0 {
      LevLowerBound(x[..|x| - 1], y);
      LevLowerBound(x, y[..|y| - 1]);
      LevLowerBound(x[..|x| - 1], y[..|y| - 1]);
    }
  }

  /** The distance is symmetric. */
  lemma {:induction false} LevSymmetric(x: string, y: string)
    ensures Lev(x, y) == Lev(y, x)
    decreases |x| + |y|
  {
    if |x| > 0 && |y| > 0 {
      LevSymmetric(x[..|x| - 1], y);
      LevSymmetric(x, y[..|y| - 1]);
      LevSymmetric(x[..|x| - 1], y[..|y| - 1]);
    }
  }

  /** Dropping the last character of the second string changes the
      distance by at most one. */
  lemma {:induction false} LevDropLast(x: string, y: string)
    requires |y| > 0
    ensures Lev(x, y[..|y| - 1]) <= Lev(x, y) + 1
    decreases |x| + |y|
  {
    var y' := y[..|y| - 1];
    if |x| > 0 {
      if |y'| == 0 {
        LevLowerBound(x, y);
      } else {
        var x' := x[..|x| - 1];
        LevDropLast(x', y);
        assert Lev(x, y') <= Lev(x', y') + 1;
      }
    }
  }

  /** When the last characters are equal, the match is never beaten: this
      is the short cut the single-row programme takes. */
  lemma LevEqualLast(x: string, y: string)
    requires |x| > 0 && |y| > 0 && x[|x| - 1] == y[|y| - 1]
    ensures Lev(x, y) == Lev(x[..|x| - 1], y[..|y| - 1])
  {
    var x', y' := x[..|x| - 1], y[..|y| - 1];
    LevDropLast(x', y);
    LevDropLast(y', x);
    LevSymmetric(x, y');
    LevSymmetric(y', x');
  }

  /** The distance between the first `i` characters of `a` and the first
      `k` characters of `b`: one cell of the dynamic programme. */
  function Cell(a: string, b: string, i: nat, k: nat): nat
    requires i <= |a| && k <= |b|
  {
    Lev(a[..i], b[..k])
  }

  /** The edges of the table: row 0 counts insertions, column 0 deletions. */
  lemma CellEdges(a: string, b: string, i: nat, k: nat)
    requires i <= |a| && k <= |b|
    ensures Cell(a, b, 0, k) == k && Cell(a, b, i, 0) == i
  {
    assert a[..0] == [] && b[..0] == [];
  }

  /** The recurrence the single-row programme computes, cell by cell: a
      match copies the diagonal, a mismatch adds one to the cheapest
      neighbour. */
  lemma CellStep(a: string, b: string, i: nat, j: nat)
    requires 1 <= i <= |a| && 1 <= j <= |b|
    ensures Cell(a, b, i, j) ==
      if a[i - 1] == b[j - 1] then Cell(a, b, i - 1, j - 1)
      else MinInt(MinInt(Cell(a, b, i - 1, j - 1), Cell(a, b, i, j - 1)), Cell(a, b, i - 1, j)) + 1
  {
    var x, y := a[..i], b[..j];
    assert x[..i - 1] == a[..i - 1] && y[..j - 1] == b[..j - 1];
    assert x[i - 1] == a[i - 1] && y[j - 1] == b[j - 1];
    if a[i - 1] == b[j - 1] {
      LevEqualLast(x, y);
    }
  }

  /** `levenshteinDistance(s1, s2)`: one row of costs, overwritten in place
      as each character of `s1` is consumed. The result is the edit
      distance of the lower-cased strings. */
  method LevenshteinDistance(s1: string, s2: string, lower: char -> char) returns (d: nat)
    ensures d == Lev(Lowered(s1, lower), Lowered(s2, lower))
  {
    var a := Lowered(s1, lower);
    var b := Lowered(s2, lower);
    var n := |b|;
    var costs := new nat[n + 1];
    var i := 0;
    while i <= |a|
      invariant 0 <= i <= |a| + 1
      invariant i > 0 ==> forall k | 0 <= k <= n :: costs[k] == Cell(a, b, i - 1, k)
    {
      FillRow(costs, a, b, i);
      i := i + 1;
    }
    assert a[..|a|] == a && b[..n] == b;
    d := costs[n];
  }

  /** One pass of the inner loop: row `i` of the table replaces row
      `i - 1` (row 0 is written from scratch); `lastValue` carries the cell
      to the left. */
  method FillRow(costs: array<nat>, a: string, b: string, i: nat)
    requires costs.Length == |b| + 1 && i <= |a|
    requires i > 0 ==> forall k | 0 <= k <= |b| :: costs[k] == Cell(a, b, i - 1, k)
    modifies costs
    ensures forall k | 0 <= k <= |b| :: costs[k] == Cell(a, b, i, k)
  {
    var n := |b|;
    var lastValue: nat := i;
    var j := 0;
    while j <= n
      invariant 0 <= j <= n + 1
      invariant i == 0 ==> forall k | 0 <= k < j :: costs[k] == k
      invariant i > 0 ==> lastValue == Cell(a, b, i, if j == 0 then 0 else j - 1)
      invariant i > 0 ==> forall k | 0 <= k < (if j == 0 then 0 else j - 1) :: costs[k] == Cell(a, b, i, k)
      invariant i > 0 ==> forall k | (if j == 0 then 0 else j - 1) <= k <= n :: costs[k] == Cell(a, b, i - 1, k)
    {
      if i == 0 {
        costs[j] := j;
      } else if j > 0 {
        var newValue := costs[j - 1];
        if a[i - 1] != b[j - 1] {
          newValue := MinInt(MinInt(newValue, lastValue), costs[j]) + 1;
        }
        CellStep(a, b, i, j);
        costs[j - 1] := lastValue;
        lastValue := newValue;
      } else {
        CellEdges(a, b, i, 0);
      }
      j := j + 1;
    }
    if i > 0 {
      costs[n] := lastValue;
    } else {
      forall k | 0 <= k <= n ensures costs[k] == Cell(a, b, 0, k) {
        CellEdges(a, b, 0, k);
      }
    }
  }

  /** A string is at distance 0 from itself ... */
  lemma {:induction false} LevSelf(s: string)
    ensures Lev(s, s) == 0
  {
    if |s| > 0 {
      LevEqualLast(s, s);
      LevSelf(s[..|s| - 1]);
    }
  }

  /** ... and only from itself. */
  lemma {:induction false} LevZeroOnlySelf(x: string, y: string)
    requires Lev(x, y) == 0
    ensures x == y
    decreases |x| + |y|
  {
    if |x| > 0 && |y| > 0 {
      var x', y' := x[..|x| - 1], y[..|y| - 1];
      LevZeroOnlySelf(x', y');
      assert x == x' + [x[|x| - 1]] && y == y' + [y[|y| - 1]];
    }
  }

  /** From the empty string the distance is the other string's length. */
  lemma LevFromEmpty(t: string)
    ensures Lev("", t) == |t| && Lev(t, "") == |t|
  {
  }

  // ---------------------------------------------------------------------
  // Interaction Quality Score

  /** The raw telemetry of one answer. */
  datatype InteractionLog = InteractionLog(recallLatency: real, answerFluency: real,
                                           totalCorrections: nat, attemptCount: int)

  /** The user's baseline latency (ms) and fluency. */
  datatype Baseline = Baseline(latency: real, fluency: real)

  const DefaultBaseline := Baseline(1500.0, 10.0)

  const WLatency: real := 0.30
  const WFluency: real := 0.20
  const WCorrections: real := 0.25
  const WAttempts: real := 0.25

  predicate ValidInput(log: InteractionLog, base: Baseline)
  {
    log.attemptCount >= 1 && base.latency > 0.0 && base.fluency > 0.0
  }

  function LatencyValue(log: InteractionLog, base: Baseline): real
    requires base.latency > 0.0
  {
    1.0 - MinReal(log.recallLatency / base.latency, 2.0) / 2.0
  }

  function FluencyValue(log: InteractionLog, base: Baseline): real
    requires base.fluency > 0.0
  {
    MinReal(log.answerFluency / base.fluency, 1.5) / 1.5
  }

  function CorrectionsValue(log: InteractionLog): real
  {
    1.0 / (1 + log.totalCorrections) as real
  }

  function AttemptsValue(log: InteractionLog): real
    requires log.attemptCount >= 1
  {
    1.0 / log.attemptCount as real
  }

  /** The weighted sum before clamping. */
  function RawIqs(log: InteractionLog, base: Baseline): real
    requires ValidInput(log, base)
  {
    WLatency * LatencyValue(log, base) + WFluency * FluencyValue(log, base)
    + WCorrections * CorrectionsValue(log) + WAttempts * AttemptsValue(log)
  }

  /** `calculateIQS`: the weighted sum clamped to [0, 1]. */
  function Iqs(log: InteractionLog, base: Baseline): (r: real)
    requires ValidInput(log, base)
    ensures 0.0 <= r <= 1.0
  {
    Clamp(0.0, 1.0, RawIqs(log, base))
  }

  /** With non-negative latency and fluency every sub-score lies in [0, 1],
      the weights sum to 1, and so the clamp never changes the value. */
  lemma IqsUnclamped(log: InteractionLog, base: Baseline)
    requires ValidInput(log, base)
    requires log.recallLatency >= 0.0 && log.answerFluency >= 0.0
    ensures 0.0 <= LatencyValue(log, base) <= 1.0
    ensures 0.0 <= FluencyValue(log, base) <= 1.0
    ensures 0.0 < CorrectionsValue(log) <= 1.0
    ensures 0.0 < AttemptsValue(log) <= 1.0
    ensures WLatency + WFluency + WCorrections + WAttempts == 1.0
    ensures Iqs(log, base) == RawIqs(log, base)
  {
    assert log.recallLatency / base.latency >= 0.0;
    assert log.answerFluency / base.fluency >= 0.0;
  }

  /** At the baseline latency and fluency, with no corrections and one
      attempt, the score is 0.15 + 0.20 * 2/3 + 0.25 + 0.25 = 47/60: the
      fluency term is capped at 1.5 times the baseline, so the baseline
      itself earns only two thirds of it. */
  lemma IqsAtBaseline(base: Baseline)
    requires base.latency > 0.0 && base.fluency > 0.0
    ensures Iqs(InteractionLog(base.latency, base.fluency, 0, 1), base) == 47.0 / 60.0
  {
    var log := InteractionLog(base.latency, base.fluency, 0, 1);
    assert log.recallLatency / base.latency == 1.0;
    assert log.answerFluency / base.fluency == 1.0;
    assert LatencyValue(log, base) == 0.5;
    assert FluencyValue(log, base) == 2.0 / 3.0;
  }

  /** A latency of twice the baseline or more earns no latency credit; a
      fluency of 1.5 times the baseline or more earns the full 0.20. */
  lemma IqsCaps(log: InteractionLog, base: Baseline)
    requires ValidInput(log, base)
    ensures log.recallLatency >= 2.0 * base.latency ==> LatencyValue(log, base) == 0.0
    ensures log.answerFluency >= 1.5 * base.fluency ==> WFluency * FluencyValue(log, base) == 0.20
  {
    if log.recallLatency >= 2.0 * base.latency {
      DivAtLeast(log.recallLatency, base.latency, 2.0);
    }
    if log.answerFluency >= 1.5 * base.fluency {
      DivAtLeast(log.answerFluency, base.fluency, 1.5);
    }
  }

  lemma DivAtLeast(x: real, y: real, c: real)
    requires y > 0.0 && x >= c * y
    ensures x / y >= c
  {
    assert x / y * y == x;
  }

  lemma DivMonotone(x1: real, x2: real, y: real)
    requires y > 0.0 && x1 <= x2
    ensures x1 / y <= x2 / y
  {
    assert x2 / y - x1 / y == (x2 - x1) / y;
  }

  lemma RecipAntitone(a: real, b: real)
    requires 0.0 < a <= b
    ensures 1.0 / b <= 1.0 / a
  {
    assert 1.0 / b * b == 1.0;
    assert 1.0 / a * a == 1.0;
    assert 1.0 / a - 1.0 / b == (b - a) / (a * b);
  }

  lemma ClampMonotone(x: real, y: real)
    requires x <= y
    ensures Clamp(0.0, 1.0, x) <= Clamp(0.0, 1.0, y)
  {
  }

  /** More attempts, more corrections or a slower answer never raise the
      score. */
  lemma IqsAntitone(log1: InteractionLog, log2: InteractionLog, base: Baseline)
    requires ValidInput(log1, base) && ValidInput(log2, base)
    requires log1.answerFluency == log2.answerFluency
    requires log1.recallLatency <= log2.recallLatency
    requires log1.totalCorrections <= log2.totalCorrections
    requires log1.attemptCount <= log2.attemptCount
    ensures Iqs(log2, base) <= Iqs(log1, base)
  {
    DivMonotone(log1.recallLatency, log2.recallLatency, base.latency);
    assert LatencyValue(log2, base) <= LatencyValue(log1, base);
    RecipAntitone((1 + log1.totalCorrections) as real, (1 + log2.totalCorrections) as real);
    RecipAntitone(log1.attemptCount as real, log2.attemptCount as real);
    assert RawIqs(log2, base) <= RawIqs(log1, base);
    ClampMonotone(RawIqs(log2, base), RawIqs(log1, base));
  }

  // ---------------------------------------------------------------------
  // Bucket names, durations

  /** `getBucketName`: "Learning" for bucket 0 (checked first), "Mastered"
      for the last bucket, "Bucket n" (one-based) otherwise. */
  function BucketName(index: nat, maxBuckets: int): (name: string)
    ensures index == 0 ==> name == "Learning"
    ensures index != 0 && index == maxBuckets - 1 ==> name == "Mastered"
    ensures index != 0 && index != maxBuckets - 1 ==> |name| > 7 && name[..7] == "Bucket "
  {
    if index == 0 then "Learning"
    else if index == maxBuckets - 1 then "Mastered"
    else "Bucket " + NatToString(index + 1)
  }

  /** Different buckets always get different names, and the first and
      last bucket get the fixed names. */
  lemma BucketNamesDistinct(i: nat, j: nat, maxBuckets: int)
    requires i != j
    ensures BucketName(i, maxBuckets) != BucketName(j, maxBuckets)
    ensures BucketName(0, maxBuckets) == "Learning"
    ensures maxBuckets >= 2 ==> BucketName(maxBuckets - 1, maxBuckets) == "Mastered"
  {
    var ni, nj := BucketName(i, maxBuckets), BucketName(j, maxBuckets);
    if i != 0 && i != maxBuckets - 1 && j != 0 && j != maxBuckets - 1 {
      if ni == nj {
        assert NatToString(i + 1) == ni[7..] && NatToString(j + 1) == nj[7..];
        NatToStringInjective(i + 1, j + 1);
      }
    } else if i != 0 && i != maxBuckets - 1 {
      assert ni[0] == 'B' && (nj[0] == 'L' || nj[0] == 'M');
    } else if j != 0 && j != maxBuckets - 1 {
      assert nj[0] == 'B' && (ni[0] == 'L' || ni[0] == 'M');
    }
  }

  /** Whole hours and leftover whole minutes of a duration in seconds. */
  function HoursMinutes(seconds: nat): (hm: (nat, nat))
    ensures hm.1 < 60
    ensures hm.0 * 3600 + hm.1 * 60 <= seconds < hm.0 * 3600 + hm.1 * 60 + 60
  {
    (seconds / 3600, (seconds % 3600) / 60)
  }

  /** `formatDuration`: under a minute the number itself and "s" (a
      fraction or a minus sign included, so 1.5 gives "1.5s"); under an hour
      the whole minutes and "m"; otherwise the whole hours and the leftover
      whole minutes, "Hh Mm". The duration is a JavaScript number in its
      printed decimal form. */
  function FormatDuration(seconds: Decimal): (r: string)
    requires ValidDecimal(seconds)
    ensures |r| >= 2 && (r[|r| - 1] == 's' || r[|r| - 1] == 'm')
  {
    var x := Value(seconds);
    if x < 60.0 then NumberText(seconds) + "s" else LongDuration(x)
  }

  /** A duration of a minute or more: whole minutes, or hours and the minutes left over. */
  function LongDuration(x: real): (r: string)
    requires x >= 60.0
    ensures |r| >= 2 && r[|r| - 1] == 'm'
  {
    if x < 3600.0 then MinutesText((x / 60.0).Floor)
    else
      var hours := (x / 3600.0).Floor;
      HoursText(hours, ((x - hours as real * 3600.0) / 60.0).Floor)
  }

  /** `${minutes}m` */
  function MinutesText(minutes: nat): (r: string)
    ensures |r| >= 2 && r[|r| - 1] == 'm'
  {
    NatToString(minutes) + "m"
  }

  /** `${hours}h ${minutes}m` */
  function HoursText(hours: nat, minutes: nat): (r: string)
    ensures |r| >= 2 && r[|r| - 1] == 'm'
  {
    NatToString(hours) + "h " + MinutesText(minutes)
  }

  /** Dividing a non-negative number by 60 or 3600 and flooring is integer
      division of its floor. */
  lemma FloorOver(x: real)
    requires 0.0 <= x
    ensures (x / 60.0).Floor == x.Floor / 60
    ensures (x / 3600.0).Floor == x.Floor / 3600
  {
    var w := x.Floor;
    assert (w / 60) * 60 <= w < (w / 60) * 60 + 60;
    assert (w / 3600) * 3600 <= w < (w / 3600) * 3600 + 3600;
  }

  /** The text of a duration of at least a minute, from its whole
      seconds with integer arithmetic: the whole minutes under an hour,
      otherwise the `HoursMinutes` split. */
  function WholeDuration(n: nat): string
  {
    if n < 3600 then MinutesText(n / 60) else HoursText(HoursMinutes(n).0, HoursMinutes(n).1)
  }

  /** From a minute on, only the whole seconds matter, and the floors of the
      source are integer divisions of them. */
  lemma FormatAboveMinute(d: Decimal)
    requires ValidDecimal(d) && Value(d) >= 60.0
    ensures FormatDuration(d) == WholeDuration(d.whole)
  {
    assert !d.negative;
    LongWhole(Value(d));
  }

  /** `LongDuration` depends only on the whole seconds. */
  lemma LongWhole(x: real)
    requires x >= 60.0
    ensures LongDuration(x) == WholeDuration(x.Floor)
  {
    FloorOver(x);
    if x >= 3600.0 {
      HoursSplit(x);
    }
  }

  /** The hours and the minutes of a real duration are those of its whole seconds. */
  lemma HoursSplit(x: real)
    requires x >= 3600.0
    ensures (x / 3600.0).Floor == x.Floor / 3600
    ensures ((x - (x / 3600.0).Floor as real * 3600.0) / 60.0).Floor == (x.Floor % 3600) / 60
  {
    var w := x.Floor;
    FloorOver(x);
    var h := (x / 3600.0).Floor;
    var y := x - h as real * 3600.0;
    assert y.Floor == w - h * 3600;
    FloorOver(y);
  }

  /** A whole number of seconds is formatted with integer arithmetic:
      itself under a minute, otherwise `WholeDuration`. */
  lemma WholeSeconds(n: nat)
    ensures FormatDuration(Decimal(false, n, "")) ==
      if n < 60 then NatToString(n) + "s" else WholeDuration(n)
  {
    var d := Decimal(false, n, "");
    assert Value(d) == n as real;
    if n >= 60 {
      FormatAboveMinute(d);
    }
  }

  /** The fraction of a second shows only under a minute: from a minute on
      the text is that of the whole seconds. */
  lemma FractionShownUnderAMinute(d: Decimal)
    requires ValidDecimal(d) && Value(d) >= 60.0
    ensures FormatDuration(d) == FormatDuration(Decimal(false, d.whole, ""))
  {
    FormatAboveMinute(d);
    assert d.whole >= 60;
    WholeSeconds(d.whole);
  }

  /** The unit letter at the end says which form was chosen: "s" exactly
      under a minute, where the text is the number as JavaScript prints it;
      the hour form has at least one whole hour. */
  lemma FormatDurationForms(d: Decimal)
    requires ValidDecimal(d)
    ensures var r := FormatDuration(d);
      |r| >= 2 && (r[|r| - 1] == 's' <==> Value(d) < 60.0)
    ensures Value(d) < 60.0 ==> FormatDuration(d) == NumberText(d) + "s"
    ensures Value(d) >= 3600.0 ==> (Value(d) / 3600.0).Floor >= 1
  {
  }

  /** A negative duration is printed with its sign. */
  lemma NegativeDuration(d: Decimal)
    requires ValidDecimal(d) && Value(d) < 0.0
    ensures FormatDuration(d)[0] == '-'
  {
  }

  // ---------------------------------------------------------------------
  // Chunking and shuffling

  function Flatten<T>(chunks: seq<seq<T>>): seq<T>
  {
    if |chunks| == 0 then [] else Flatten(chunks[..|chunks| - 1]) + chunks[|chunks| - 1]
  }

  /** `chunkArray(array, size)`: consecutive slices of `size` elements, the
      last one possibly shorter. A size of zero or less never finishes in
      the source, hence the precondition. */
  method ChunkArray<T>(a: seq<T>, size: int) returns (chunks: seq<seq<T>>)
    requires size > 0
    ensures Flatten(chunks) == a
    ensures forall k | 0 <= k < |chunks| - 1 :: |chunks[k]| == size
    ensures |chunks| > 0 ==> 1 <= |chunks[|chunks| - 1]| <= size
  {
    chunks := [];
    var i := 0;
    while i < |a|
      invariant 0 <= i
      invariant Flatten(chunks) == a[..MinInt(i, |a|)]
      invariant forall k | 0 <= k < |chunks| - 1 :: |chunks[k]| == size
      invariant |chunks| > 0 ==> 1 <= |chunks[|chunks| - 1]| <= size
      invariant |chunks| > 0 && i < |a| ==> |chunks[|chunks| - 1]| == size
    {
      var end := MinInt(i + size, |a|);
      var piece := a[i..end];
      FlattenSnoc(chunks, piece);
      assert a[..end] == a[..i] + piece;
      chunks := chunks + [piece];
      i := i + size;
    }
    assert a[..|a|] == a;
  }

  lemma FlattenSnoc<T>(chunks: seq<seq<T>>, c: seq<T>)
    ensures Flatten(chunks + [c]) == Flatten(chunks) + c
  {
    assert (chunks + [c])[..|chunks|] == chunks;
  }

  /** A caller-supplied source of `Math.random()` values: at least one draw
      per swap, each in [0, 1). */
  predicate ValidDraws(draws: seq<real>, n: nat)
  {
    |draws| + 1 >= n && forall k | 0 <= k < |draws| :: 0.0 <= draws[k] < 1.0
  }

  lemma FloorScaled(r: real, n: nat)
    requires 0.0 <= r < 1.0 && n >= 1
    ensures 0 <= (r * n as real).Floor < n
  {
    assert 0.0 <= r * n as real < n as real;
  }

  /** `Math.floor(draw * n)`: an index below `n`. */
  method RandomIndex(draw: real, n: nat) returns (j: nat)
    requires 0.0 <= draw < 1.0 && n >= 1
    ensures j < n && j == (draw * n as real).Floor
  {
    FloorScaled(draw, n);
    j := (draw * n as real).Floor;
  }

  /** Exchanging two positions keeps the multiset of elements. */
  lemma SwapPermutes<T>(s: seq<T>, i: nat, j: nat)
    requires i < |s| && j < |s|
    ensures multiset(s[i := s[j]][j := s[i]]) == multiset(s)
  {
    if i != j {
      calc {
        multiset(s[i := s[j]][j := s[i]]);
        multiset(s[i := s[j]]) - multiset{s[i := s[j]][j]} + multiset{s[i]};
        multiset(s) - multiset{s[i]} + multiset{s[j]} - multiset{s[j]} + multiset{s[i]};
        multiset(s);
      }
    }
  }

  /** `[a[i], a[j]] = [a[j], a[i]]` on an array: the elements are kept. */
  method Swap<T>(arr: array<T>, i: nat, j: nat)
    requires i < arr.Length && j < arr.Length
    modifies arr
    ensures arr[..] == old(arr[..])[i := old(arr[j])][j := old(arr[i])]
    ensures multiset(arr[..]) == multiset(old(arr[..]))
  {
    ghost var before := arr[..];
    arr[i], arr[j] := arr[j], arr[i];
    assert arr[..] == before[i := before[j]][j := before[i]];
    SwapPermutes(before, i, j);
  }

  /** `shuffleArray`: Fisher-Yates on a copy; step `i` (from the top down)
      swaps position `i` with `floor(draw * (i + 1))`. The argument is not
      modified and the result is a permutation of it. */
  method ShuffleArray<T>(a: seq<T>, draws: seq<real>) returns (r: seq<T>)
    requires ValidDraws(draws, |a|)
    ensures |r| == |a|
    ensures multiset(r) == multiset(a)
  {
    var newArray := new T[|a|](k requires 0 <= k < |a| => a[k]);
    var n := |a|;
    var i := n - 1;
    assert newArray[..] == a;
    while i > 0
      invariant -1 <= i < n
      invariant newArray.Length == n
      invariant multiset(newArray[..]) == multiset(a)
    {
      var j := RandomIndex(draws[n - 1 - i], i + 1);
      Swap(newArray, i, j);
      i := i - 1;
    }
    r := newArray[..];
  }
}
