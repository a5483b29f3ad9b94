/**
 * The progress metrics of TPlanner: volume, average RPE, the progressive
 * overload index, one-repetition-maximum estimates, the stagnation signal and
 * the per-category and per-exercise aggregations. Arithmetic is on exact reals.
 */
module ProgressCalculator {
  import opened KotlinText
  import opened Entities

  // ---------------------------------------------------------------------------
  // Volume

  /** Volume of one record: weight × reps × sets. */
  function CalculateVolume(record: PerformanceRecord): (volume: real)
    ensures record.sets == 1 ==> volume == record.weight * record.reps as real
    ensures record.weight >= 0.0 && record.reps >= 0 && record.sets >= 0 ==> volume >= 0.0
  {
    ProductFacts(record.weight, record.reps as real, record.sets as real);
    record.weight * record.reps as real * record.sets as real
  }

  lemma ProductFacts(a: real, b: real, c: real)
    ensures c == 1.0 ==> a * b * c == a * b
    ensures a >= 0.0 && b >= 0.0 && c >= 0.0 ==> a * b * c >= 0.0
  {
    if a >= 0.0 && b >= 0.0 && c >= 0.0 {
      assert a * b >= 0.0;
    }
  }

  /** The sum of the records' volumes, 0 for no records. */
  function CalculateTotalVolume(records: seq<PerformanceRecord>): (total: real)
    ensures (forall k :: 0 <= k < |records| ==> CalculateVolume(records[k]) >= 0.0) ==> total >= 0.0
  {
    if |records| == 0 then 0.0
    else CalculateTotalVolume(records[..|records| - 1]) + CalculateVolume(records[|records| - 1])
  }

  /** Total volume adds up over consecutive stretches of records. */
  lemma {:induction false} TotalVolumeAppend(a: seq<PerformanceRecord>, b: seq<PerformanceRecord>)
    ensures CalculateTotalVolume(a + b) == CalculateTotalVolume(a) + CalculateTotalVolume(b)
  {
    if |b| > 0 {
      assert (a + b)[..|a + b| - 1] == a + b[..|b| - 1];
      TotalVolumeAppend(a, b[..|b| - 1]);
    } else {
      assert a + b == a;
    }
  }

  /** 100 kg × 10 reps × 4 sets is 4000. */
  lemma VolumeExample(record: PerformanceRecord)
    requires record.weight == 100.0 && record.reps == 10 && record.sets == 4
    ensures CalculateVolume(record) == 4000.0
  {
  }

  // ---------------------------------------------------------------------------
  // Average RPE

  function SumRpe(records: seq<PerformanceRecord>): int {
    if |records| == 0 then 0 else SumRpe(records[..|records| - 1]) + records[|records| - 1].rpe
  }

  function MinRpe(records: seq<PerformanceRecord>): int
    requires |records| > 0
  {
    if |records| == 1 then records[0].rpe
    else
      var m := MinRpe(records[..|records| - 1]);
      if records[|records| - 1].rpe < m then records[|records| - 1].rpe else m
  }

  function MaxRpe(records: seq<PerformanceRecord>): int
    requires |records| > 0
  {
    if |records| == 1 then records[0].rpe
    else
      var m := MaxRpe(records[..|records| - 1]);
      if records[|records| - 1].rpe > m then records[|records| - 1].rpe else m
  }

  lemma SumRpeBounds(records: seq<PerformanceRecord>)
    requires |records| > 0
    ensures |records| * MinRpe(records) <= SumRpe(records) <= |records| * MaxRpe(records)
  {
    SumRpeAtLeast(records);
    SumRpeAtMost(records);
  }

  lemma {:induction false} SumRpeAtLeast(records: seq<PerformanceRecord>)
    requires |records| > 0
    ensures |records| * MinRpe(records) <= SumRpe(records)
  {
    if |records| > 1 {
      var init, last := records[..|records| - 1], records[|records| - 1];
      var low := MinRpe(records);
      SumRpeAtLeast(init);
      MulMonotone(|init|, low, MinRpe(init));
      MulSucc(|init|, low);
      assert low <= last.rpe;
    }
  }

  lemma {:induction false} SumRpeAtMost(records: seq<PerformanceRecord>)
    requires |records| > 0
    ensures SumRpe(records) <= |records| * MaxRpe(records)
  {
    if |records| > 1 {
      var init, last := records[..|records| - 1], records[|records| - 1];
      var high := MaxRpe(records);
      SumRpeAtMost(init);
      MulMonotone(|init|, MaxRpe(init), high);
      MulSucc(|init|, high);
      assert last.rpe <= high;
    }
  }

  lemma MulMonotone(n: nat, a: int, b: int)
    requires a <= b
    ensures n * a <= n * b
  {
  }

  lemma MulSucc(n: nat, a: int)
    ensures (n + 1) * a == n * a + a
  {
  }

  /** The arithmetic mean of the records' RPE values, 0 for no records. */
  function CalculateAverageRpe(records: seq<PerformanceRecord>): (average: real)
    ensures |records| == 0 ==> average == 0.0
    ensures |records| > 0 ==> MinRpe(records) as real <= average <= MaxRpe(records) as real
    ensures |records| > 0 ==> average * |records| as real == SumRpe(records) as real
  {
    if |records| == 0 then 0.0
    else
      var n := |records| as real;
      var sum := SumRpe(records) as real;
      SumRpeBounds(records);
      assert n * MinRpe(records) as real <= sum <= n * MaxRpe(records) as real;
      DivBounds(sum, n, MinRpe(records) as real, MaxRpe(records) as real);
      sum / n
  }

  lemma DivBounds(sum: real, n: real, lo: real, hi: real)
    requires n > 0.0 && n * lo <= sum <= n * hi
    ensures lo <= sum / n <= hi
  {
    var q := sum / n;
    assert q * n == sum;
    assert (q - lo) * n >= 0.0;
    assert (hi - q) * n >= 0.0;
  }

  /** RPE 8, 9 and 7 average to 8. */
  lemma AverageRpeExample(records: seq<PerformanceRecord>)
    requires |records| == 3 && records[0].rpe == 8 && records[1].rpe == 9 && records[2].rpe == 7
    ensures CalculateAverageRpe(records) == 8.0
  {
    assert records[..2][..1] == records[..1] && records[..1][..0] == [];
    assert SumRpe(records[..1]) == 8;
    assert SumRpe(records[..2]) == 17;
  }

  // ---------------------------------------------------------------------------
  // Progressive overload index

  /** `sumOf { it.totalVolume }` over sessions. */
  function SessionVolume(sessions: seq<SessionHistory>): (volume: real)
    ensures (forall k :: 0 <= k < |sessions| ==> sessions[k].totalVolume >= 0.0) ==> volume >= 0.0
    ensures (forall k :: 0 <= k < |sessions| ==> sessions[k].totalVolume <= 0.0) ==> volume <= 0.0
  {
    if |sessions| == 0 then 0.0
    else SessionVolume(sessions[..|sessions| - 1]) + sessions[|sessions| - 1].totalVolume
  }

  /**
   * Percentage change of the current period's volume over the previous one's;
   * 0 when the previous period's volume is not positive.
   */
  function CalculateProgressiveOverloadIndex(currentWeekSessions: seq<SessionHistory>,
                                             previousWeekSessions: seq<SessionHistory>): (index: real)
    ensures SessionVolume(previousWeekSessions) <= 0.0 ==> index == 0.0
    ensures SessionVolume(previousWeekSessions) > 0.0 ==>
              SessionVolume(previousWeekSessions) * (1.0 + index / 100.0) == SessionVolume(currentWeekSessions)
  {
    var currentVolume := SessionVolume(currentWeekSessions);
    var previousVolume := SessionVolume(previousWeekSessions);
    if previousVolume > 0.0 then RatioFacts(currentVolume, previousVolume); (currentVolume / previousVolume - 1.0) * 100.0
    else 0.0
  }

  /** With a positive previous volume the index is positive, zero or negative exactly as the volume grew, held or fell. */
  lemma OverloadIndexSign(currentWeekSessions: seq<SessionHistory>, previousWeekSessions: seq<SessionHistory>)
    requires SessionVolume(previousWeekSessions) > 0.0
    ensures var index := CalculateProgressiveOverloadIndex(currentWeekSessions, previousWeekSessions);
            var current, previous := SessionVolume(currentWeekSessions), SessionVolume(previousWeekSessions);
            && (index > 0.0 <==> current > previous)
            && (index == 0.0 <==> current == previous)
            && (index < 0.0 <==> current < previous)
  {
    RatioFacts(SessionVolume(currentWeekSessions), SessionVolume(previousWeekSessions));
  }

  /** The percentage by which `after` exceeds a positive `before`, and what it says. */
  lemma RatioFacts(after: real, before: real)
    requires before > 0.0
    ensures var change := (after / before - 1.0) * 100.0;
            && before * (1.0 + change / 100.0) == after
            && (change > 0.0 <==> after > before)
            && (change == 0.0 <==> after == before)
            && (change < 0.0 <==> after < before)
            && change == ((after - before) / before) * 100.0
  {
    var q := after / before;
    assert q * before == after;
    var d := (after - before) / before;
    assert d * before == after - before;
    assert (q - 1.0) * before == after - before;
    CancelPositive(d, q - 1.0, before);
    if q > 1.0 { assert (q - 1.0) * before > 0.0; }
    if q < 1.0 { assert (1.0 - q) * before > 0.0; }
  }

  lemma CancelPositive(x: real, y: real, b: real)
    requires b > 0.0 && x * b == y * b
    ensures x == y
  {
    assert (x - y) * b == 0.0;
  }

  /** Sessions of 5000 and 4500 against 4500 and 4000: about 11.76 %. */
  lemma OverloadIndexExample(current: seq<SessionHistory>, previous: seq<SessionHistory>)
    requires |current| == 2 && current[0].totalVolume == 5000.0 && current[1].totalVolume == 4500.0
    requires |previous| == 2 && previous[0].totalVolume == 4500.0 && previous[1].totalVolume == 4000.0
    ensures CalculateProgressiveOverloadIndex(current, previous) == 200.0 / 17.0
    ensures 11.76 < CalculateProgressiveOverloadIndex(current, previous) < 11.77
  {
    assert current[..1][..0] == [] && previous[..1][..0] == [];
    assert SessionVolume(current[..1]) == 5000.0;
    assert SessionVolume(previous[..1]) == 4500.0;
  }

  // ---------------------------------------------------------------------------
  // One-repetition maximum

  /** Epley: weight × (1 + reps / 30). */
  function Estimate1RMEpley(weight: real, reps: int): (oneRepMax: real)
    ensures reps == 0 ==> oneRepMax == weight
    ensures weight >= 0.0 && reps >= 0 ==> oneRepMax >= weight
  {
    weight * (1.0 + reps as real / 30.0)
  }

  /** Brzycki: weight × 36 / (37 − reps), and the weight itself from 37 reps on. */
  function Estimate1RMBrzycki(weight: real, reps: int): (oneRepMax: real)
    ensures reps >= 37 ==> oneRepMax == weight
    ensures reps == 1 ==> oneRepMax == weight
    ensures weight >= 0.0 && 1 <= reps ==> oneRepMax >= weight
  {
    if reps >= 37 then weight
    else
      var d := 37.0 - reps as real;
      assert 1 <= reps ==> 36.0 / d >= 1.0;
      weight * (36.0 / d)
  }

  /** The two estimates coincide at ten repetitions: 4/3 of the weight (133.33… for 100). */
  lemma EpleyBrzyckiAgreeAtTenReps(weight: real)
    ensures Estimate1RMEpley(weight, 10) == weight * 4.0 / 3.0
    ensures Estimate1RMBrzycki(weight, 10) == weight * 4.0 / 3.0
  {
    assert 36.0 / 27.0 == 4.0 / 3.0;
  }

  // ---------------------------------------------------------------------------
  // Stagnation

  /** Percentage change from one volume to the next; 0 when the earlier volume is not positive. */
  function PercentChange(before: real, after: real): real {
    if before > 0.0 then ((after - before) / before) * 100.0 else 0.0
  }

  /** The volumes of the records, in order. */
  function Volumes(records: seq<PerformanceRecord>): (volumes: seq<real>)
    ensures |volumes| == |records|
    ensures forall i :: 0 <= i < |records| ==> volumes[i] == CalculateVolume(records[i])
  {
    seq(|records|, i requires 0 <= i < |records| => CalculateVolume(records[i]))
  }

  /** The sum of the changes between consecutive volumes among the first `n`. */
  function ChangeSum(volumes: seq<real>, n: nat): real
    requires 1 <= n <= |volumes|
  {
    if n == 1 then 0.0 else ChangeSum(volumes, n - 1) + PercentChange(volumes[n - 2], volumes[n - 1])
  }

  /**
   * At least four records, and the mean of the three changes between the
   * volumes of the last four records is below the threshold.
   */
  predicate IsStagnant(records: seq<PerformanceRecord>, threshold: real) {
    |records| >= 4 && ChangeSum(Volumes(records[|records| - 4..]), 4) / 3.0 < threshold
  }

  /** The threshold `detectStagnation` uses when none is given, in percent. */
  const DefaultStagnationThreshold: real := 3.0

  /** `detectStagnation`, as the source computes it: a loop over the last four volumes. */
  method DetectStagnation(records: seq<PerformanceRecord>, threshold: real) returns (stagnant: bool)
    ensures stagnant == IsStagnant(records, threshold)
  {
    if |records| < 4 {
      return false;
    }
    var recentRecords := records[|records| - 4..];
    var volumes := seq(|recentRecords|, i requires 0 <= i < |recentRecords| => CalculateVolume(recentRecords[i]));
    var totalChange := 0.0;
    for i := 1 to |volumes|
      invariant totalChange == ChangeSum(volumes, i)
    {
      var change := if volumes[i - 1] > 0.0 then ((volumes[i] - volumes[i - 1]) / volumes[i - 1]) * 100.0 else 0.0;
      totalChange := totalChange + change;
    }
    var averageChange := totalChange / (|volumes| - 1) as real;
    assert volumes == Volumes(recentRecords);
    stagnant := averageChange < threshold;
  }

  /** Records before the last four never change the verdict. */
  lemma StagnationIgnoresEarlierHistory(earlier: seq<PerformanceRecord>, recent: seq<PerformanceRecord>, threshold: real)
    requires |recent| >= 4
    ensures IsStagnant(earlier + recent, threshold) == IsStagnant(recent, threshold)
  {
    var all := earlier + recent;
    assert all[|all| - 4..] == recent[|recent| - 4..];
  }

  /** A higher threshold keeps a stagnant series stagnant. */
  lemma StagnationMonotoneInThreshold(records: seq<PerformanceRecord>, threshold: real, higher: real)
    requires threshold <= higher && IsStagnant(records, threshold)
    ensures IsStagnant(records, higher)
  {
  }

  /**
   * When each of the last three changes is at least the threshold the series
   * is not stagnant, and when each is below it, it is.
   */
  lemma {:induction false} StagnationFollowsEachChange(records: seq<PerformanceRecord>, threshold: real)
    requires |records| >= 4
    ensures var v := Volumes(records[|records| - 4..]);
            && ((forall i :: 1 <= i < 4 ==> PercentChange(v[i - 1], v[i]) >= threshold) ==> !IsStagnant(records, threshold))
            && ((forall i :: 1 <= i < 4 ==> PercentChange(v[i - 1], v[i]) < threshold) ==> IsStagnant(records, threshold))
  {
    var v := Volumes(records[|records| - 4..]);
    assert ChangeSum(v, 2) == PercentChange(v[0], v[1]);
    assert ChangeSum(v, 3) == ChangeSum(v, 2) + PercentChange(v[1], v[2]);
  }

  /** At the default threshold, 100, 101, 101.5, 102 kg at 10 reps is stagnant; 100, 105, 110, 115 kg is not. */
  lemma StagnationExamples(slow: seq<PerformanceRecord>, fast: seq<PerformanceRecord>)
    requires |slow| == 4 && forall i :: 0 <= i < 4 ==> slow[i].reps == 10 && slow[i].sets == 1
    requires slow[0].weight == 100.0 && slow[1].weight == 101.0 && slow[2].weight == 101.5 && slow[3].weight == 102.0
    requires |fast| == 4 && forall i :: 0 <= i < 4 ==> fast[i].reps == 10 && fast[i].sets == 1
    requires fast[0].weight == 100.0 && fast[1].weight == 105.0 && fast[2].weight == 110.0 && fast[3].weight == 115.0
    ensures IsStagnant(slow, DefaultStagnationThreshold)
    ensures !IsStagnant(fast, DefaultStagnationThreshold)
  {
    assert slow[|slow| - 4..] == slow && fast[|fast| - 4..] == fast;
    var s := Volumes(slow);
    assert s[0] == 1000.0 && s[1] == 1010.0 && s[2] == 1015.0 && s[3] == 1020.0;
    assert PercentChange(s[0], s[1]) == 1.0;
    assert PercentChange(s[1], s[2]) < 1.0;
    assert PercentChange(s[2], s[3]) < 1.0;
    StagnationFollowsEachChange(slow, DefaultStagnationThreshold);
    var f := Volumes(fast);
    assert f[0] == 1000.0 && f[1] == 1050.0 && f[2] == 1100.0 && f[3] == 1150.0;
    assert PercentChange(f[0], f[1]) == 5.0;
    assert PercentChange(f[1], f[2]) == 5000.0 / 1050.0;
    assert PercentChange(f[2], f[3]) == 5000.0 / 1100.0;
    StagnationFollowsEachChange(fast, DefaultStagnationThreshold);
  }

  // ---------------------------------------------------------------------------
  // Aggregations

  /** The categories that occur among the records. */
  function Categories(records: seq<PerformanceRecord>): set<string> {
    set i | 0 <= i < |records| :: records[i].category
  }

  /** The exercise names that occur among the records. */
  function ExerciseNames(records: seq<PerformanceRecord>): set<string> {
    set i | 0 <= i < |records| :: records[i].exerciseName
  }

  lemma CategoriesSnoc(records: seq<PerformanceRecord>)
    requires |records| > 0
    ensures Categories(records) == Categories(records[..|records| - 1]) + {records[|records| - 1].category}
  {
    var init := records[..|records| - 1];
    forall c | c in Categories(records)
      ensures c in Categories(init) + {records[|records| - 1].category}
    {
      var i :| 0 <= i < |records| && records[i].category == c;
      if i < |init| { assert init[i].category == c; }
    }
    forall c | c in Categories(init)
      ensures c in Categories(records)
    {
      var i :| 0 <= i < |init| && init[i].category == c;
      assert records[i].category == c;
    }
  }

  lemma ExerciseNamesSnoc(records: seq<PerformanceRecord>)
    requires |records| > 0
    ensures ExerciseNames(records) == ExerciseNames(records[..|records| - 1]) + {records[|records| - 1].exerciseName}
  {
    var init := records[..|records| - 1];
    forall c | c in ExerciseNames(records)
      ensures c in ExerciseNames(init) + {records[|records| - 1].exerciseName}
    {
      var i :| 0 <= i < |records| && records[i].exerciseName == c;
      if i < |init| { assert init[i].exerciseName == c; }
    }
    forall c | c in ExerciseNames(init)
      ensures c in ExerciseNames(records)
    {
      var i :| 0 <= i < |init| && init[i].exerciseName == c;
      assert records[i].exerciseName == c;
    }
  }

  /** The records of one category, in order. */
  function OfCategory(records: seq<PerformanceRecord>, category: string): seq<PerformanceRecord> {
    if |records| == 0 then []
    else
      var last := records[|records| - 1];
      OfCategory(records[..|records| - 1], category) + (if last.category == category then [last] else [])
  }

  lemma {:induction false} AbsentCategoryHasNoRecords(records: seq<PerformanceRecord>, category: string)
    ensures category !in Categories(records) ==> OfCategory(records, category) == []
  {
    if |records| > 0 && category !in Categories(records) {
      CategoriesSnoc(records);
      AbsentCategoryHasNoRecords(records[..|records| - 1], category);
    }
  }

  /** `groupBy { it.category }.mapValues { calculateTotalVolume(it) }`, folded record by record. */
  function CalculateVolumeByCategory(records: seq<PerformanceRecord>): (m: map<string, real>)
    ensures (forall k :: 0 <= k < |records| ==> CalculateVolume(records[k]) >= 0.0) ==>
              forall c :: c in m ==> m[c] >= 0.0
  {
    if |records| == 0 then map[]
    else
      var m := CalculateVolumeByCategory(records[..|records| - 1]);
      var last := records[|records| - 1];
      m[last.category := (if last.category in m then m[last.category] else 0.0) + CalculateVolume(last)]
  }

  /** There is one entry per category present and no other. */
  lemma {:induction false} VolumeByCategoryKeys(records: seq<PerformanceRecord>)
    ensures CalculateVolumeByCategory(records).Keys == Categories(records)
  {
    if |records| > 0 {
      VolumeByCategoryKeys(records[..|records| - 1]);
      CategoriesSnoc(records);
    }
  }

  /** The entry of a category is the total volume of exactly that category's records. */
  lemma {:induction false} VolumeByCategoryValue(records: seq<PerformanceRecord>, category: string)
    requires category in CalculateVolumeByCategory(records)
    ensures CalculateVolumeByCategory(records)[category] == CalculateTotalVolume(OfCategory(records, category))
  {
    var init := records[..|records| - 1];
    var last := records[|records| - 1];
    var m := CalculateVolumeByCategory(init);
    var before := OfCategory(init, category);
    if category in m {
      VolumeByCategoryValue(init, category);
    } else {
      VolumeByCategoryKeys(init);
      AbsentCategoryHasNoRecords(init, category);
    }
    if category == last.category {
      var s := before + [last];
      assert OfCategory(records, category) == s;
      assert s[..|s| - 1] == before && s[|s| - 1] == last;
    } else {
      assert OfCategory(records, category) == before + [] == before;
      assert CalculateVolumeByCategory(records)[category] == m[category];
    }
  }

  /** Sums of 1000 and 2000 for the legs, 800 for the chest. */
  lemma VolumeByCategoryExample(records: seq<PerformanceRecord>)
    requires |records| == 3 && forall i :: 0 <= i < 3 ==> records[i].reps == 10 && records[i].sets == 1
    requires records[0].weight == 100.0 && records[1].weight == 200.0 && records[2].weight == 80.0
    requires records[0].category == "Jambes" && records[1].category == "Jambes" && records[2].category == "Pecs"
    ensures CalculateVolumeByCategory(records) == map["Jambes" := 3000.0, "Pecs" := 800.0]
  {
    assert CalculateVolume(records[0]) == 1000.0 && CalculateVolume(records[1]) == 2000.0;
    assert CalculateVolume(records[2]) == 800.0;
    var p0, p1, p2 := records[..1], records[..2], records[..3];
    assert p0[..0] == [] && p1[..1] == p0 && p2[..2] == p1 && p2 == records;
    assert p0[0] == records[0] && p1[1] == records[1] && p2[2] == records[2];
    var m0 := CalculateVolumeByCategory(p0);
    assert CalculateVolumeByCategory(p0[..0]) == map[];
    assert m0 == map[]["Jambes" := 0.0 + 1000.0];
    var m1 := CalculateVolumeByCategory(p1);
    assert m1 == m0["Jambes" := 1000.0 + 2000.0];
    assert "Pecs" !in m1;
  }

  /**
   * `groupBy { it.exerciseName }.mapValues { it.maxByOrNull { r -> r.weight } }`,
   * folded record by record: a later record replaces the kept one only when it
   * is strictly heavier.
   */
  function FindPersonalRecords(records: seq<PerformanceRecord>): (m: map<string, PerformanceRecord>)
    ensures forall name :: name in m ==> m[name].exerciseName == name && m[name] in records
  {
    if |records| == 0 then map[]
    else
      var m := FindPersonalRecords(records[..|records| - 1]);
      var last := records[|records| - 1];
      if last.exerciseName in m && last.weight <= m[last.exerciseName].weight then m
      else m[last.exerciseName := last]
  }

  /**
   * `records[i]` is a record of `name` of greatest weight, and every record of
   * `name` before it is strictly lighter: the one `maxByOrNull` keeps.
   */
  ghost predicate IsFirstHeaviest(records: seq<PerformanceRecord>, name: string, i: int) {
    && 0 <= i < |records| && records[i].exerciseName == name
    && (forall j :: 0 <= j < |records| && records[j].exerciseName == name ==> records[j].weight <= records[i].weight)
    && (forall j :: 0 <= j < i && records[j].exerciseName == name ==> records[j].weight < records[i].weight)
  }

  /** There is one entry per exercise present and no other. */
  lemma {:induction false} PersonalRecordsKeys(records: seq<PerformanceRecord>)
    ensures FindPersonalRecords(records).Keys == ExerciseNames(records)
  {
    if |records| > 0 {
      PersonalRecordsKeys(records[..|records| - 1]);
      ExerciseNamesSnoc(records);
    }
  }

  /** The entry of an exercise is its heaviest record, the first one on a tie. */
  lemma {:induction false} PersonalRecordsValue(records: seq<PerformanceRecord>, name: string)
    requires name in FindPersonalRecords(records)
    ensures exists i :: IsFirstHeaviest(records, name, i) && FindPersonalRecords(records)[name] == records[i]
  {
    var init := records[..|records| - 1];
    var last := records[|records| - 1];
    var m := FindPersonalRecords(init);
    if name in m {
      PersonalRecordsValue(init, name);
      var i :| IsFirstHeaviest(init, name, i) && m[name] == init[i];
      if last.exerciseName == name && m[name].weight < last.weight {
        PersonalRecordReplaced(records, name, i);
        assert IsFirstHeaviest(records, name, |records| - 1);
      } else {
        PersonalRecordKept(records, name, i);
        assert records[i] == init[i];
      }
    } else {
      PersonalRecordsKeys(init);
      PersonalRecordFirst(records, name);
      assert IsFirstHeaviest(records, name, |records| - 1);
    }
  }

  /** A record that the next one does not outweigh stays the one kept. */
  lemma PersonalRecordKept(records: seq<PerformanceRecord>, name: string, i: int)
    requires |records| > 0 && IsFirstHeaviest(records[..|records| - 1], name, i)
    requires records[|records| - 1].exerciseName == name ==> records[|records| - 1].weight <= records[i].weight
    ensures IsFirstHeaviest(records, name, i)
  {
    assert forall j :: 0 <= j < |records| - 1 ==> records[j] == records[..|records| - 1][j];
  }

  /** A strictly heavier record replaces the one kept. */
  lemma PersonalRecordReplaced(records: seq<PerformanceRecord>, name: string, i: int)
    requires |records| > 0 && IsFirstHeaviest(records[..|records| - 1], name, i)
    requires records[|records| - 1].exerciseName == name && records[i].weight < records[|records| - 1].weight
    ensures IsFirstHeaviest(records, name, |records| - 1)
  {
    assert forall j :: 0 <= j < |records| - 1 ==> records[j] == records[..|records| - 1][j];
  }

  /** The first record of an exercise is the one kept so far. */
  lemma PersonalRecordFirst(records: seq<PerformanceRecord>, name: string)
    requires |records| > 0 && name !in ExerciseNames(records[..|records| - 1])
    requires records[|records| - 1].exerciseName == name
    ensures IsFirstHeaviest(records, name, |records| - 1)
  {
    var init := records[..|records| - 1];
    forall j | 0 <= j < |init|
      ensures records[j].exerciseName != name
    {
      assert records[j] == init[j];
    }
  }
}
