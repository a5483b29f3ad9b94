/**
 * The values behind the workout screen and the pure steps of its view model:
 * seeding an exercise card, the per-exercise update, the snapshot a validated
 * set keeps, `parseReps`, the performance records a finished workout stores
 * and the comparison with the previous session.
 */
module WorkoutState {
  import opened KotlinText
  import opened Entities
  import opened DummyData
  import opened ProgressCalculator

  /** One validated set, its fields kept as the text that was on screen. */
  datatype ValidatedSet = ValidatedSet(weight: string, rpe: string, reps: string, restTime: Option<string>)

  /** The numbers shown as "Dernière: …" on a card seeded from a stored record. */
  datatype LastPerformance = LastPerformance(weight: real, reps: int, rpe: int)

  /** One exercise card: its planned exercise, the editable fields and the sets validated so far. */
  datatype ExerciseState = ExerciseState(
    exercise: ProgramExercise,
    weight: string,
    rpe: string,
    reps: string,
    restTime: string,
    comment: string,
    validatedSets: seq<ValidatedSet>,
    lastPerformance: Option<LastPerformance>)

  /**
   * The closing summary line: the change over the previous session of the day
   * in percent, or only the session's total volume.
   */
  datatype VolumeComparison = ChangeFromPrevious(percent: real) | TotalOnly(volume: real)

  /** The state of the workout screen; `volumeComparison` is `None` until a workout is finished. */
  datatype WorkoutUiState = WorkoutUiState(
    day: string,
    exercises: seq<ExerciseState>,
    isLoading: bool,
    showSummaryDialog: bool,
    totalVolume: real,
    averageRpe: real,
    sessionId: Option<int>,
    volumeComparison: Option<VolumeComparison>)

  /** `WorkoutUiState()`: every field at its default. */
  function InitialUiState(): (s: WorkoutUiState)
    ensures s.exercises == [] && s.isLoading && !s.showSummaryDialog && s.sessionId.None?
  {
    WorkoutUiState("", [], true, false, 0.0, 0.0, None, None)
  }

  // ---------------------------------------------------------------------------
  // Seeding the cards

  /**
   * `ExerciseState(exercise)`: the editable fields start at the program's
   * targets, the rest time empty, and no set validated.
   */
  function NewExerciseState(e: ProgramExercise, rt: RealText): (es: ExerciseState)
    ensures es.exercise == e && es.reps == e.reps && es.validatedSets == [] && es.lastPerformance.None?
    ensures es.weight == rt.show(e.targetWeight) && es.rpe == ShowInt(e.targetRpe) && es.restTime == ""
    ensures e.comment.None? ==> es.comment == ""
    ensures e.comment.Some? ==> es.comment == e.comment.value
  {
    ExerciseState(e, rt.show(e.targetWeight), ShowInt(e.targetRpe), e.reps, "", e.comment.GetOr(""), [], None)
  }

  /**
   * The card `loadSession` builds for a planned exercise: weight, RPE and rest
   * time come from the exercise's last stored record when there is one, the
   * weight and RPE from the program's targets and the rest time empty
   * otherwise; the reps are always the program's.
   */
  function SeedExerciseState(e: ProgramExercise, last: Option<PerformanceRecord>, rt: RealText): (es: ExerciseState)
    ensures es.exercise == e && es.reps == e.reps && es.validatedSets == []
    ensures es.comment == e.comment.GetOr("")
    ensures last.None? ==> es == NewExerciseState(e, rt)
    ensures last.Some? ==> es.lastPerformance == Some(LastPerformance(last.value.weight, last.value.reps, last.value.rpe))
    ensures last.Some? ==> es.weight == rt.show(last.value.weight) && es.rpe == ShowInt(last.value.rpe)
    ensures last.Some? && last.value.restTime.Some? ==> es.restTime == ShowInt(last.value.restTime.value)
    ensures last.Some? && last.value.restTime.None? ==> es.restTime == ""
  {
    match last
    case None => NewExerciseState(e, rt)
    case Some(r) =>
      NewExerciseState(e, rt).(
        weight := rt.show(r.weight),
        rpe := ShowInt(r.rpe),
        restTime := if r.restTime.Some? then ShowInt(r.restTime.value) else "",
        lastPerformance := Some(LastPerformance(r.weight, r.reps, r.rpe)))
  }

  /** `getLastRecordForExercise(name)`, given as the map of each exercise's latest record. */
  function LastRecord(lastRecords: map<string, PerformanceRecord>, name: string): (last: Option<PerformanceRecord>)
    ensures last.None? <==> name !in lastRecords
    ensures last.Some? ==> last.value == lastRecords[name]
  {
    if name in lastRecords then Some(lastRecords[name]) else None
  }

  /** One seeded card per planned exercise, in the program's order. */
  function SeedExercises(program: seq<ProgramExercise>, lastRecords: map<string, PerformanceRecord>, rt: RealText)
    : (cards: seq<ExerciseState>)
    ensures |cards| == |program|
    ensures forall k :: 0 <= k < |program| ==>
              cards[k] == SeedExerciseState(program[k], LastRecord(lastRecords, program[k].name), rt)
  {
    seq(|program|, k requires 0 <= k < |program| => SeedExerciseState(program[k], LastRecord(lastRecords, program[k].name), rt))
  }

  /** The planned exercise made from a demonstration exercise; id and order index stay at 0. */
  function DemoProgramExercise(ex: Exercise): (e: ProgramExercise)
    ensures e.id == 0 && e.orderIndex == 0
    ensures e.name == ex.name && e.targetWeight == ex.weight && e.targetRpe == ex.rpe && e.reps == ex.reps
    ensures e.day == ex.day && e.sets == ex.sets && e.category == ex.category && e.comment == ex.comment
  {
    ProgramExercise(0, ex.day, ex.name, ex.sets, ex.reps, ex.weight, ex.rpe, ex.category, ex.comment, 0)
  }

  /** The cards of a demonstration day; weight and RPE are the demonstration values, which are also the targets. */
  function DemoExercises(exercises: seq<Exercise>, rt: RealText): (cards: seq<ExerciseState>)
    ensures |cards| == |exercises|
    ensures forall k :: 0 <= k < |exercises| ==> cards[k] == NewExerciseState(DemoProgramExercise(exercises[k]), rt)
  {
    seq(|exercises|, k requires 0 <= k < |exercises| => NewExerciseState(DemoProgramExercise(exercises[k]), rt))
  }

  /**
   * `loadFromDummyData`'s update: the cards of the demonstration day, when
   * there is one, no longer loading, with the given session; nothing changes
   * for a day without a demonstration program.
   */
  function WithDemoSession(s: WorkoutUiState, day: string, sessionId: Option<int>, rt: RealText): (t: WorkoutUiState)
    ensures FindSession(day).None? ==> t == s
    ensures FindSession(day).Some? ==>
              && t.day == day && !t.isLoading && t.sessionId == sessionId
              && t.exercises == DemoExercises(FindSession(day).value.exercises, rt)
              && t.(day := s.day, exercises := s.exercises, isLoading := s.isLoading, sessionId := s.sessionId) == s
  {
    var found := FindSession(day);
    if found.None? then s
    else s.(day := found.value.day, exercises := DemoExercises(found.value.exercises, rt), isLoading := false,
            sessionId := sessionId)
  }

  // ---------------------------------------------------------------------------
  // Editing the cards

  /** `updateExerciseState`: applies `action` to every card of exercise `name` and leaves the others as they are. */
  function UpdateExerciseState(cards: seq<ExerciseState>, name: string, action: ExerciseState -> ExerciseState)
    : (updated: seq<ExerciseState>)
    ensures |updated| == |cards|
    ensures forall k :: 0 <= k < |cards| && cards[k].exercise.name == name ==> updated[k] == action(cards[k])
    ensures forall k :: 0 <= k < |cards| && cards[k].exercise.name != name ==> updated[k] == cards[k]
  {
    seq(|cards|, k requires 0 <= k < |cards| => if cards[k].exercise.name == name then action(cards[k]) else cards[k])
  }

  /** `exercises.find { it.exercise.name == name }`: the first card of that exercise. */
  function FindExercise(cards: seq<ExerciseState>, name: string): (found: Option<nat>)
    ensures found.None? <==> forall k :: 0 <= k < |cards| ==> cards[k].exercise.name != name
    ensures found.Some? ==> found.value < |cards| && cards[found.value].exercise.name == name
                            && forall k :: 0 <= k < found.value ==> cards[k].exercise.name != name
  {
    if |cards| == 0 then None
    else if cards[0].exercise.name == name then Some(0)
    else
      var rest := FindExercise(cards[1..], name);
      assert forall k :: 1 <= k < |cards| ==> cards[1..][k - 1] == cards[k];
      if rest.Some? then Some(rest.value + 1) else None
  }

  /** The fields of a card that the screen edits. */
  datatype Field = Weight | Rpe | Reps | RestTime | Comment

  /** A card with one field replaced by the text typed in. */
  function SetField(card: ExerciseState, field: Field, value: string): (edited: ExerciseState)
    ensures edited.exercise == card.exercise && edited.validatedSets == card.validatedSets
    ensures edited.lastPerformance == card.lastPerformance
    ensures edited.weight == if field == Weight then value else card.weight
    ensures edited.rpe == if field == Rpe then value else card.rpe
    ensures edited.reps == if field == Reps then value else card.reps
    ensures edited.restTime == if field == RestTime then value else card.restTime
    ensures edited.comment == if field == Comment then value else card.comment
  {
    match field
    case Weight => card.(weight := value)
    case Rpe => card.(rpe := value)
    case Reps => card.(reps := value)
    case RestTime => card.(restTime := value)
    case Comment => card.(comment := value)
  }

  /** `on…Change(name, value)`: the field of every card of that exercise takes the typed text. */
  function EditCards(cards: seq<ExerciseState>, name: string, field: Field, value: string): (edited: seq<ExerciseState>)
    ensures |edited| == |cards|
    ensures forall k :: 0 <= k < |cards| ==>
              edited[k] == if cards[k].exercise.name == name then SetField(cards[k], field, value) else cards[k]
  {
    UpdateExerciseState(cards, name, card => SetField(card, field, value))
  }

  /** `validateSet`'s update: the set is added after the sets of every card of that exercise. */
  function AppendSet(cards: seq<ExerciseState>, name: string, set_: ValidatedSet): (updated: seq<ExerciseState>)
    ensures |updated| == |cards|
    ensures forall k :: 0 <= k < |cards| ==>
              updated[k] == if cards[k].exercise.name == name
                            then cards[k].(validatedSets := cards[k].validatedSets + [set_]) else cards[k]
  {
    UpdateExerciseState(cards, name, (card: ExerciseState) => card.(validatedSets := card.validatedSets + [set_]))
  }

  /** The set `validateSet` records: the card's current fields, the rest time only when it is not blank. */
  function Snapshot(card: ExerciseState): (set_: ValidatedSet)
    ensures set_.weight == card.weight && set_.rpe == card.rpe && set_.reps == card.reps
    ensures set_.restTime.None? <==> IsBlank(card.restTime)
    ensures set_.restTime.Some? ==> set_.restTime.value == card.restTime
  {
    ValidatedSet(card.weight, card.rpe, card.reps, if IsBlank(card.restTime) then None else Some(card.restTime))
  }

  // ---------------------------------------------------------------------------
  // parseReps

  /** A character that is not in `s` is not in `s` trimmed either. */
  lemma TrimKeepsOut(s: string, c: char)
    ensures c !in s ==> c !in Trim(s)
  {
    TrimBySpec(s, KotlinSpaces);
    var a, b :| 0 <= a <= b <= |s| && Trim(s) == s[a..b];
  }

  /** `parts.mapNotNull { it.trim().toIntOrNull() }`: the parts that are numbers, in order. */
  function NumbersAmong(parts: seq<string>): (values: seq<int>)
    ensures |values| <= |parts|
    ensures (forall k :: 0 <= k < |parts| ==> '-' !in parts[k]) ==> forall k :: 0 <= k < |values| ==> values[k] >= 0
  {
    if |parts| == 0 then []
    else
      var last := parts[|parts| - 1];
      var init := NumbersAmong(parts[..|parts| - 1]);
      var v := ParseInt(Trim(last));
      TrimKeepsOut(last, '-');
      if v.Some? then init + [v.value] else init
  }

  function Sum(values: seq<int>): int {
    if |values| == 0 then 0 else Sum(values[..|values| - 1]) + values[|values| - 1]
  }

  lemma {:induction false} SumNonNegative(values: seq<int>)
    requires forall k :: 0 <= k < |values| ==> values[k] >= 0
    ensures Sum(values) >= 0
  {
    if |values| > 0 {
      SumNonNegative(values[..|values| - 1]);
    }
  }

  /** The numbers in a reps text: its `-`-separated parts that parse as integers once trimmed. */
  function RepsNumbers(reps: string): (values: seq<int>)
    ensures forall k :: 0 <= k < |values| ==> values[k] >= 0
  {
    NumbersAmong(Split(reps, '-'))
  }

  /**
   * `parseReps`: the mean of the numbers in a reps text, truncated toward
   * zero; 0 when there is none (the mean of nothing is NaN, which `toInt`
   * turns into 0).
   */
  function ParseReps(reps: string): (n: int)
    ensures n >= 0
    ensures |RepsNumbers(reps)| == 0 ==> n == 0
  {
    var values := RepsNumbers(reps);
    SumNonNegative(values);
    if |values| == 0 then 0 else MeanBounds(Sum(values), |values|); Sum(values) / |values|
  }

  /** The reps read from a text with numbers are their mean rounded down: `count * n <= sum < count * (n + 1)`. */
  lemma ParseRepsIsMean(reps: string)
    ensures var values := RepsNumbers(reps);
            |values| > 0 ==> |values| * ParseReps(reps) <= Sum(values) < |values| * (ParseReps(reps) + 1)
  {
    var values := RepsNumbers(reps);
    if |values| > 0 {
      SumNonNegative(values);
      MeanBounds(Sum(values), |values|);
    }
  }

  /** Integer division of a non-negative total brackets the mean. */
  lemma MeanBounds(total: int, count: int)
    requires total >= 0 && count > 0
    ensures total / count >= 0
    ensures count * (total / count) <= total < count * (total / count + 1)
  {
    var q, r := total / count, total % count;
    assert total == count * q + r && 0 <= r < count;
    assert count * (q + 1) == count * q + count;
  }

  /** A range splits into its two ends. */
  lemma SplitRange()
    ensures Split("8-10", '-') == ["8", "10"]
  {
    assert "0"[1..] == "" && ['0'] + "" == "0" && [""][1..] == [];
    assert "10"[1..] == "0" && ['1'] + "0" == "10" && ["0"][1..] == [];
    assert "-10"[1..] == "10" && Split("-10", '-') == ["", "10"];
    assert "8-10"[1..] == "-10" && ['8'] + "" == "8" && ["", "10"][1..] == ["10"];
  }

  /** The text "10" is already trimmed and reads as ten. */
  lemma TenReadsBack()
    ensures Trim("10") == "10" && ParseInt("10") == Some(10)
  {
    TrimByKeeps("10", KotlinSpaces);
    assert DigitsValue("1") == 1;
  }

  /** The numbers of a range are its two ends. */
  lemma RangeNumbers()
    ensures RepsNumbers("8-10") == [8, 10]
  {
    SplitRange();
    TenReadsBack();
    var parts := Split("8-10", '-');
    TrimByKeeps("8", KotlinSpaces);
    assert ParseInt("8") == Some(8);
    assert parts[..1] == ["8"] && parts[..1][..0] == [];
    assert NumbersAmong(parts[..1]) == [8];
  }

  /** A range is read as the mean of its ends. */
  lemma ParseRepsRange()
    ensures ParseReps("8-10") == 9
  {
    RangeNumbers();
    assert Sum([8, 10]) == 18 by { assert [8, 10][..1] == [8]; }
  }

  /** A single count is read as itself. */
  lemma ParseRepsSingle()
    ensures ParseReps("10") == 10
  {
    assert "0"[1..] == "" && ['0'] + "" == "0" && [""][1..] == [];
    assert "10"[1..] == "0" && ['1'] + "0" == "10" && ["0"][1..] == [];
    assert Split("10", '-') == ["10"];
    TenReadsBack();
    assert RepsNumbers("10") == [10];
    assert Sum([10]) == 10;
  }


  /** A text without a number is read as 0. */
  lemma ParseRepsEmpty()
    ensures ParseReps("") == 0
  {
    assert Split("", '-') == [""];
    TrimByKeeps("", KotlinSpaces);
    assert RepsNumbers("") == [];
  }

  // ---------------------------------------------------------------------------
  // The records of a finished workout

  /**
   * The record stored for one validated set of a card: one set, the session's
   * id, the exercise's name and category, the parsed numbers (an unreadable
   * weight counts as 0.0 and an unreadable RPE as 0), and the card's comment
   * when it is not blank.
   */
  function SetRecord(card: ExerciseState, set_: ValidatedSet, sessionId: int, now: int, rt: RealText)
    : (r: PerformanceRecord)
    ensures r.sets == 1 && r.sessionId == sessionId
    ensures r.exerciseName == card.exercise.name && r.category == card.exercise.category
    ensures r.comment.None? <==> IsBlank(card.comment)
    ensures r.comment.Some? ==> r.comment.value == card.comment
    ensures r.reps == ParseReps(set_.reps) && r.reps >= 0
    ensures rt.read(set_.weight).None? ==> r.weight == 0.0
    ensures rt.read(set_.weight).Some? ==> r.weight == rt.read(set_.weight).value
    ensures ParseInt(set_.rpe).None? ==> r.rpe == 0
    ensures ParseInt(set_.rpe).Some? ==> r.rpe == ParseInt(set_.rpe).value
    ensures IsInt(r.rpe)
    ensures set_.restTime.None? ==> r.restTime.None?
    ensures set_.restTime.Some? ==> r.restTime == ParseInt(set_.restTime.value)
    ensures r.timestamp == now
  {
    PerformanceRecord(
      id := 0,
      sessionId := sessionId,
      exerciseName := card.exercise.name,
      sets := 1,
      reps := ParseReps(set_.reps),
      weight := rt.read(set_.weight).GetOr(0.0),
      rpe := ParseInt(set_.rpe).GetOr(0),
      restTime := if set_.restTime.Some? then ParseInt(set_.restTime.value) else None,
      comment := if IsBlank(card.comment) then None else Some(card.comment),
      timestamp := now,
      category := card.exercise.category)
  }

  /** The records `recordOf` makes of the sets, in order. */
  function RecordsOf(sets: seq<ValidatedSet>, recordOf: ValidatedSet -> PerformanceRecord): (records: seq<PerformanceRecord>)
    ensures |records| == |sets|
  {
    if |sets| == 0 then []
    else RecordsOf(sets[..|sets| - 1], recordOf) + [recordOf(sets[|sets| - 1])]
  }

  /** The `j`-th record is the one made of the `j`-th set. */
  lemma {:induction false} RecordsOfAt(sets: seq<ValidatedSet>, recordOf: ValidatedSet -> PerformanceRecord)
    ensures forall j :: 0 <= j < |sets| ==> RecordsOf(sets, recordOf)[j] == recordOf(sets[j])
  {
    if |sets| > 0 {
      RecordsOfAt(sets[..|sets| - 1], recordOf);
    }
  }

  /** How `finishWorkout` turns a validated set of `card` into a record. */
  function SetRecorder(card: ExerciseState, sessionId: int, now: int, rt: RealText): ValidatedSet -> PerformanceRecord {
    set_ => SetRecord(card, set_, sessionId, now, rt)
  }

  /** Every record a card's recorder makes is of one set. */
  lemma RecorderMakesSingleSets(card: ExerciseState, sessionId: int, now: int, rt: RealText)
    ensures forall set_ :: SetRecorder(card, sessionId, now, rt)(set_).sets == 1
  {
  }

  /** The records of a card's validated sets, in order. */
  function CardRecords(card: ExerciseState, sessionId: int, now: int, rt: RealText): (records: seq<PerformanceRecord>)
    ensures |records| == |card.validatedSets|
  {
    RecordsOf(card.validatedSets, SetRecorder(card, sessionId, now, rt))
  }

  /** The `j`-th record of a card is that of its `j`-th validated set. */
  lemma CardRecordsAt(card: ExerciseState, sessionId: int, now: int, rt: RealText)
    ensures forall j :: 0 <= j < |card.validatedSets| ==>
              CardRecords(card, sessionId, now, rt)[j] == SetRecord(card, card.validatedSets[j], sessionId, now, rt)
  {
    RecordsOfAt(card.validatedSets, SetRecorder(card, sessionId, now, rt));
  }

  /** The records of a finished workout: card by card, and within a card set by set. */
  function SessionRecords(cards: seq<ExerciseState>, sessionId: int, now: int, rt: RealText): (records: seq<PerformanceRecord>)
    ensures |records| == TotalSets(cards)
  {
    if |cards| == 0 then []
    else
      var last := cards[|cards| - 1];
      SessionRecords(cards[..|cards| - 1], sessionId, now, rt) + CardRecords(last, sessionId, now, rt)
  }

  /** The number of validated sets over all cards. */
  function TotalSets(cards: seq<ExerciseState>): nat {
    if |cards| == 0 then 0 else TotalSets(cards[..|cards| - 1]) + |cards[|cards| - 1].validatedSets|
  }

  /** The number of cards of exercise `name`. */
  function CountNamed(cards: seq<ExerciseState>, name: string): nat {
    if |cards| == 0 then 0
    else CountNamed(cards[..|cards| - 1], name) + if cards[|cards| - 1].exercise.name == name then 1 else 0
  }

  /**
   * Validating a set adds one set to every card of the exercise, so one set in
   * all when the exercise has a single card.
   */
  lemma {:induction false} AppendSetCount(cards: seq<ExerciseState>, name: string, set_: ValidatedSet)
    ensures TotalSets(AppendSet(cards, name, set_)) == TotalSets(cards) + CountNamed(cards, name)
  {
    if |cards| > 0 {
      var n := |cards| - 1;
      AppendSetCount(cards[..n], name, set_);
      assert AppendSet(cards, name, set_)[..n] == AppendSet(cards[..n], name, set_);
    }
  }

  /** Editing a field never drops or adds a validated set. */
  lemma {:induction false} EditKeepsSets(cards: seq<ExerciseState>, name: string, field: Field, value: string)
    ensures TotalSets(EditCards(cards, name, field, value)) == TotalSets(cards)
  {
    if |cards| > 0 {
      var n := |cards| - 1;
      EditKeepsSets(cards[..n], name, field, value);
      assert EditCards(cards, name, field, value)[..n] == EditCards(cards[..n], name, field, value);
    }
  }

  /**
   * Every record is one set of the session, and names an exercise and a
   * category of one of the cards.
   */
  lemma {:induction false} SessionRecordsBelongToSession(cards: seq<ExerciseState>, sessionId: int, now: int, rt: RealText)
    ensures forall r :: r in SessionRecords(cards, sessionId, now, rt) ==>
              r.sets == 1 && r.sessionId == sessionId
              && exists k :: 0 <= k < |cards| && r.exerciseName == cards[k].exercise.name
                                              && r.category == cards[k].exercise.category
  {
    if |cards| > 0 {
      var init, last := cards[..|cards| - 1], cards[|cards| - 1];
      SessionRecordsBelongToSession(init, sessionId, now, rt);
      CardRecordsAt(last, sessionId, now, rt);
      forall r | r in SessionRecords(cards, sessionId, now, rt)
        ensures exists k :: 0 <= k < |cards| && r.exerciseName == cards[k].exercise.name
                                            && r.category == cards[k].exercise.category
      {
        if r in SessionRecords(init, sessionId, now, rt) {
          var k :| 0 <= k < |init| && r.exerciseName == init[k].exercise.name && r.category == init[k].exercise.category;
          assert init[k] == cards[k];
        } else {
          var recs := CardRecords(last, sessionId, now, rt);
          var j :| 0 <= j < |recs| && recs[j] == r;
          assert r.exerciseName == last.exercise.name;
        }
      }
    }
  }

  /**
   * A set validated on a card seeded from the exercise's last record, without
   * editing the card, is stored with that record's weight, RPE and rest time,
   * and with the program's reps.
   */
  lemma SeededSetRepeatsLastRecord(e: ProgramExercise, last: PerformanceRecord, sessionId: int, now: int, rt: RealText)
    requires ValidRecord(last) && ReadsBack(rt, last.weight)
    ensures var card := SeedExerciseState(e, Some(last), rt);
            var r := SetRecord(card, Snapshot(card), sessionId, now, rt);
            r.weight == last.weight && r.rpe == last.rpe && r.restTime == last.restTime && r.reps == ParseReps(e.reps)
  {
    var card := SeedExerciseState(e, Some(last), rt);
    ParseShowInt(last.rpe);
    if last.restTime.Some? {
      var text := ShowInt(last.restTime.value);
      ParseShowInt(last.restTime.value);
      assert !IsWhitespace(text[|text| - 1]);
      assert !IsBlank(card.restTime);
    } else {
      assert IsBlank(card.restTime);
    }
  }

  /**
   * A set validated on a fresh card, without editing it, is stored with the
   * program's target weight and RPE and without a rest time.
   */
  lemma NewSetRepeatsTargets(e: ProgramExercise, sessionId: int, now: int, rt: RealText)
    requires ValidProgramExercise(e) && ReadsBack(rt, e.targetWeight)
    ensures var card := NewExerciseState(e, rt);
            var r := SetRecord(card, Snapshot(card), sessionId, now, rt);
            r.weight == e.targetWeight && r.rpe == e.targetRpe && r.restTime.None? && r.reps == ParseReps(e.reps)
  {
    ParseShowInt(e.targetRpe);
    assert IsBlank(NewExerciseState(e, rt).restTime);
  }

  // ---------------------------------------------------------------------------
  // Comparison with the previous session

  /**
   * The comparison `finishWorkout` reports, given the day's sessions newest
   * first (the finished one first): the change over the one before it when
   * there is one with a positive volume, the total alone otherwise.
   */
  function CompareVolume(totalVolume: real, sessionsForDay: seq<SessionHistory>): (c: VolumeComparison)
    ensures c.ChangeFromPrevious? <==> |sessionsForDay| >= 2 && sessionsForDay[1].totalVolume > 0.0
    ensures c.TotalOnly? ==> c.volume == totalVolume
    ensures c.ChangeFromPrevious? ==> sessionsForDay[1].totalVolume * (1.0 + c.percent / 100.0) == totalVolume
  {
    if |sessionsForDay| >= 2 && sessionsForDay[1].totalVolume > 0.0 then
      var previous := sessionsForDay[1].totalVolume;
      RatioFacts(totalVolume, previous);
      ChangeFromPrevious(((totalVolume - previous) / previous) * 100.0)
    else TotalOnly(totalVolume)
  }

  /** The reported change is the progress metric's percentage change from the previous session's volume. */
  lemma CompareVolumeIsPercentChange(totalVolume: real, sessionsForDay: seq<SessionHistory>)
    requires |sessionsForDay| >= 2 && sessionsForDay[1].totalVolume > 0.0
    ensures CompareVolume(totalVolume, sessionsForDay)
            == ChangeFromPrevious(PercentChange(sessionsForDay[1].totalVolume, totalVolume))
  {
  }
}
