/**
 * The view model behind the workout screen. It holds the screen's state and,
 * once `initRepository` has run, a store. The store's answers are passed in as
 * parameters (one emission of each flow the source collects), and what the
 * view model writes to the store is returned.
 */
module Workout {
  import opened KotlinText
  import opened Entities
  import opened DummyData
  import opened ProgressCalculator
  import opened WorkoutState

  class WorkoutViewModel {
    /** The state the screen shows (`_uiState`). */
    var uiState: WorkoutUiState
    /** Whether the store has been opened (`repository != null`). */
    var hasRepository: bool
    /** `Double.toString()` and `String.toDoubleOrNull()`. */
    const realText: RealText

    /** A session id is only ever set by a load that went through the store. */
    ghost predicate Valid()
      reads this
    {
      uiState.sessionId.Some? ==> hasRepository
    }

    constructor (rt: RealText)
      ensures Valid()
      ensures uiState == InitialUiState() && !hasRepository && realText == rt
    {
      uiState := InitialUiState();
      hasRepository := false;
      realText := rt;
    }

    /** `initRepository`: opens the store once; the screen's state is left as it is. */
    method InitRepository()
      requires Valid()
      modifies this
      ensures Valid()
      ensures hasRepository && uiState == old(uiState)
    {
      if !hasRepository {
        hasRepository := true;
      }
    }

    /**
     * `loadSession(day)`. With a store, a new session for the day is inserted
     * (returned as `inserted`; the store gives it `newSessionId`) and the day's
     * planned exercises `program` are shown, each seeded from its last stored
     * record in `lastRecords`; when the day has no planned exercise the
     * demonstration program is shown under the new session instead. Without a
     * store the demonstration program is shown without a session.
     */
    method LoadSession(day: string, now: int, newSessionId: int, program: seq<ProgramExercise>,
                       lastRecords: map<string, PerformanceRecord>)
      returns (inserted: Option<SessionHistory>)
      requires Valid()
      modifies this
      ensures Valid() && hasRepository == old(hasRepository)
      ensures hasRepository ==> inserted == Some(NewSession(day, now))
      ensures !hasRepository ==> inserted.None?
      ensures hasRepository && |program| > 0 ==>
                uiState == old(uiState).(day := day, exercises := SeedExercises(program, lastRecords, realText),
                                         isLoading := false, sessionId := Some(newSessionId))
      ensures hasRepository && |program| == 0 ==>
                uiState == WithDemoSession(old(uiState).(isLoading := true), day, Some(newSessionId), realText)
      ensures !hasRepository ==> uiState == WithDemoSession(old(uiState).(isLoading := true), day, None, realText)
    {
      uiState := uiState.(isLoading := true);
      if hasRepository {
        inserted := Some(NewSession(day, now));
        if |program| > 0 {
          var cards := SeedExercises(program, lastRecords, realText);
          uiState := uiState.(day := day, exercises := cards, isLoading := false, sessionId := Some(newSessionId));
        } else {
          LoadFromDummyData(day, Some(newSessionId));
        }
      } else {
        inserted := None;
        LoadFromDummyData(day, None);
      }
    }

    /** `loadFromDummyData(day, sessionId)`. */
    method LoadFromDummyData(day: string, sessionId: Option<int>)
      requires Valid() && (sessionId.Some? ==> hasRepository)
      modifies this
      ensures Valid() && hasRepository == old(hasRepository)
      ensures uiState == WithDemoSession(old(uiState), day, sessionId, realText)
    {
      var session := FindSession(day);
      if session.Some? {
        var cards := DemoExercises(session.value.exercises, realText);
        uiState := uiState.(day := session.value.day, exercises := cards, isLoading := false, sessionId := sessionId);
      }
    }

    /** `onWeightChange`, `onRpeChange`, `onRepsChange`, `onRestTimeChange` and `onCommentChange`. */
    method OnFieldChange(name: string, field: Field, value: string)
      requires Valid()
      modifies this
      ensures Valid() && hasRepository == old(hasRepository)
      ensures uiState == old(uiState).(exercises := EditCards(old(uiState).exercises, name, field, value))
    {
      uiState := uiState.(exercises := EditCards(uiState.exercises, name, field, value));
    }

    /**
     * `validateSet(name)`: the fields of the first card of that exercise are
     * recorded as a set, which is added to every card of the exercise; nothing
     * happens when no card has that name.
     */
    method ValidateSet(name: string)
      requires Valid()
      modifies this
      ensures Valid() && hasRepository == old(hasRepository)
      ensures FindExercise(old(uiState).exercises, name).None? ==> uiState == old(uiState)
      ensures var found := FindExercise(old(uiState).exercises, name);
              found.Some? ==>
                uiState == old(uiState).(exercises := AppendSet(old(uiState).exercises, name,
                                                                Snapshot(old(uiState).exercises[found.value])))
    {
      var found := FindExercise(uiState.exercises, name);
      if found.Some? {
        var set_ := Snapshot(uiState.exercises[found.value]);
        uiState := uiState.(exercises := AppendSet(uiState.exercises, name, set_));
      }
    }

    /**
     * `finishWorkout()` as intended; `FinishWorkoutAsWritten` is the code as it
     * stands, whose summary never opens. Without a session nothing happens. Otherwise every
     * validated set becomes a performance record (`saved`, the records handed
     * to the store), the session read back from the store (`storedSession`) is
     * written back completed with the workout's totals (`updated`), and the
     * summary opens with the total volume, the average RPE and the comparison
     * with the day's sessions `sessionsForDay`, newest first.
     */
    method FinishWorkout(now: int, storedSession: Option<SessionHistory>, sessionsForDay: seq<SessionHistory>)
      returns (saved: seq<PerformanceRecord>, updated: Option<SessionHistory>)
      requires Valid()
      modifies this
      ensures Valid() && hasRepository == old(hasRepository)
      ensures old(uiState).sessionId.None? ==> uiState == old(uiState) && saved == [] && updated.None?
      ensures old(uiState).sessionId.Some? ==>
                var volume := CalculateTotalVolume(saved);
                var average := CalculateAverageRpe(saved);
                && saved == SessionRecords(old(uiState).exercises, old(uiState).sessionId.value, now, realText)
                && uiState == old(uiState).(totalVolume := volume, averageRpe := average,
                                            volumeComparison := Some(CompareVolume(volume, sessionsForDay)),
                                            showSummaryDialog := true)
                && updated == if storedSession.None? then None
                              else Some(storedSession.value.(totalVolume := volume, averageRpe := average,
                                                             completed := true))
    {
      saved, updated := [], None;
      if uiState.sessionId.None? {
        return;
      }
      var sessionId := uiState.sessionId.value;
      var cards := uiState.exercises;
      var totalVolume: real, totalRpe: real, setCount: int;
      saved, totalVolume, totalRpe, setCount := CollectRecords(cards, sessionId, now, realText);
      var averageRpe := if setCount > 0 then totalRpe / setCount as real else 0.0;
      if storedSession.Some? {
        updated := Some(storedSession.value.(totalVolume := totalVolume, averageRpe := averageRpe, completed := true));
      }
      var comparison := if hasRepository then CompareVolume(totalVolume, sessionsForDay) else TotalOnly(totalVolume);
      uiState := uiState.(totalVolume := totalVolume, averageRpe := averageRpe, volumeComparison := Some(comparison),
                          showSummaryDialog := true);
    }

    /**
     * `finishWorkout()` as written. The records are handed to the store and
     * the session is written back as in `FinishWorkout`, but with a store the
     * `collect` on the day's sessions never returns (the store's flow never
     * completes), so the summary update after it never runs: the screen's
     * state stays as it was. Only without a store would the summary open,
     * with the total alone.
     */
    method FinishWorkoutAsWritten(now: int, storedSession: Option<SessionHistory>)
      returns (saved: seq<PerformanceRecord>, updated: Option<SessionHistory>)
      requires Valid()
      modifies this
      ensures Valid() && hasRepository == old(hasRepository)
      ensures old(uiState).sessionId.None? ==> saved == [] && updated.None?
      ensures old(uiState).sessionId.Some? ==>
                var volume := CalculateTotalVolume(saved);
                && saved == SessionRecords(old(uiState).exercises, old(uiState).sessionId.value, now, realText)
                && updated == if storedSession.None? then None
                              else Some(storedSession.value.(totalVolume := volume, averageRpe := CalculateAverageRpe(saved),
                                                             completed := true))
      ensures old(uiState).sessionId.None? || hasRepository ==> uiState == old(uiState)
    {
      saved, updated := [], None;
      if uiState.sessionId.None? {
        return;
      }
      var sessionId := uiState.sessionId.value;
      var totalVolume: real, totalRpe: real, setCount: int;
      saved, totalVolume, totalRpe, setCount := CollectRecords(uiState.exercises, sessionId, now, realText);
      var averageRpe := if setCount > 0 then totalRpe / setCount as real else 0.0;
      if storedSession.Some? {
        updated := Some(storedSession.value.(totalVolume := totalVolume, averageRpe := averageRpe, completed := true));
      }
      uiState := if hasRepository then uiState
                 else uiState.(totalVolume := totalVolume, averageRpe := averageRpe,
                               volumeComparison := Some(TotalOnly(totalVolume)), showSummaryDialog := true);
    }

    /** `dismissSummaryDialog()`: closes the summary and changes nothing else. */
    method DismissSummaryDialog()
      requires Valid()
      modifies this
      ensures Valid() && hasRepository == old(hasRepository)
      ensures uiState == old(uiState).(showSummaryDialog := false)
    {
      uiState := uiState.(showSummaryDialog := false);
    }
  }

  /**
   * The loops of `finishWorkout`: every validated set of every card, in
   * order, becomes a record, while the volume, the RPE and the number of sets
   * are added up.
   */
  method CollectRecords(cards: seq<ExerciseState>, sessionId: int, now: int, rt: RealText)
    returns (saved: seq<PerformanceRecord>, totalVolume: real, totalRpe: real, setCount: int)
    ensures saved == SessionRecords(cards, sessionId, now, rt)
    ensures totalVolume == CalculateTotalVolume(saved)
    ensures totalRpe == SumRpe(saved) as real
    ensures setCount == |saved| == TotalSets(cards)
  {
    saved := [];
    totalVolume, totalRpe, setCount := 0.0, 0.0, 0;
    var i := 0;
    while i < |cards|
      invariant 0 <= i <= |cards|
      invariant saved == SessionRecords(cards[..i], sessionId, now, rt)
      invariant Tallies(saved, totalVolume, totalRpe, setCount)
    {
      var card := cards[i];
      RecorderMakesSingleSets(card, sessionId, now, rt);
      saved, totalVolume, totalRpe, setCount :=
        CollectSetRecords(card.validatedSets, SetRecorder(card, sessionId, now, rt), saved, totalVolume, totalRpe, setCount);
      assert cards[..i + 1][..i] == cards[..i];
      i := i + 1;
    }
    assert cards[..i] == cards;
  }

  /**
   * The inner loop of `finishWorkout`: the record `recordOf` makes of each
   * validated set of one card is added after `before`, and the running totals
   * grow with it.
   */
  method CollectSetRecords(sets: seq<ValidatedSet>, recordOf: ValidatedSet -> PerformanceRecord,
                           before: seq<PerformanceRecord>, volumeBefore: real, rpeBefore: real, countBefore: int)
    returns (saved: seq<PerformanceRecord>, totalVolume: real, totalRpe: real, setCount: int)
    requires forall set_ :: recordOf(set_).sets == 1
    requires Tallies(before, volumeBefore, rpeBefore, countBefore)
    ensures saved == before + RecordsOf(sets, recordOf)
    ensures Tallies(saved, totalVolume, totalRpe, setCount)
  {
    saved, totalVolume, totalRpe, setCount := before, volumeBefore, rpeBefore, countBefore;
    var j := 0;
    while j < |sets|
      invariant 0 <= j <= |sets|
      invariant saved == before + RecordsOf(sets[..j], recordOf)
      invariant Tallies(saved, totalVolume, totalRpe, setCount)
    {
      var record := recordOf(sets[j]);
      AppendOne(saved, record);
      assert sets[..j + 1][..j] == sets[..j];
      saved := saved + [record];
      totalVolume := totalVolume + record.weight * record.reps as real;
      totalRpe := totalRpe + record.rpe as real;
      setCount := setCount + 1;
      j := j + 1;
    }
    assert sets[..j] == sets;
  }

  /** The running totals of `finishWorkout` over the records built so far. */
  predicate Tallies(records: seq<PerformanceRecord>, totalVolume: real, totalRpe: real, setCount: int) {
    totalVolume == CalculateTotalVolume(records) && totalRpe == SumRpe(records) as real && setCount == |records|
  }

  /** Adding the record of one set adds its weight times its reps and its RPE to the running totals. */
  lemma AppendOne(records: seq<PerformanceRecord>, r: PerformanceRecord)
    requires r.sets == 1
    ensures CalculateTotalVolume(records + [r]) == CalculateTotalVolume(records) + r.weight * r.reps as real
    ensures SumRpe(records + [r]) == SumRpe(records) + r.rpe
  {
    var s := records + [r];
    assert s[..|records|] == records && s[|records|] == r;
    var volume := CalculateVolume(r);
    assert volume == r.weight * r.reps as real;
    assert CalculateTotalVolume(s) == CalculateTotalVolume(records) + volume;
  }

  /**
   * A day loaded through the store and then finished: with `finishWorkout` as
   * written the summary never opens; with the intended `FinishWorkout` it
   * does.
   */
  method FinishThroughStore(rt: RealText, asWritten: bool) returns (summaryShown: bool)
    ensures summaryShown == !asWritten
  {
    var squat := ProgramExercise(0, "Lundi", "Squat", 3, "10", 80.0, 8, "Jambes", None, 0);
    var viewModel := new WorkoutViewModel(rt);
    viewModel.InitRepository();
    var inserted := viewModel.LoadSession("Lundi", 0, 1, [squat], map[]);
    viewModel.ValidateSet("Squat");
    if asWritten {
      var saved, updated := viewModel.FinishWorkoutAsWritten(1, None);
    } else {
      var saved, updated := viewModel.FinishWorkout(1, None, []);
    }
    summaryShown := viewModel.uiState.showSummaryDialog;
  }
}
