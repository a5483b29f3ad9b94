/**
 * The stored entities of TPlanner as values. `id` is the store's generated key
 * (0 until the store assigns one); Kotlin `Int` fields are `int`s that
 * `Valid...` keeps in 32-bit range; weights and volumes are exact reals.
 */
module Entities {
  import opened KotlinText

  /** A planned exercise of a training day (program_exercises). */
  datatype ProgramExercise = ProgramExercise(
    id: int,
    day: string,
    name: string,
    sets: int,
    reps: string,          // a single count or a range such as "8-10"
    targetWeight: real,
    targetRpe: int,
    category: string,
    comment: Option<string>,
    orderIndex: int)

  predicate ValidProgramExercise(e: ProgramExercise) {
    IsInt(e.sets) && IsInt(e.targetRpe) && IsInt(e.orderIndex)
  }

  /** One validated set as stored (performance_records). */
  datatype PerformanceRecord = PerformanceRecord(
    id: int,
    sessionId: int,
    exerciseName: string,
    sets: int,
    reps: int,
    weight: real,
    rpe: int,
    restTime: Option<int>, // seconds
    comment: Option<string>,
    timestamp: int,
    category: string)

  predicate ValidRecord(r: PerformanceRecord) {
    IsInt(r.sets) && IsInt(r.reps) && IsInt(r.rpe) && (r.restTime.Some? ==> IsInt(r.restTime.value))
  }

  /** One workout attempt (session_history). */
  datatype SessionHistory = SessionHistory(
    id: int,
    day: string,
    timestamp: int,
    totalVolume: real,
    averageRpe: real,
    duration: Option<int>, // minutes
    completed: bool)

  /** `SessionHistory(day = day, timestamp = now)` with every other field at its default. */
  function NewSession(day: string, now: int): (s: SessionHistory)
    ensures s.day == day && s.timestamp == now && !s.completed
    ensures s.totalVolume == 0.0 && s.averageRpe == 0.0
  {
    SessionHistory(0, day, now, 0.0, 0.0, None, false)
  }

  /** An exercise of the built-in demonstration program. */
  datatype Exercise = Exercise(
    day: string,
    name: string,
    sets: int,
    reps: string,
    weight: real,
    rpe: int,
    category: string,
    comment: Option<string>)
}
