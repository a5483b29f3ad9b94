/**
 * The demonstration program the workout screen falls back to when no program
 * is stored for a day or no store is attached.
 */
module DummyData {
  import opened KotlinText
  import opened Entities

  /** A demonstration day and its exercises. */
  datatype WorkoutSession = WorkoutSession(day: string, exercises: seq<Exercise>)

  const Sessions: seq<WorkoutSession> := [
    WorkoutSession("Mercredi", [
      Exercise("Mercredi", "Tirage vertical prise neutre", 4, "8-10", 59.0, 8, "Dos", None),
      Exercise("Mercredi", "Rowing haltère", 3, "10-12", 22.0, 8, "Dos", None)
    ]),
    WorkoutSession("Samedi", [
      Exercise("Samedi", "Développé décliné haltères", 4, "8-10", 55.0, 7, "Pecs", Some("Bas des pecs")),
      Exercise("Samedi", "Dips", 4, "10-12", 0.0, 9, "Pecs", None)
    ])
  ]

  /** `sessions.find { it.day == day }` on a list of sessions: the first one of that day. */
  function FindIn(sessions: seq<WorkoutSession>, day: string): (r: Option<WorkoutSession>)
    ensures r.None? <==> forall k :: 0 <= k < |sessions| ==> sessions[k].day != day
    ensures r.Some? ==> exists k :: 0 <= k < |sessions| && sessions[k] == r.value && sessions[k].day == day
                                    && forall j :: 0 <= j < k ==> sessions[j].day != day
  {
    if |sessions| == 0 then None
    else if sessions[0].day == day then Some(sessions[0])
    else
      var r := FindIn(sessions[1..], day);
      if r.Some? then
        var k :| 0 <= k < |sessions[1..]| && sessions[1..][k] == r.value && sessions[1..][k].day == day
                 && forall j :: 0 <= j < k ==> sessions[1..][j].day != day;
        assert sessions[k + 1] == r.value;
        r
      else r
  }

  /** `DummyData.sessions.find { it.day == day }`. */
  function FindSession(day: string): Option<WorkoutSession> {
    FindIn(Sessions, day)
  }

  /** Only Wednesday and Saturday have a demonstration program. */
  lemma DemoDays(day: string)
    ensures FindSession(day).Some? <==> day == "Mercredi" || day == "Samedi"
    ensures day == "Samedi" ==> FindSession(day) == Some(Sessions[1]) && |Sessions[1].exercises| == 2
  {
    assert Sessions[0].day == "Mercredi" && Sessions[1].day == "Samedi";
  }
}
