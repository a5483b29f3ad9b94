/**
 * Exporting a training program and the performance history as CSV. The model
 * produces the table of fields the CSV printer is given, the header row first;
 * how the printer quotes fields and ends lines is not modelled.
 */
module CsvExporter {
  import opened KotlinText
  import opened Entities

  const ProgramHeader: seq<string> := ["Jour", "Exercice", "Séries", "Reps", "Poids", "RPE", "Catégorie", "Commentaire"]

  const PerformanceHeader: seq<string> :=
    ["Date", "Exercice", "Séries", "Reps", "Poids", "RPE", "Catégorie", "Repos (s)", "Commentaire"]

  /**
   * The fields printed for one planned exercise, in header order. The texts are
   * printed as they are and a missing comment as an empty field; what the
   * numbers read back as is `CsvRoundTrip.RowRoundTrip`.
   */
  function ProgramRow(e: ProgramExercise, rt: RealText): (row: seq<string>)
    ensures |row| == |ProgramHeader|
    ensures row[0] == e.day && row[1] == e.name && row[3] == e.reps && row[6] == e.category
    ensures e.comment.None? ==> row[7] == ""
    ensures e.comment.Some? ==> row[7] == e.comment.value
  {
    [e.day, e.name, ShowInt(e.sets), e.reps, rt.show(e.targetWeight), ShowInt(e.targetRpe), e.category,
     e.comment.GetOr("")]
  }

  /** The whole program table: the header, then one row per exercise in list order. */
  function ProgramTable(exercises: seq<ProgramExercise>, rt: RealText): (rows: seq<seq<string>>)
    ensures |rows| == |exercises| + 1 && rows[0] == ProgramHeader
  {
    if |exercises| == 0 then [ProgramHeader]
    else ProgramTable(exercises[..|exercises| - 1], rt) + [ProgramRow(exercises[|exercises| - 1], rt)]
  }

  /** Row `k + 1` of the program table is that of exercise `k`. */
  lemma {:induction false} ProgramTableAt(exercises: seq<ProgramExercise>, rt: RealText)
    ensures forall k :: 0 <= k < |exercises| ==> ProgramTable(exercises, rt)[k + 1] == ProgramRow(exercises[k], rt)
  {
    if |exercises| > 0 {
      var init := exercises[..|exercises| - 1];
      ProgramTableAt(init, rt);
      assert forall k :: 0 <= k < |init| ==> init[k] == exercises[k];
    }
  }

  /** `exportProgram`: prints the header, then each exercise in turn. */
  method ExportProgram(exercises: seq<ProgramExercise>, rt: RealText) returns (rows: seq<seq<string>>)
    ensures rows == ProgramTable(exercises, rt)
  {
    rows := [ProgramHeader];
    for i := 0 to |exercises|
      invariant rows == ProgramTable(exercises[..i], rt)
    {
      assert exercises[..i + 1][..i] == exercises[..i];
      rows := rows + [ProgramRow(exercises[i], rt)];
    }
    assert exercises[..|exercises|] == exercises;
  }

  /**
   * The fields printed for one performance record: the timestamp as a date
   * (the formatter is a parameter), and an empty field for a missing rest time
   * or comment.
   */
  function PerformanceRow(r: PerformanceRecord, rt: RealText, formatDate: int -> string): (row: seq<string>)
    ensures |row| == |PerformanceHeader|
    ensures row[0] == formatDate(r.timestamp) && row[1] == r.exerciseName && row[6] == r.category
    ensures r.restTime.None? ==> row[7] == ""
    ensures r.comment.None? ==> row[8] == ""
    ensures r.comment.Some? ==> row[8] == r.comment.value
  {
    [formatDate(r.timestamp), r.exerciseName, ShowInt(r.sets), ShowInt(r.reps), rt.show(r.weight), ShowInt(r.rpe),
     r.category, if r.restTime.Some? then ShowInt(r.restTime.value) else "", r.comment.GetOr("")]
  }

  /** The whole history table: the header, then one row per record in list order. */
  function PerformanceTable(records: seq<PerformanceRecord>, rt: RealText, formatDate: int -> string): (rows: seq<seq<string>>)
    ensures |rows| == |records| + 1 && rows[0] == PerformanceHeader
  {
    if |records| == 0 then [PerformanceHeader]
    else PerformanceTable(records[..|records| - 1], rt, formatDate) + [PerformanceRow(records[|records| - 1], rt, formatDate)]
  }

  /** Row `k + 1` of the history table is that of record `k`. */
  lemma {:induction false} PerformanceTableAt(records: seq<PerformanceRecord>, rt: RealText, formatDate: int -> string)
    ensures forall k :: 0 <= k < |records| ==>
              PerformanceTable(records, rt, formatDate)[k + 1] == PerformanceRow(records[k], rt, formatDate)
  {
    if |records| > 0 {
      var init := records[..|records| - 1];
      PerformanceTableAt(init, rt, formatDate);
      assert forall k :: 0 <= k < |init| ==> init[k] == records[k];
    }
  }

  /** `exportPerformanceHistory`: prints the header, then each record in turn. */
  method ExportPerformanceHistory(records: seq<PerformanceRecord>, rt: RealText, formatDate: int -> string)
    returns (rows: seq<seq<string>>)
    ensures rows == PerformanceTable(records, rt, formatDate)
  {
    rows := [PerformanceHeader];
    for i := 0 to |records|
      invariant rows == PerformanceTable(records[..i], rt, formatDate)
    {
      assert records[..i + 1][..i] == records[..i];
      rows := rows + [PerformanceRow(records[i], rt, formatDate)];
    }
    assert records[..|records|] == records;
  }

  /**
   * A performance row loses nothing but the exact timestamp: every number
   * reads back, and an empty rest time or comment field means there was none.
   */
  lemma PerformanceRowReadsBack(r: PerformanceRecord, rt: RealText, formatDate: int -> string)
    requires ValidRecord(r) && ReadsBack(rt, r.weight)
    ensures var row := PerformanceRow(r, rt, formatDate);
            && row[1] == r.exerciseName && row[6] == r.category
            && ParseInt(row[2]) == Some(r.sets) && ParseInt(row[3]) == Some(r.reps)
            && rt.read(row[4]) == Some(r.weight) && ParseInt(row[5]) == Some(r.rpe)
            && (row[7] == "" <==> r.restTime.None?)
            && (r.restTime.Some? ==> ParseInt(row[7]) == r.restTime)
            && (r.comment.Some? && r.comment.value != "" ==> row[8] == r.comment.value)
            && (r.comment.None? ==> row[8] == "")
  {
    ParseShowInt(r.sets);
    ParseShowInt(r.reps);
    ParseShowInt(r.rpe);
    if r.restTime.Some? {
      ParseShowInt(r.restTime.value);
    }
  }
}
