/**
 * A program exported to CSV and imported again comes back as it was, apart
 * from the store's key and the order index, which the import assigns afresh.
 * The CSV printer and parser are taken to carry every field across unchanged
 * (`ParseTable`); what the importer then makes of the fields is modelled.
 */
module CsvRoundTrip {
  import opened KotlinText
  import opened Entities
  import opened CsvImporter
  import opened CsvExporter

  /**
   * The stand-in for the CSV printer and parser together: what the parser
   * reads back from a printed table, taken to carry every field across
   * unchanged. The first row is the header and every other row a record,
   * numbered by `number`. Its ensures are not proved facts about the CSV
   * library: they are the assumption the round-trip lemmas rest on.
   */
  function ParseTable(rows: seq<seq<string>>, number: nat -> int): (input: CsvInput)
    ensures input.Parsed? && !input.readFailure
    ensures |rows| > 0 ==> input.header == rows[0] && |input.records| == |rows| - 1
                           && forall k :: 0 <= k < |input.records| ==> input.records[k].values == rows[k + 1]
  {
    if |rows| == 0 then Parsed([], [], false)
    else Parsed(rows[0], seq(|rows| - 1, k requires 0 <= k < |rows| - 1 => CsvRecord(number(k), rows[k + 1])), false)
  }

  /** The exporter's header names exactly the columns the importer reads, in the same order. */
  lemma HeaderMatchesColumns()
    ensures ProgramHeader == Columns
  {
  }

  /** No two of the importer's column names are the same to the header lookup. */
  lemma {:induction false} ColumnsDistinct(i: int, j: int)
    requires 0 <= i < |Columns| && 0 <= j < |Columns| && i != j
    ensures !SameName(Columns[i], Columns[j])
  {
    if |Columns[i]| == |Columns[j]| {
      assert {i, j} == {0, 3};
      assert FoldCase(Columns[i][0]) != FoldCase(Columns[j][0]);
    }
  }

  /** Text without space at either end survives the parser's trim. */
  predicate Untrimmed(s: string) {
    |s| > 0 ==> s[0] > ' ' && s[|s| - 1] > ' '
  }

  /** In the exported header, every column the importer reads is found where the exporter put it. */
  lemma {:induction false} HeaderIndexOfColumn(c: int)
    requires 0 <= c < |Columns|
    ensures HeaderIndex(ProgramHeader, Columns[c]) == Some(c)
  {
    var name := Columns[c];
    forall j | 0 <= j < |ProgramHeader|
      ensures IsColumn(ProgramHeader[j], name) <==> j == c
    {
      TrimByKeeps(ProgramHeader[j], JavaSpaces);
      if j != c {
        ColumnsDistinct(j, c);
      }
    }
  }

  /**
   * The exercises an export and import carry across unchanged: numbers that
   * fit an `Int`, a weight whose text reads back, texts without space at
   * their ends and a comment that is absent or not blank.
   */
  predicate Exportable(e: ProgramExercise, rt: RealText) {
    && ValidProgramExercise(e) && ReadsBack(rt, e.targetWeight)
    && Untrimmed(e.day) && Untrimmed(e.name) && Untrimmed(e.reps) && Untrimmed(e.category)
    && (e.comment.Some? ==> !IsBlank(e.comment.value) && Untrimmed(e.comment.value))
  }

  /** A program line that round-trips: a 60 kg squat without comment, printed by `SixtyText`. */
  lemma SquatIsExportable(e: ProgramExercise)
    requires e == ProgramExercise(0, "Lundi", "Squat", 3, "10", 60.0, 8, "Jambes", None, 0)
    ensures Exportable(e, SixtyText)
  {
    SixtyTextReadsBack();
  }

  /**
   * Under a header that has the importer's columns in the importer's order, a
   * row of fields without space at their ends is read back as it is.
   */
  lemma {:induction false} RowReadsInHeaderOrder(header: seq<string>, row: seq<string>, n: int)
    requires forall c :: 0 <= c < |Columns| ==> HeaderIndex(header, Columns[c]) == Some(c)
    requires |row| == |Columns| && forall c :: 0 <= c < |row| ==> JavaTrim(row[c]) == row[c]
    ensures ReadColumns(header, CsvRecord(n, row), Columns) == Some(row)
  {
    var rec := CsvRecord(n, row);
    forall c | 0 <= c < |Columns|
      ensures Get(header, rec, Columns[c]) == Some(row[c])
    {
    }
    ReadColumnsAll(header, rec, Columns);
    assert ReadColumns(header, rec, Columns).value == row;
  }

  /** The importer reads an exported row back field for field. */
  lemma ExportedRowReadsBack(e: ProgramExercise, n: int, rt: RealText)
    requires Exportable(e, rt)
    ensures ReadColumns(ProgramHeader, CsvRecord(n, ProgramRow(e, rt)), Columns) == Some(ProgramRow(e, rt))
  {
    var row := ProgramRow(e, rt);
    forall c | 0 <= c < |Columns|
      ensures HeaderIndex(ProgramHeader, Columns[c]) == Some(c)
    {
      HeaderIndexOfColumn(c);
    }
    TrimByKeeps(e.day, JavaSpaces);
    TrimByKeeps(e.name, JavaSpaces);
    TrimByKeeps(ShowInt(e.sets), JavaSpaces);
    TrimByKeeps(e.reps, JavaSpaces);
    TrimByKeeps(ShowInt(e.targetRpe), JavaSpaces);
    TrimByKeeps(e.category, JavaSpaces);
    TrimByKeeps(e.comment.GetOr(""), JavaSpaces);
    assert JavaTrim(rt.show(e.targetWeight)) == rt.show(e.targetWeight);
    RowReadsInHeaderOrder(ProgramHeader, row, n);
  }

  /** One exported row is imported as the exercise it came from. */
  lemma RowRoundTrip(e: ProgramExercise, n: int, orderIndex: int, rt: RealText)
    requires Exportable(e, rt)
    ensures ParseRow(ProgramHeader, CsvRecord(n, ProgramRow(e, rt)), orderIndex, rt)
            == Some(e.(id := 0, orderIndex := orderIndex))
  {
    var row := ProgramRow(e, rt);
    ExportedRowReadsBack(e, n, rt);
    var r := ParseRow(ProgramHeader, CsvRecord(n, row), orderIndex, rt);
    var f := ReadColumns(ProgramHeader, CsvRecord(n, row), Columns).value;
    assert f == row;
    assert f[2] == ShowInt(e.sets) && f[4] == rt.show(e.targetWeight) && f[5] == ShowInt(e.targetRpe);
    ParseShowInt(e.sets);
    ParseShowInt(e.targetRpe);
    if e.comment.None? {
      assert IsBlank(f[7]);
    }
  }

  /**
   * Exporting a program and importing the table again gives every exercise
   * back, in order, numbered from 0, and reports no error.
   */
  lemma {:induction false} ProgramRoundTrip(exercises: seq<ProgramExercise>, rt: RealText, number: nat -> int)
    requires forall k :: 0 <= k < |exercises| ==> Exportable(exercises[k], rt)
    ensures var input := ParseTable(ProgramTable(exercises, rt), number);
            && ReadableRecords(input.header, input.records) == input.records
            && RowErrors(input.header, input.records) == []
            && |input.records| == |exercises|
            && forall k :: 0 <= k < |exercises| ==>
                 ParseRow(input.header, input.records[k], k, rt) == Some(exercises[k].(id := 0, orderIndex := k))
  {
    var input := ParseTable(ProgramTable(exercises, rt), number);
    ProgramTableAt(exercises, rt);
    forall k | 0 <= k < |exercises|
      ensures ParseRow(input.header, input.records[k], k, rt) == Some(exercises[k].(id := 0, orderIndex := k))
    {
      RowRoundTrip(exercises[k], input.records[k].recordNumber, k, rt);
    }
    ReadableInputHasNoRowErrors(input.header, input.records);
  }

  /** The round trip as the two operations run one after the other. */
  method ExportThenImport(exercises: seq<ProgramExercise>, rt: RealText, number: nat -> int)
    returns (imported: ImportResult)
    requires forall k :: 0 <= k < |exercises| ==> Exportable(exercises[k], rt)
    ensures imported.errors == []
    ensures |imported.exercises| == |exercises|
    ensures forall k :: 0 <= k < |exercises| ==> imported.exercises[k] == exercises[k].(id := 0, orderIndex := k)
  {
    var rows := ExportProgram(exercises, rt);
    var input := ParseTable(rows, number);
    ProgramRoundTrip(exercises, rt, number);
    ImportedExercisesSpec(input.header, input.records, rt);
    imported := ImportFromCsv(input, rt);
  }
}
