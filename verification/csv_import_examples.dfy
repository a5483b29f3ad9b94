/**
 * The importer on the two files of the project's own tests: a well-formed
 * program, and a row whose set count is not a number.
 */
module CsvImportExamples {
  import opened KotlinText
  import opened Entities
  import opened CsvImporter
  import opened CsvExporter
  import opened CsvRoundTrip

  /**
   * A header with the importer's columns in the importer's order, as the
   * test files and the exporter's header have (`HeaderIndexOfColumn`).
   */
  predicate InColumnOrder(header: seq<string>) {
    forall c :: 0 <= c < |Columns| ==> HeaderIndex(header, Columns[c]) == Some(c)
  }

  /** The test files' header line is the exporter's header, which is in column order. */
  lemma ExportedHeaderInColumnOrder()
    ensures InColumnOrder(ProgramHeader)
  {
    forall c | 0 <= c < |Columns|
      ensures HeaderIndex(ProgramHeader, Columns[c]) == Some(c)
    {
      HeaderIndexOfColumn(c);
    }
  }

  /** Under such a header, a row of fields without space at their ends is read back as it is. */
  lemma {:induction false} ReadsAsWritten(header: seq<string>, row: seq<string>, n: int)
    requires InColumnOrder(header)
    requires |row| == |Columns| && forall c :: 0 <= c < |row| ==> Untrimmed(row[c])
    ensures ReadColumns(header, CsvRecord(n, row), Columns) == Some(row)
    ensures Readable(header, CsvRecord(n, row))
  {
    forall c | 0 <= c < |row|
      ensures JavaTrim(row[c]) == row[c]
    {
      TrimByKeeps(row[c], JavaSpaces);
    }
    RowReadsInHeaderOrder(header, row, n);
    ReadColumnsAll(header, CsvRecord(n, row), Columns);
  }

  /** A readable record alone gives one exercise, numbered 0, and no row error. */
  lemma {:induction false} OneRecord(header: seq<string>, rec: CsvRecord, rt: RealText)
    requires Readable(header, rec)
    ensures RowErrors(header, [rec]) == []
    ensures ImportedExercises(header, [rec], rt) == [ParseRow(header, rec, 0, rt).value]
  {
    assert [rec][..0] == [];
  }

  /** Two readable records give their exercises in order, numbered 0 and 1, and no row error. */
  lemma {:induction false} TwoRecords(header: seq<string>, first: CsvRecord, second: CsvRecord, rt: RealText)
    requires Readable(header, first) && Readable(header, second)
    ensures RowErrors(header, [first, second]) == []
    ensures ImportedExercises(header, [first, second], rt)
            == [ParseRow(header, first, 0, rt).value, ParseRow(header, second, 1, rt).value]
  {
    OneRecord(header, first, rt);
    assert [first, second][..1] == [first];
  }

  /**
   * "Lundi,Squat,invalid,10,80,8,Jambes," is imported, with no error, as a
   * squat of 3 sets (the default), RPE 8 and no comment.
   */
  lemma MissingSetsDefault(header: seq<string>, row: seq<string>, rt: RealText)
    requires InColumnOrder(header)
    requires row == ["Lundi", "Squat", "invalid", "10", "80", "8", "Jambes", ""]
    ensures var rec := CsvRecord(1, row);
            var imported := ImportedExercises(header, [rec], rt);
            && RowErrors(header, [rec]) == []
            && |imported| == 1
            && imported[0].name == "Squat" && imported[0].sets == 3 && imported[0].reps == "10"
            && imported[0].targetRpe == 8 && imported[0].comment.None?
  {
    var rec := CsvRecord(1, row);
    ReadsAsWritten(header, row, 1);
    OneRecord(header, rec, rt);
    NotANumber(row[2]);
    SmallNumbers();
    assert row[5] == "8" && IsBlank(row[7]);
  }

  /** The set counts and RPEs of the test files read as numbers. */
  lemma SmallNumbers()
    ensures ParseInt("4") == Some(4) && ParseInt("8") == Some(8)
  {
    ParseShowInt(4);
    assert ShowInt(4) == "4";
    ParseShowInt(8);
    assert ShowInt(8) == "8";
  }

  /** The first row of the parsing test: every field as written, 4 sets, 59 kg and RPE 8. */
  lemma ParsingTestFirstRow(header: seq<string>, row: seq<string>, rt: RealText)
    requires InColumnOrder(header)
    requires row == ["Mercredi", "Tirage vertical", "4", "8-10", "59", "8", "Dos", ""]
    requires rt.read("59") == Some(59.0)
    ensures Readable(header, CsvRecord(1, row))
    ensures var e := ParseRow(header, CsvRecord(1, row), 0, rt).value;
            && e.day == "Mercredi" && e.name == "Tirage vertical" && e.sets == 4 && e.reps == "8-10"
            && e.targetWeight == 59.0 && e.targetRpe == 8 && e.category == "Dos" && e.comment.None?
  {
    ReadsAsWritten(header, row, 1);
    SmallNumbers();
    assert row[2] == "4" && row[5] == "8" && IsBlank(row[7]);
  }

  /** The second row of the parsing test keeps its day and its comment. */
  lemma ParsingTestSecondRow(header: seq<string>, row: seq<string>, rt: RealText)
    requires InColumnOrder(header)
    requires row == ["Samedi", "Développé décliné", "4", "8-10", "55", "7", "Pecs", "Bas des pecs"]
    ensures Readable(header, CsvRecord(2, row))
    ensures var e := ParseRow(header, CsvRecord(2, row), 1, rt).value;
            e.day == "Samedi" && e.comment == Some("Bas des pecs")
  {
    ReadsAsWritten(header, row, 2);
    assert !IsBlank(row[7]) by {
      assert !IsWhitespace(row[7][0]);
    }
  }

  /**
   * The parsing test: its two rows import in order and with no error, the
   * first with the day, name, sets, reps, weight, RPE and category written,
   * the second with its day and comment.
   */
  lemma ParsingTest(header: seq<string>, row1: seq<string>, row2: seq<string>, rt: RealText)
    requires InColumnOrder(header)
    requires row1 == ["Mercredi", "Tirage vertical", "4", "8-10", "59", "8", "Dos", ""]
    requires row2 == ["Samedi", "Développé décliné", "4", "8-10", "55", "7", "Pecs", "Bas des pecs"]
    requires rt.read("59") == Some(59.0)
    ensures var imported := ImportedExercises(header, [CsvRecord(1, row1), CsvRecord(2, row2)], rt);
            && RowErrors(header, [CsvRecord(1, row1), CsvRecord(2, row2)]) == []
            && |imported| == 2
            && imported[0].day == "Mercredi" && imported[0].name == "Tirage vertical" && imported[0].sets == 4
            && imported[0].reps == "8-10" && imported[0].targetWeight == 59.0 && imported[0].targetRpe == 8
            && imported[0].category == "Dos"
            && imported[1].day == "Samedi" && imported[1].comment == Some("Bas des pecs")
  {
    ParsingTestFirstRow(header, row1, rt);
    ParsingTestSecondRow(header, row2, rt);
    TwoRecords(header, CsvRecord(1, row1), CsvRecord(2, row2), rt);
  }
}
