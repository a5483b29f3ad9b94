/**
 * Importing a training program from CSV text. The CSV parser itself (quoting,
 * line breaks, reading the stream) is not modelled: its output is given as a
 * `CsvInput`, the raw fields of the header line and of each record. What the
 * importer asks of the parser is modelled: the first line is the header,
 * header names match ignoring letter case, and every field is trimmed with
 * Java's `String.trim()`.
 */
module CsvImporter {
  import opened KotlinText
  import opened Entities

  const DayColumn: string := "Jour"
  const NameColumn: string := "Exercice"
  const SetsColumn: string := "Séries"
  const RepsColumn: string := "Reps"
  const WeightColumn: string := "Poids"
  const RpeColumn: string := "RPE"
  const CategoryColumn: string := "Catégorie"
  const CommentColumn: string := "Commentaire"

  /** The columns an imported row is read from. */
  const Columns: seq<string> :=
    [DayColumn, NameColumn, SetsColumn, RepsColumn, WeightColumn, RpeColumn, CategoryColumn, CommentColumn]

  /** One data record as the parser numbers it, with its raw fields. */
  datatype CsvRecord = CsvRecord(recordNumber: int, values: seq<string>)

  /**
   * What the parser delivers: nothing when it fails while opening the input
   * (reading the header included); otherwise the header fields, the records it
   * yields, and whether reading failed after the last of them.
   */
  datatype CsvInput =
    | Unreadable
    | Parsed(header: seq<string>, records: seq<CsvRecord>, readFailure: bool)

  /** "Error parsing row n: …" and "Error reading CSV file: …", without the exception text. */
  datatype ImportError = RowError(recordNumber: int) | ReadError

  datatype ImportResult = ImportResult(exercises: seq<ProgramExercise>, errors: seq<ImportError>)

  // ---------------------------------------------------------------------------
  // Header lookup

  /**
   * The letter case the header lookup ignores (`String.CASE_INSENSITIVE_ORDER`),
   * for A–Z and the Latin-1 capitals À–Þ; other characters are kept.
   */
  function FoldCase(c: char): char {
    if 'A' <= c <= 'Z' || ('À' <= c <= 'Þ' && c != '×') then (c as int + 32) as char else c
  }

  /** Two header names that the lookup treats as the same. */
  predicate SameName(a: string, b: string) {
    |a| == |b| && forall i :: 0 <= i < |a| ==> FoldCase(a[i]) == FoldCase(b[i])
  }

  /** A header field that names the column `name`. */
  predicate IsColumn(field: string, name: string) {
    SameName(JavaTrim(field), name)
  }

  /**
   * The last of the first `n` header fields that `named` accepts: the header
   * map keeps the last of the columns with the same name.
   */
  function LastColumnBelow(header: seq<string>, named: string -> bool, n: nat): (k: Option<nat>)
    requires n <= |header|
    ensures k.None? <==> forall j :: 0 <= j < n ==> !named(header[j])
    ensures k.Some? ==> k.value < n && named(header[k.value]) && forall j :: k.value < j < n ==> !named(header[j])
  {
    if n == 0 then None
    else if named(header[n - 1]) then Some(n - 1)
    else LastColumnBelow(header, named, n - 1)
  }

  /** The column of `name` in the header. */
  function HeaderIndex(header: seq<string>, name: string): Option<nat> {
    LastColumnBelow(header, field => IsColumn(field, name), |header|)
  }

  /**
   * The header lookup finds the last field that names the column once trimmed
   * and compared without letter case, and nothing when no field does.
   */
  lemma HeaderIndexIsLastNamed(header: seq<string>, name: string)
    ensures HeaderIndex(header, name).None? <==> forall j :: 0 <= j < |header| ==> !IsColumn(header[j], name)
    ensures var k := HeaderIndex(header, name);
            k.Some? ==> k.value < |header| && IsColumn(header[k.value], name)
                        && forall j :: k.value < j < |header| ==> !IsColumn(header[j], name)
  {
  }

  /**
   * `CSVRecord.get(name)`: the trimmed field under that column; `None` where
   * it throws, when no column has that name or the record is too short to
   * have that column.
   */
  function Get(header: seq<string>, rec: CsvRecord, name: string): Option<string> {
    var k := HeaderIndex(header, name);
    if k.Some? && k.value < |rec.values| then Some(JavaTrim(rec.values[k.value])) else None
  }

  /**
   * A lookup fails exactly when the header has no such column or the record
   * stops before it; a value it gives is the field under the column, trimmed,
   * so trimming it again changes nothing.
   */
  lemma GetIsTrimmedField(header: seq<string>, rec: CsvRecord, name: string)
    ensures var k := HeaderIndex(header, name);
            Get(header, rec, name).None? <==> k.None? || k.value >= |rec.values|
    ensures var k, v := HeaderIndex(header, name), Get(header, rec, name);
            v.Some? ==> v.value == JavaTrim(rec.values[k.value]) && JavaTrim(v.value) == v.value
  {
    var k := HeaderIndex(header, name);
    if k.Some? && k.value < |rec.values| {
      TrimByIdempotent(rec.values[k.value], JavaSpaces);
    }
  }

  /**
   * The values of a row of lookups, taken one after the other as the row is
   * read; `None` as soon as one of them fails.
   */
  function Gather(lookups: seq<Option<string>>): (fields: Option<seq<string>>)
    ensures fields.Some? ==> |fields.value| == |lookups|
  {
    if |lookups| == 0 then Some([])
    else
      var rest := Gather(lookups[1..]);
      if lookups[0].None? || rest.None? then None else Some([lookups[0].value] + rest.value)
  }

  /** Gathering succeeds exactly when every lookup does, and then keeps their values in order. */
  lemma {:induction false} GatherAll(lookups: seq<Option<string>>)
    ensures Gather(lookups).Some? <==> forall k :: 0 <= k < |lookups| ==> lookups[k].Some?
    ensures Gather(lookups).Some? ==> forall k :: 0 <= k < |lookups| ==> Gather(lookups).value[k] == lookups[k].value
  {
    if |lookups| > 0 {
      GatherAll(lookups[1..]);
      assert forall k :: 0 < k < |lookups| ==> lookups[1..][k - 1] == lookups[k];
    }
  }

  /** The lookups of the columns `names` in a record. */
  function Lookups(header: seq<string>, rec: CsvRecord, names: seq<string>): (lookups: seq<Option<string>>)
    ensures |lookups| == |names|
  {
    if |names| == 0 then [] else [Get(header, rec, names[0])] + Lookups(header, rec, names[1..])
  }

  /** The `k`-th lookup is that of the `k`-th name. */
  lemma {:induction false} LookupsAt(header: seq<string>, rec: CsvRecord, names: seq<string>)
    ensures forall k :: 0 <= k < |names| ==> Lookups(header, rec, names)[k] == Get(header, rec, names[k])
  {
    if |names| > 0 {
      LookupsAt(header, rec, names[1..]);
      assert forall k :: 0 < k < |names| ==> names[1..][k - 1] == names[k];
    }
  }

  /** The fields under `names`; `None` as soon as one of them cannot be read. */
  function ReadColumns(header: seq<string>, rec: CsvRecord, names: seq<string>): (fields: Option<seq<string>>)
    ensures fields.Some? ==> |fields.value| == |names|
  {
    Gather(Lookups(header, rec, names))
  }

  /** A record that gives an exercise. */
  predicate Readable(header: seq<string>, rec: CsvRecord) {
    forall c :: 0 <= c < |Columns| ==> Get(header, rec, Columns[c]).Some?
  }

  /** A row can be read exactly when every one of its columns can. */
  lemma ReadColumnsAll(header: seq<string>, rec: CsvRecord, names: seq<string>)
    ensures ReadColumns(header, rec, names).Some? <==> forall k :: 0 <= k < |names| ==> Get(header, rec, names[k]).Some?
    ensures ReadColumns(header, rec, names).Some? ==>
              forall k :: 0 <= k < |names| ==> ReadColumns(header, rec, names).value[k] == Get(header, rec, names[k]).value
  {
    GatherAll(Lookups(header, rec, names));
    LookupsAt(header, rec, names);
  }

  // ---------------------------------------------------------------------------
  // One row

  /**
   * The exercise of one record: `None` when reading one of its columns throws,
   * which the importer reports as an error for that row. A set count or RPE
   * that is not an `Int` becomes 3 or 8, a weight that is not a number 0.0,
   * and a blank comment no comment.
   */
  function ParseRow(header: seq<string>, rec: CsvRecord, orderIndex: int, rt: RealText): (r: Option<ProgramExercise>)
    ensures r.Some? <==> Readable(header, rec)
    ensures r.Some? ==> r.value.id == 0 && r.value.orderIndex == orderIndex
    ensures r.Some? && IsInt(orderIndex) ==> ValidProgramExercise(r.value)
    ensures r.Some? <==> ReadColumns(header, rec, Columns).Some?
    ensures r.Some? ==> var f := ReadColumns(header, rec, Columns).value;
              && r.value.day == f[0] && r.value.name == f[1] && r.value.reps == f[3] && r.value.category == f[6]
              && (ParseInt(f[2]).None? ==> r.value.sets == 3)
              && (ParseInt(f[2]).Some? ==> r.value.sets == ParseInt(f[2]).value)
              && (rt.read(f[4]).None? ==> r.value.targetWeight == 0.0)
              && (rt.read(f[4]).Some? ==> r.value.targetWeight == rt.read(f[4]).value)
              && (ParseInt(f[5]).None? ==> r.value.targetRpe == 8)
              && (ParseInt(f[5]).Some? ==> r.value.targetRpe == ParseInt(f[5]).value)
              && (r.value.comment.None? <==> IsBlank(f[7]))
              && (r.value.comment.Some? ==> r.value.comment.value == f[7])
  {
    ReadColumnsAll(header, rec, Columns);
    var fields := ReadColumns(header, rec, Columns);
    if fields.None? then None
    else
      var f := fields.value;
      Some(ProgramExercise(
        id := 0,
        day := f[0],
        name := f[1],
        sets := ParseInt(f[2]).GetOr(3),
        reps := f[3],
        targetWeight := rt.read(f[4]).GetOr(0.0),
        targetRpe := ParseInt(f[5]).GetOr(8),
        category := f[6],
        comment := if IsBlank(f[7]) then None else Some(f[7]),
        orderIndex := orderIndex))
  }

  // ---------------------------------------------------------------------------
  // The whole input

  /** The records that give an exercise, in order. */
  function ReadableRecords(header: seq<string>, records: seq<CsvRecord>): (rs: seq<CsvRecord>)
    ensures |rs| <= |records|
    ensures forall k :: 0 <= k < |rs| ==> Readable(header, rs[k]) && rs[k] in records
    ensures forall r :: r in records && Readable(header, r) ==> r in rs
  {
    if |records| == 0 then []
    else
      var last := records[|records| - 1];
      ReadableRecords(header, records[..|records| - 1]) + if Readable(header, last) then [last] else []
  }

  /** One row error per record that does not give an exercise, in order. */
  function RowErrors(header: seq<string>, records: seq<CsvRecord>): (es: seq<ImportError>)
    ensures |es| <= |records|
    ensures forall k :: 0 <= k < |es| ==> es[k].RowError?
  {
    if |records| == 0 then []
    else
      var last := records[|records| - 1];
      RowErrors(header, records[..|records| - 1]) + if Readable(header, last) then [] else [RowError(last.recordNumber)]
  }

  /**
   * The exercises made of the records, in order: each readable record gives
   * one, numbered by the count of exercises before it.
   */
  function ImportedExercises(header: seq<string>, records: seq<CsvRecord>, rt: RealText): seq<ProgramExercise> {
    if |records| == 0 then []
    else
      var init := ImportedExercises(header, records[..|records| - 1], rt);
      var row := ParseRow(header, records[|records| - 1], |init|, rt);
      if row.Some? then init + [row.value] else init
  }

  /** The `k`-th imported exercise is the one the `k`-th readable record gives with order index `k`. */
  lemma {:induction false} ImportedExercisesSpec(header: seq<string>, records: seq<CsvRecord>, rt: RealText)
    ensures var exercises, readable := ImportedExercises(header, records, rt), ReadableRecords(header, records);
            && |exercises| == |readable|
            && forall k :: 0 <= k < |readable| ==> ParseRow(header, readable[k], k, rt) == Some(exercises[k])
  {
    if |records| > 0 {
      var init, last := records[..|records| - 1], records[|records| - 1];
      ImportedExercisesSpec(header, init, rt);
      var exercises, readable := ImportedExercises(header, init, rt), ReadableRecords(header, init);
      if Readable(header, last) {
        var row := ParseRow(header, last, |exercises|, rt);
        forall k | 0 <= k < |readable| + 1
          ensures ParseRow(header, (readable + [last])[k], k, rt) == Some((exercises + [row.value])[k])
        {
          if k < |readable| {
            assert (readable + [last])[k] == readable[k];
            assert (exercises + [row.value])[k] == exercises[k];
          }
        }
      }
    }
  }

  /** Reading one more record extends the exercises or the errors by what that record gives. */
  lemma ImportStep(header: seq<string>, records: seq<CsvRecord>, i: int, rt: RealText)
    requires 0 <= i < |records|
    ensures var before := ImportedExercises(header, records[..i], rt);
            var row := ParseRow(header, records[i], |before|, rt);
            && ImportedExercises(header, records[..i + 1], rt) == before + (if row.Some? then [row.value] else [])
            && RowErrors(header, records[..i + 1])
               == RowErrors(header, records[..i]) + if row.Some? then [] else [RowError(records[i].recordNumber)]
  {
    assert records[..i + 1][..i] == records[..i];
  }

  /**
   * `importFromCsv`: every record is read in turn; a readable one adds an
   * exercise whose order index counts the exercises before it, an unreadable
   * one adds an error naming its record. A failure of the input adds one read
   * error after the exercises and errors gathered until then.
   */
  method ImportFromCsv(input: CsvInput, rt: RealText) returns (result: ImportResult)
    ensures input.Unreadable? ==> result == ImportResult([], [ReadError])
    ensures input.Parsed? ==>
              && result.exercises == ImportedExercises(input.header, input.records, rt)
              && result.errors == RowErrors(input.header, input.records) + if input.readFailure then [ReadError] else []
  {
    if input.Unreadable? {
      return ImportResult([], [ReadError]);
    }
    var header, records := input.header, input.records;
    var exercises: seq<ProgramExercise> := [];
    var errors: seq<ImportError> := [];
    var orderIndex := 0;
    var i := 0;
    while i < |records|
      invariant 0 <= i <= |records|
      invariant exercises == ImportedExercises(header, records[..i], rt) && orderIndex == |exercises|
      invariant errors == RowErrors(header, records[..i])
    {
      var rec := records[i];
      var row := ParseRow(header, rec, orderIndex, rt);
      ImportStep(header, records, i, rt);
      if row.Some? {
        exercises := exercises + [row.value];
        orderIndex := orderIndex + 1;
      } else {
        errors := errors + [RowError(rec.recordNumber)];
      }
      i := i + 1;
    }
    assert records[..i] == records;
    if input.readFailure {
      errors := errors + [ReadError];
    }
    return ImportResult(exercises, errors);
  }

  /** Every record gives either an exercise or a row error, never both. */
  lemma {:induction false} EachRecordAccountedFor(header: seq<string>, records: seq<CsvRecord>)
    ensures |ReadableRecords(header, records)| + |RowErrors(header, records)| == |records|
  {
    if |records| > 0 {
      EachRecordAccountedFor(header, records[..|records| - 1]);
    }
  }

  /** The row errors name exactly the unreadable records, in order. */
  lemma {:induction false} RowErrorsNameUnreadable(header: seq<string>, records: seq<CsvRecord>, n: int)
    ensures RowError(n) in RowErrors(header, records) <==>
              exists k :: 0 <= k < |records| && records[k].recordNumber == n && !Readable(header, records[k])
  {
    if |records| > 0 {
      var init := records[..|records| - 1];
      RowErrorsNameUnreadable(header, init, n);
      assert forall k :: 0 <= k < |init| ==> init[k] == records[k];
      if RowError(n) in RowErrors(header, records) && RowError(n) !in RowErrors(header, init) {
        assert records[|records| - 1].recordNumber == n;
      }
    }
  }

  /** An input whose every record is readable imports without errors, one exercise per record. */
  lemma {:induction false} ReadableInputHasNoRowErrors(header: seq<string>, records: seq<CsvRecord>)
    requires forall k :: 0 <= k < |records| ==> Readable(header, records[k])
    ensures ReadableRecords(header, records) == records
    ensures RowErrors(header, records) == []
  {
    if |records| > 0 {
      ReadableInputHasNoRowErrors(header, records[..|records| - 1]);
    }
  }
}
