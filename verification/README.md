# TPlanner core in Dafny

TPlanner is an Android strength-training planner. This project models its
core logic and proves properties of it:

- **The workout session engine** (`WorkoutViewModel`):
  - a class whose `uiState` field is replaced step by step when a day is
    loaded, a field is edited, a set is validated, the workout is finished or
    the summary is dismissed;
  - the pure steps it uses, in module `WorkoutState`: seeding an exercise
    card, `updateExerciseState`, the validated-set snapshot, `parseReps`, the
    records a finished workout stores, and the comparison with the previous
    session;
  - the two loops of `finishWorkout`, as module-level methods proved against
    `SessionRecords`, `CalculateTotalVolume` and `SumRpe`.
- **The metric library** (`ProgressCalculator`):
  - volume, total volume and average RPE;
  - the progressive-overload index;
  - the Epley and Brzycki one-repetition-maximum estimates;
  - the stagnation detector, a method with its loop;
  - the per-category volume and the per-exercise personal record.
- **The CSV import** (`CsvImporter`): the record loop of `importFromCsv`,
  specified by the fold `ImportedExercises` and by `RowErrors`. The header
  lookup is modelled as the importer configures the parser: letter case
  ignored, Java `String.trim()` on every field, and the last of duplicate
  columns kept.
- **The CSV export** (`CsvExporter`): the header and the row of each
  exported program exercise or performance record. Both loops are proved
  against a table function.
- **The export/import round trip** (`CsvRoundTrip`): importing an exported
  program gives every exercise back, with a fresh order index and id 0.
- **The importer on the project's own test files** (`CsvImportExamples`).
- **The Kotlin library behaviour these rely on** (`KotlinText`):
  - `toIntOrNull` and `Int.toString`;
  - `isWhitespace`, `trim`, Java's `trim`, `isBlank` and `split`;
  - `Double.toString` and `toDoubleOrNull`, kept abstract as a `RealText`
    pair of functions.

The store is not modelled. What it answers becomes parameters: the inserted
session's id, the day's program, the last record of each exercise, the
stored session, and the day's sessions newest first. What the view model
writes to the store comes back as results.

When reading the CSV stream fails after some records, `importFromCsv`
keeps the exercises and row errors gathered so far and adds one read error
(`CsvImporter.kt:62-66`); `ImportFromCsv` does the same.

## Model

| member | source | states |
|---|---|---|
| Entities.NewSession | app/src/main/java/com/example/tplanner/ui/viewmodel/WorkoutViewModel.kt:77 | The new session has the day and the time given; it is not completed and has zero volume and average RPE. |
| DummyData.FindIn | app/src/main/java/com/example/tplanner/ui/viewmodel/WorkoutViewModel.kt:119 | `find` gives nothing exactly when no session has that day; otherwise it gives a session of that day from the list. |
| DummyData.DemoDays | app/src/main/java/com/example/tplanner/data/DummyData.kt:4-19 | Only "Mercredi" and "Samedi" have a demonstration program; Saturday's has two exercises. |
| KotlinText.ParseInt | app/src/main/java/com/example/tplanner/utils/CsvImporter.kt:36 | `toIntOrNull` over ASCII digits only gives values that fit in an `Int`; with no minus sign in the text, the value is not negative. |
| KotlinText.NotANumber | app/src/main/java/com/example/tplanner/utils/CsvImporter.kt:36 | Text whose first character is ASCII and neither a digit nor a sign is not an `Int` to `toIntOrNull`. |
| KotlinText.ShowInt | app/src/main/java/com/example/tplanner/utils/CsvExporter.kt:29 | `Int.toString` is non-empty, ends in a digit, and starts with a digit or a minus sign. |
| KotlinText.ParseShowInt | app/src/main/java/com/example/tplanner/utils/CsvExporter.kt:29 | Every `Int` reads back from its own text with `toIntOrNull`. |
| KotlinText.TrimBySpec | app/src/main/java/com/example/tplanner/ui/viewmodel/WorkoutViewModel.kt:267 | A trim keeps one stretch of the input. That stretch neither starts nor ends with a dropped character, and only dropped characters lie before and after it. |
| KotlinText.TrimByKeeps | app/src/main/java/com/example/tplanner/ui/viewmodel/WorkoutViewModel.kt:267 | Text without a dropped character at either end is left unchanged by the trim. |
| KotlinText.TrimByIdempotent | app/src/main/java/com/example/tplanner/ui/viewmodel/WorkoutViewModel.kt:267 | Trimming twice gives the same text as trimming once. |
| KotlinText.Split | app/src/main/java/com/example/tplanner/ui/viewmodel/WorkoutViewModel.kt:267 | `split('-')` gives at least one part, and no part contains the delimiter. |
| KotlinText.JoinSplit | app/src/main/java/com/example/tplanner/ui/viewmodel/WorkoutViewModel.kt:267 | Split loses nothing: joining the parts with the delimiter gives the input back. |
| KotlinText.SixtyTextReadsBack | app/src/main/java/com/example/tplanner/utils/CsvExporter.kt:31 | A printer and reader pair exists for which a weight (60.0, and 0.0) reads back from its text while another value (1.0) does not: `ReadsBack` is a condition on one value. |
| ProgressCalculator.CalculateVolume | app/src/main/java/com/example/tplanner/utils/ProgressCalculator.kt:29-31 | A one-set record's volume is weight × reps. With non-negative factors, the volume is non-negative. |
| ProgressCalculator.CalculateTotalVolume | app/src/main/java/com/example/tplanner/utils/ProgressCalculator.kt:36-38 | The total of non-negative volumes is non-negative. |
| ProgressCalculator.TotalVolumeAppend | app/src/main/java/com/example/tplanner/utils/ProgressCalculator.kt:36-38 | The total volume of two lists joined is the sum of their totals. |
| ProgressCalculator.VolumeExample | app/src/test/java/com/example/tplanner/TplannerTests.kt:60-73 | 100 kg × 10 reps × 4 sets is 4000. |
| ProgressCalculator.SumRpeBounds | app/src/main/java/com/example/tplanner/utils/ProgressCalculator.kt:43-46 | The RPE sum lies between count × smallest RPE and count × largest RPE. |
| ProgressCalculator.CalculateAverageRpe | app/src/main/java/com/example/tplanner/utils/ProgressCalculator.kt:43-46 | Zero for no records. Otherwise the average times the count is the RPE sum, and the average lies between the smallest and the largest RPE. |
| ProgressCalculator.AverageRpeExample | app/src/test/java/com/example/tplanner/TplannerTests.kt:109-118 | RPE 8, 9 and 7 average to 8. |
| ProgressCalculator.SessionVolume | app/src/main/java/com/example/tplanner/utils/ProgressCalculator.kt:15-16 | Sessions whose volumes are all non-negative sum to a non-negative volume, and all non-positive to a non-positive one. |
| ProgressCalculator.CalculateProgressiveOverloadIndex | app/src/main/java/com/example/tplanner/utils/ProgressCalculator.kt:11-23 | Zero when the previous volume is not positive. Otherwise the index is the percentage growth: previous × (1 + index/100) = current. |
| ProgressCalculator.OverloadIndexSign | app/src/main/java/com/example/tplanner/utils/ProgressCalculator.kt:18-22 | With a positive previous volume, the index is positive, zero or negative exactly when the volume grew, held or fell. |
| ProgressCalculator.OverloadIndexExample | app/src/test/java/com/example/tplanner/TplannerTests.kt:76-92 | 9500 against 8500 gives 200/17, between 11.76 and 11.77. |
| ProgressCalculator.Estimate1RMEpley | app/src/main/java/com/example/tplanner/utils/ProgressCalculator.kt:52-54 | Zero reps give the weight. A non-negative weight with non-negative reps never estimates below the weight. |
| ProgressCalculator.Estimate1RMBrzycki | app/src/main/java/com/example/tplanner/utils/ProgressCalculator.kt:60-62 | From 37 reps on, and at 1 rep, the estimate is the weight. For 1 rep or more it is never below a non-negative weight. |
| ProgressCalculator.EpleyBrzyckiAgreeAtTenReps | app/src/test/java/com/example/tplanner/TplannerTests.kt:94-106 | At 10 reps both formulas give 4/3 of the weight (133.3 for 100 kg). |
| ProgressCalculator.Volumes | app/src/main/java/com/example/tplanner/utils/ProgressCalculator.kt:73 | One volume per record, in order. |
| ProgressCalculator.DetectStagnation | app/src/main/java/com/example/tplanner/utils/ProgressCalculator.kt:68-88 | The loop's verdict is `IsStagnant`: at least four records, and a mean of the last three percentage changes below the threshold. A pair whose earlier volume is not positive counts as 0. |
| ProgressCalculator.StagnationIgnoresEarlierHistory | app/src/main/java/com/example/tplanner/utils/ProgressCalculator.kt:71-73 | Records before the last four never change the verdict. |
| ProgressCalculator.StagnationMonotoneInThreshold | app/src/main/java/com/example/tplanner/utils/ProgressCalculator.kt:86-87 | A series stagnant at some threshold is stagnant at every higher threshold. |
| ProgressCalculator.StagnationFollowsEachChange | app/src/main/java/com/example/tplanner/utils/ProgressCalculator.kt:76-87 | If every one of the last three changes is at least the threshold, the series is not stagnant; if every one is below it, the series is stagnant. |
| ProgressCalculator.StagnationExamples | app/src/test/java/com/example/tplanner/TplannerTests.kt:120-146 | At the default threshold of 3 % (`DefaultStagnationThreshold`, the default of `detectStagnation` at ProgressCalculator.kt:68), 100/101/101.5/102 kg is stagnant and 100/105/110/115 kg is not. |
| ProgressCalculator.CalculateVolumeByCategory | app/src/main/java/com/example/tplanner/utils/ProgressCalculator.kt:93-96 | When no record has a negative volume, no category total is negative. `VolumeByCategoryKeys` and `VolumeByCategoryValue` give its keys and values. |
| ProgressCalculator.VolumeByCategoryKeys | app/src/main/java/com/example/tplanner/utils/ProgressCalculator.kt:93-96 | The keys are exactly the categories present. |
| ProgressCalculator.VolumeByCategoryValue | app/src/main/java/com/example/tplanner/utils/ProgressCalculator.kt:93-96 | Each category's entry is the total volume of exactly that category's records. |
| ProgressCalculator.VolumeByCategoryExample | app/src/test/java/com/example/tplanner/TplannerTests.kt:148-159 | The test's records give 3000 for "Jambes" and 800 for "Pecs". |
| ProgressCalculator.FindPersonalRecords | app/src/main/java/com/example/tplanner/utils/ProgressCalculator.kt:101-106 | Each entry is a record of the list, filed under its own exercise name. `PersonalRecordsKeys` and `PersonalRecordsValue` give its keys and which record it keeps. |
| ProgressCalculator.PersonalRecordsKeys | app/src/main/java/com/example/tplanner/utils/ProgressCalculator.kt:101-106 | The keys are exactly the exercise names present. |
| ProgressCalculator.PersonalRecordsValue | app/src/main/java/com/example/tplanner/utils/ProgressCalculator.kt:101-106 | Each exercise's entry is one of its records of greatest weight. Every earlier record of that exercise is strictly lighter, so the first heaviest wins. |
| ProgressCalculator.PersonalRecordKept | app/src/main/java/com/example/tplanner/utils/ProgressCalculator.kt:104 | A record that the next record does not outweigh remains the first heaviest. |
| ProgressCalculator.PersonalRecordReplaced | app/src/main/java/com/example/tplanner/utils/ProgressCalculator.kt:104 | A strictly heavier record becomes the first heaviest. |
| ProgressCalculator.PersonalRecordFirst | app/src/main/java/com/example/tplanner/utils/ProgressCalculator.kt:104 | An exercise's first record is its first heaviest so far. |
| CsvImporter.LastColumnBelow | app/src/main/java/com/example/tplanner/utils/CsvImporter.kt:24-28 | The column found is the last with that name. None is found exactly when no column has the name. |
| CsvImporter.HeaderIndexIsLastNamed | app/src/main/java/com/example/tplanner/utils/CsvImporter.kt:34-41 | The header lookup finds the last field that names the column once trimmed and compared without letter case, and nothing exactly when no field names it. |
| CsvImporter.GetIsTrimmedField | app/src/main/java/com/example/tplanner/utils/CsvImporter.kt:34-41 | `record.get` fails exactly when the header has no such column or the record stops before it. A value it gives is the field under that column, trimmed, so trimming it again changes nothing. |
| CsvImporter.GatherAll | app/src/main/java/com/example/tplanner/utils/CsvImporter.kt:34-41 | The reads succeed exactly when every lookup does, and then give the lookups' values in order. |
| CsvImporter.LookupsAt | app/src/main/java/com/example/tplanner/utils/CsvImporter.kt:34-41 | The k-th lookup reads the k-th column name. |
| CsvImporter.ReadColumnsAll | app/src/main/java/com/example/tplanner/utils/CsvImporter.kt:34-41 | A row is read exactly when every one of its columns is, and field k is the value of column k. |
| CsvImporter.ParseRow | app/src/main/java/com/example/tplanner/utils/CsvImporter.kt:33-58 | A row gives an exercise exactly when it is readable; otherwise the loop reports it. The exercise has id 0, the order index given, and `Int` fields that fit. Day, name, reps and category are the fields as read. A set count or RPE that is not an `Int` becomes 3 or 8, otherwise it is the number read; a weight that does not read as a number becomes 0.0. The comment is absent exactly when its field is blank, and otherwise is that field. |
| CsvImporter.ReadableRecords | app/src/main/java/com/example/tplanner/utils/CsvImporter.kt:32-59 | The records kept are readable records of the input, every readable record of the input is kept, and there are no more of them than records. |
| CsvImporter.RowErrors | app/src/main/java/com/example/tplanner/utils/CsvImporter.kt:56-58 | There are at most as many errors as records, and each one is a row error. |
| CsvImporter.ImportedExercisesSpec | app/src/main/java/com/example/tplanner/utils/CsvImporter.kt:31-54 | The k-th imported exercise is the one the k-th readable record gives, with order index k. A failing row does not use an index. |
| CsvImporter.ImportStep | app/src/main/java/com/example/tplanner/utils/CsvImporter.kt:32-59 | One more record extends either the exercises or the errors by what that record gives. |
| CsvImporter.ImportFromCsv | app/src/main/java/com/example/tplanner/utils/CsvImporter.kt:15-67 | An unreadable input gives no exercise and one read error. Otherwise the loop gives `ImportedExercises` and `RowErrors`, then one read error if the stream failed. |
| CsvImporter.EachRecordAccountedFor | app/src/main/java/com/example/tplanner/utils/CsvImporter.kt:32-59 | Exercises plus row errors equal the number of records. |
| CsvImporter.RowErrorsNameUnreadable | app/src/main/java/com/example/tplanner/utils/CsvImporter.kt:56-58 | A row error names record n exactly when some record numbered n is unreadable. |
| CsvImporter.ReadableInputHasNoRowErrors | app/src/main/java/com/example/tplanner/utils/CsvImporter.kt:32-59 | When every record is readable, every record gives an exercise and there is no row error. |
| CsvExporter.ProgramRow | app/src/main/java/com/example/tplanner/utils/CsvExporter.kt:26-35 | One field per header column, in header order. Day, name, reps and category are printed as they are, and a missing comment as an empty field. What the numbers read back as is `RowRoundTrip`. |
| CsvExporter.ProgramTable | app/src/main/java/com/example/tplanner/utils/CsvExporter.kt:16-36 | The header row first, then one row per exercise. |
| CsvExporter.ProgramTableAt | app/src/main/java/com/example/tplanner/utils/CsvExporter.kt:25-36 | Row k + 1 is exercise k's row, so the rows keep the list's order. |
| CsvExporter.ExportProgram | app/src/main/java/com/example/tplanner/utils/CsvExporter.kt:16-40 | The loop prints exactly `ProgramTable`. |
| CsvExporter.PerformanceRow | app/src/main/java/com/example/tplanner/utils/CsvExporter.kt:52-62 | One field per header column (nine), in header order: the formatted date, then name and category as they are. A missing rest time or comment is an empty field; a present comment is printed as it is. |
| CsvExporter.PerformanceTable | app/src/main/java/com/example/tplanner/utils/CsvExporter.kt:42-63 | The header row first, then one row per record. |
| CsvExporter.PerformanceTableAt | app/src/main/java/com/example/tplanner/utils/CsvExporter.kt:51-63 | Row k + 1 is record k's row, so the rows keep the list's order. |
| CsvExporter.ExportPerformanceHistory | app/src/main/java/com/example/tplanner/utils/CsvExporter.kt:42-67 | The loop prints exactly `PerformanceTable`. |
| CsvExporter.PerformanceRowReadsBack | app/src/main/java/com/example/tplanner/utils/CsvExporter.kt:52-62 | For a record whose weight text reads back, every number reads back from the row. An empty rest-time field means there was no rest time. |
| CsvRoundTrip.ParseTable | app/src/main/java/com/example/tplanner/utils/CsvImporter.kt:21-29 | The parser reads the first printed row as the header and each later row as one record with the same fields. |
| CsvRoundTrip.HeaderMatchesColumns | app/src/main/java/com/example/tplanner/utils/CsvExporter.kt:21 | The exported header is exactly the list of column names the importer reads, in the same order. |
| CsvRoundTrip.ColumnsDistinct | app/src/main/java/com/example/tplanner/utils/CsvImporter.kt:34-41 | No two imported column names are equal when letter case is ignored. |
| CsvRoundTrip.HeaderIndexOfColumn | app/src/main/java/com/example/tplanner/utils/CsvExporter.kt:21 | In the exported header, each imported column is found at its own position. |
| CsvRoundTrip.SquatIsExportable | app/src/main/java/com/example/tplanner/utils/CsvExporter.kt:26-35 | A 60 kg squat without comment, printed by `SixtyText`, is `Exportable`, so the round-trip lemmas have inputs. |
| CsvRoundTrip.RowReadsInHeaderOrder | app/src/main/java/com/example/tplanner/utils/CsvImporter.kt:34-41 | Under a header in column order, a row without edge spaces is read back as it is. |
| CsvRoundTrip.ExportedRowReadsBack | app/src/main/java/com/example/tplanner/utils/CsvExporter.kt:26-35 | The importer reads an exported row back field for field, when the exercise is `Exportable`: its weight text reads back and its texts have no edge spaces. |
| CsvRoundTrip.RowRoundTrip | app/src/main/java/com/example/tplanner/utils/CsvImporter.kt:33-54 | One exported row of an `Exportable` exercise imports as that exercise. Only the id (0) and the order index differ. |
| CsvRoundTrip.ProgramRoundTrip | app/src/main/java/com/example/tplanner/utils/CsvExporter.kt:25-36 | An exported program of `Exportable` exercises imports with every record readable and no row error. Exercise k comes back with order index k. |
| CsvRoundTrip.ExportThenImport | app/src/main/java/com/example/tplanner/utils/CsvImporter.kt:15-67 | Running the export and then the import on `Exportable` exercises gives no error and every exercise back, in order, numbered from 0. |
| CsvImportExamples.ExportedHeaderInColumnOrder | app/src/test/java/com/example/tplanner/TplannerTests.kt:16 | The header line of the test files, which is the exporter's, puts every column the importer reads at its own position. |
| CsvImportExamples.ReadsAsWritten | app/src/main/java/com/example/tplanner/utils/CsvImporter.kt:34-41 | Under such a header, a row of eight fields without edge spaces is readable and read as written. |
| CsvImportExamples.OneRecord | app/src/main/java/com/example/tplanner/utils/CsvImporter.kt:32-59 | A readable record alone imports as one exercise with order index 0 and no row error. |
| CsvImportExamples.TwoRecords | app/src/main/java/com/example/tplanner/utils/CsvImporter.kt:32-59 | Two readable records import as their two exercises in order, with order indexes 0 and 1, and no row error. |
| CsvImportExamples.MissingSetsDefault | app/src/test/java/com/example/tplanner/TplannerTests.kt:41-54 | "Lundi,Squat,invalid,10,80,8,Jambes," imports with no error as one squat of 3 sets, 10 reps, RPE 8 and no comment. |
| CsvImportExamples.ParsingTestFirstRow | app/src/test/java/com/example/tplanner/TplannerTests.kt:27-34 | The first test row imports as Mercredi, Tirage vertical, 4 sets, "8-10", 59 kg (when "59" reads as 59.0), RPE 8, Dos, no comment. |
| CsvImportExamples.ParsingTestSecondRow | app/src/test/java/com/example/tplanner/TplannerTests.kt:36-38 | The second test row keeps its day, Samedi, and its comment, "Bas des pecs". |
| CsvImportExamples.ParsingTest | app/src/test/java/com/example/tplanner/TplannerTests.kt:14-39 | The parsing test's file imports as two exercises, with no error, and with the values the test checks. |
| WorkoutState.InitialUiState | app/src/main/java/com/example/tplanner/ui/viewmodel/WorkoutViewModel.kt:30-39 | The screen starts with no card, loading, no summary and no session. |
| WorkoutState.NewExerciseState | app/src/main/java/com/example/tplanner/ui/viewmodel/WorkoutViewModel.kt:42-51 | A fresh card shows the program's target weight and RPE as text, its reps and its comment (or ""), an empty rest time, no validated set and no last performance. |
| WorkoutState.SeedExerciseState | app/src/main/java/com/example/tplanner/ui/viewmodel/WorkoutViewModel.kt:84-95 | The reps are always the program's, and the comment is the program's (or ""). With a last record, the weight and RPE are its numbers as text, the rest time its rest time as text (or "" when it has none), and `lastPerformance` its weight, reps and RPE. Without one, the card is the fresh card of the program's targets. |
| WorkoutState.LastRecord | app/src/main/java/com/example/tplanner/ui/viewmodel/WorkoutViewModel.kt:85 | The last record is found exactly when the exercise has one, and it is that one. |
| WorkoutState.SeedExercises | app/src/main/java/com/example/tplanner/ui/viewmodel/WorkoutViewModel.kt:84-96 | One card per planned exercise, in order, each seeded from that exercise's last record. |
| WorkoutState.DemoProgramExercise | app/src/main/java/com/example/tplanner/ui/viewmodel/WorkoutViewModel.kt:126-135 | The demonstration exercise's day, name, sets, reps, weight, RPE, category and comment become the planned exercise's day, name, sets, reps, targets, category and comment; id and order index are 0. |
| WorkoutState.DemoExercises | app/src/main/java/com/example/tplanner/ui/viewmodel/WorkoutViewModel.kt:124-139 | One fresh card per demonstration exercise, in order. |
| WorkoutState.WithDemoSession | app/src/main/java/com/example/tplanner/ui/viewmodel/WorkoutViewModel.kt:118-145 | A day without a demonstration program changes nothing. Otherwise the day, the cards, loading (false) and the session change, and nothing else does. |
| WorkoutState.UpdateExerciseState | app/src/main/java/com/example/tplanner/ui/viewmodel/WorkoutViewModel.kt:270-277 | Every card of that exercise gets the action, every other card stays as it was, and the length is kept. |
| WorkoutState.FindExercise | app/src/main/java/com/example/tplanner/ui/viewmodel/WorkoutViewModel.kt:168 | Nothing is found exactly when no card has the name. Otherwise the result is the first card with the name. |
| WorkoutState.SetField | app/src/main/java/com/example/tplanner/ui/viewmodel/WorkoutViewModel.kt:147-165 | Only the edited field takes the typed text. The exercise, the validated sets, the last performance and the other fields are unchanged. |
| WorkoutState.EditCards | app/src/main/java/com/example/tplanner/ui/viewmodel/WorkoutViewModel.kt:147-165 | Cards of the named exercise get the field edit; every other card is unchanged. |
| WorkoutState.AppendSet | app/src/main/java/com/example/tplanner/ui/viewmodel/WorkoutViewModel.kt:175 | Every card of the exercise gets the set appended at the end of its sets, with the editable fields not reset. Other cards are unchanged. |
| WorkoutState.Snapshot | app/src/main/java/com/example/tplanner/ui/viewmodel/WorkoutViewModel.kt:169-174 | The set holds the card's weight, RPE and reps. It has a rest time exactly when the card's rest time is not blank. |
| WorkoutState.TrimKeepsOut | app/src/main/java/com/example/tplanner/ui/viewmodel/WorkoutViewModel.kt:267 | Trimming never brings a '-' into a part. |
| WorkoutState.NumbersAmong | app/src/main/java/com/example/tplanner/ui/viewmodel/WorkoutViewModel.kt:267 | `mapNotNull` keeps at most one number per part. Parts without '-' give non-negative numbers. |
| WorkoutState.RepsNumbers | app/src/main/java/com/example/tplanner/ui/viewmodel/WorkoutViewModel.kt:267 | The numbers found in a reps text are never negative. |
| WorkoutState.ParseReps | app/src/main/java/com/example/tplanner/ui/viewmodel/WorkoutViewModel.kt:266-268 | The reps are never negative, and 0 when no part is a number. |
| WorkoutState.ParseRepsIsMean | app/src/main/java/com/example/tplanner/ui/viewmodel/WorkoutViewModel.kt:266-268 | The result is the mean rounded down: count × n ≤ sum < count × (n + 1). |
| WorkoutState.SplitRange | app/src/main/java/com/example/tplanner/ui/viewmodel/WorkoutViewModel.kt:267 | "8-10" splits into "8" and "10". |
| WorkoutState.TenReadsBack | app/src/main/java/com/example/tplanner/ui/viewmodel/WorkoutViewModel.kt:267 | "10" is already trimmed and parses as 10. |
| WorkoutState.RangeNumbers | app/src/main/java/com/example/tplanner/ui/viewmodel/WorkoutViewModel.kt:267 | The numbers of "8-10" are 8 and 10. |
| WorkoutState.ParseRepsRange | app/src/main/java/com/example/tplanner/ui/viewmodel/WorkoutViewModel.kt:266-268 | "8-10" gives 9. |
| WorkoutState.ParseRepsSingle | app/src/main/java/com/example/tplanner/ui/viewmodel/WorkoutViewModel.kt:266-268 | "10" gives 10. |
| WorkoutState.ParseRepsEmpty | app/src/main/java/com/example/tplanner/ui/viewmodel/WorkoutViewModel.kt:266-268 | "" gives 0, since the average of no numbers is NaN and its `toInt` is 0. |
| WorkoutState.SetRecord | app/src/main/java/com/example/tplanner/ui/viewmodel/WorkoutViewModel.kt:189-211 | A set's record is one set of the session, stamped with the time given, with the exercise's name and category. Its reps are `ParseReps` of the reps text. Its weight is the number read, or 0.0 when the text is not a number; its RPE is the `Int` read, or 0. A rest time is stored exactly when the set has one, as that text read as an `Int`. The comment is the card's exactly when it is not blank. |
| WorkoutState.RecordsOf | app/src/main/java/com/example/tplanner/ui/viewmodel/WorkoutViewModel.kt:189-212 | One record per set. |
| WorkoutState.RecordsOfAt | app/src/main/java/com/example/tplanner/ui/viewmodel/WorkoutViewModel.kt:189-212 | The j-th record is made of the j-th set. |
| WorkoutState.CardRecords | app/src/main/java/com/example/tplanner/ui/viewmodel/WorkoutViewModel.kt:189-212 | One record per validated set of the card. |
| WorkoutState.CardRecordsAt | app/src/main/java/com/example/tplanner/ui/viewmodel/WorkoutViewModel.kt:189-212 | The card's j-th record is the record of its j-th validated set. |
| WorkoutState.SessionRecords | app/src/main/java/com/example/tplanner/ui/viewmodel/WorkoutViewModel.kt:188-212 | A finished workout stores exactly one record per validated set (`TotalSets`). |
| WorkoutState.AppendSetCount | app/src/main/java/com/example/tplanner/ui/viewmodel/WorkoutViewModel.kt:167-177 | Validating adds one set per card of that exercise: one set in all for a single card, none for an unknown name. |
| WorkoutState.EditKeepsSets | app/src/main/java/com/example/tplanner/ui/viewmodel/WorkoutViewModel.kt:147-165 | A field edit never adds or drops a validated set. |
| WorkoutState.SessionRecordsBelongToSession | app/src/main/java/com/example/tplanner/ui/viewmodel/WorkoutViewModel.kt:198-210 | Every stored record is one set of the session and has the name and category of one of the cards. |
| WorkoutState.SeededSetRepeatsLastRecord | app/src/main/java/com/example/tplanner/ui/viewmodel/WorkoutViewModel.kt:84-95 | An unedited set on a seeded card is stored with the last record's weight (when that weight's text reads back), RPE and rest time, and the program's reps. |
| WorkoutState.NewSetRepeatsTargets | app/src/main/java/com/example/tplanner/ui/viewmodel/WorkoutViewModel.kt:42-51 | An unedited set on a fresh card is stored with the program's target weight (when its text reads back) and RPE, and no rest time. |
| WorkoutState.CompareVolume | app/src/main/java/com/example/tplanner/ui/viewmodel/WorkoutViewModel.kt:238-249 | A change is reported exactly when there are two sessions and the second has a positive volume; previous × (1 + change/100) = total. Otherwise the total alone is reported. |
| WorkoutState.CompareVolumeIsPercentChange | app/src/main/java/com/example/tplanner/ui/viewmodel/WorkoutViewModel.kt:238-241 | The reported change is `((total − previous)/previous) × 100`, the same percentage change the stagnation detector uses. |
| Workout.WorkoutViewModel.constructor | app/src/main/java/com/example/tplanner/ui/viewmodel/WorkoutViewModel.kt:53-58 | The initial screen state, with no store. |
| Workout.WorkoutViewModel.InitRepository | app/src/main/java/com/example/tplanner/ui/viewmodel/WorkoutViewModel.kt:60-69 | The store is opened, and the screen state is unchanged. |
| Workout.WorkoutViewModel.LoadSession | app/src/main/java/com/example/tplanner/ui/viewmodel/WorkoutViewModel.kt:71-116 | With a store: a new session is inserted, and the day's program is shown seeded, under the new id, if it is non-empty; otherwise the demonstration day is shown under that id. Without a store: the demonstration day is shown without a session. |
| Workout.WorkoutViewModel.LoadFromDummyData | app/src/main/java/com/example/tplanner/ui/viewmodel/WorkoutViewModel.kt:118-145 | The state becomes `WithDemoSession` of the old one. |
| Workout.WorkoutViewModel.OnFieldChange | app/src/main/java/com/example/tplanner/ui/viewmodel/WorkoutViewModel.kt:147-165 | Only the cards change, by `EditCards`. |
| Workout.WorkoutViewModel.ValidateSet | app/src/main/java/com/example/tplanner/ui/viewmodel/WorkoutViewModel.kt:167-177 | An unknown exercise changes nothing. Otherwise the first card's snapshot is appended to that exercise's cards. |
| Workout.WorkoutViewModel.FinishWorkout | app/src/main/java/com/example/tplanner/ui/viewmodel/WorkoutViewModel.kt:179-260 | The intended finish. Without a session, nothing changes. Otherwise: the stored records are `SessionRecords`; the state gets their total volume, their average RPE and the comparison, and opens the summary; and the stored session is written back completed with those totals. |
| Workout.WorkoutViewModel.FinishWorkoutAsWritten | app/src/main/java/com/example/tplanner/ui/viewmodel/WorkoutViewModel.kt:179-260 | `finishWorkout` as written: the same records are stored and the same session update is made, but with a store the state is left as it was, so no totals, no comparison and no summary. See "## Findings". |
| Workout.WorkoutViewModel.DismissSummaryDialog | app/src/main/java/com/example/tplanner/ui/viewmodel/WorkoutViewModel.kt:262-264 | Only the summary flag changes. |
| Workout.CollectRecords | app/src/main/java/com/example/tplanner/ui/viewmodel/WorkoutViewModel.kt:188-213 | The loops give `SessionRecords`. Their running totals are that list's total volume and RPE sum, and the set count is its length and the number of validated sets. |
| Workout.CollectSetRecords | app/src/main/java/com/example/tplanner/ui/viewmodel/WorkoutViewModel.kt:189-212 | The inner loop appends one record per set and keeps the running totals equal to those of the records. |
| Workout.AppendOne | app/src/main/java/com/example/tplanner/ui/viewmodel/WorkoutViewModel.kt:194-196 | Adding a one-set record adds weight × reps to the total volume and its RPE to the RPE sum. |
| Workout.FinishThroughStore | app/src/main/java/com/example/tplanner/ui/viewmodel/WorkoutViewModel.kt:234 | A day loaded through the store, a set validated, then the workout finished: the summary is open afterwards exactly when the intended finish is used, not the one as written. |

## Left out

- The store, the Room DAOs and the database are not modelled; their answers are parameters and their writes are results.
- `loadSession` collects a Room flow that never completes (`WorkoutViewModel.kt:81`). Each new emission would seed the cards again; the model takes one emission. `finishWorkout` collects such a flow too (`WorkoutViewModel.kt:234`), and there the code after it never runs; see "## Findings".
- Coroutines (`viewModelScope.launch`) and `StateFlow` are not modelled: each operation runs to completion on its own.
- `String.format` and the French label texts are not modelled. `volumeComparison` is kept as the value it prints (`VolumeComparison`), and `lastPerformance` as the three numbers it shows (`LastPerformance`).
- Doubles are exact reals. `Double.toString` and `toDoubleOrNull` are abstract functions. The round trip and the seeding lemmas assume, only for the weight involved, that its text reads back and has no edge spaces (`ReadsBack`); Kotlin's pair meets this for values that are doubles. Rounding of reals that are not doubles is not modelled.
- The clock (`Date().time`) and the export's date formatter are parameters.
- WorkoutState.SetRecord: every record of one finish is stamped with the same time `now`. In the source each `PerformanceRecord` reads the clock when it is built (`PerformanceRecord.kt:19`), so their timestamps may differ by a few milliseconds.
- The CSV printer's quoting and line ends, and the parser's tokenising, are not modelled. The importer sees the fields of each record, and the parser's record numbering is a parameter of `ParseTable`.
- KotlinText.ParseInt: only ASCII digits are read; `toIntOrNull` also accepts the other Unicode decimal digits (fullwidth, Arabic-Indic and the like), so a Séries, RPE, rest time or reps field written with them reads as a number in the source and as no number in the model. `KotlinText.NotANumber` is stated only for text whose first character is ASCII.
- CsvImporter.LastColumnBelow: the lookup ignores case for A–Z and the Latin-1 capitals only, not all of Unicode.
- CsvImporter.ImportFromCsv: a header that the parser rejects (for example a duplicate name in a form it refuses) counts as an input failure while opening (`Unreadable`). The parser's exact rules are not modelled.
- Workout.CollectRecords: `setCount` is a mathematical integer; the `Int` overflow after 2^31 sets is not modelled.
- Workout.WorkoutViewModel.OnFieldChange: the five handlers `onWeightChange` … `onCommentChange` are one method with a `Field` argument.
- Workout.WorkoutViewModel.LoadSession: a day with neither a program nor a demonstration day keeps `isLoading` true, as in the source.
- Workout.WorkoutViewModel.FinishWorkout: with a session there is always a store (`Valid`), so the `repository?.` branches that skip the writes are not reachable and are not modelled separately.
- `addFreeExercise`, called by the workout screen, does not exist in the view model and is not modelled.

## Findings

| source | as written | input that shows it | evidently intended | confidence | as-written member | corrected member |
|---|---|---|---|---|---|---|
| app/src/main/java/com/example/tplanner/ui/viewmodel/WorkoutViewModel.kt:234 | `finishWorkout` collects the day's sessions from the store with `collect`. That flow (`SessionHistoryDao.kt:21-22`) never completes, so the summary update at lines 251-258 never runs. | Open the store, load a day with a program, validate a set, finish the workout (`Workout.FinishThroughStore` with `asWritten`): the summary stays closed, and the totals and the comparison are never shown. | The summary opens with the total volume, the average RPE and the comparison with the previous session, reading one list of sessions (for example with `first()`). | high; not executed | Workout.WorkoutViewModel.FinishWorkoutAsWritten | Workout.WorkoutViewModel.FinishWorkout |
