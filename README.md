# JsonDataContext: a verified model of the workout query engine

The TrainingPeaks data-analytics core loads three JSON record sets from one
directory — users, exercises, and workouts that nest blocks that nest sets —
and answers three aggregate questions over the loaded workouts, each under an
optional `DataFilter` of three independent dimensions (user, inclusive date
range, exercise):

- `TotalWeight(filter)`: the sum of `Reps * Weight` over the surviving sets;
- `TotalWeightByMonth(filter)`: that sum per (Year, Month) of the workout's
  completion time, one `MonthTotalWeight` per month, ordered by `Month`;
- `Weight(filter)`: the `Weight` of every surviving set with `Reps > 0`, in
  workout, block, set order.

The user and date-range dimensions filter workouts, the exercise dimension
filters blocks, and sets survive when both their workout and their block do.
`DateRange` rejects an end before its start; `JsonSet.Weight` reads a missing
weight as 0.

Modules:

| file | module | contents |
|---|---|---|
| `wrappers.dfy` | `Wrappers` | `Option` and `Result` |
| `linq.dfy` | `Linq` | `Where`, `Select`, `Sum` on sequences, the subsequence relation, and their laws |
| `datetimes.dfy` | `DateTimes` | `DateTime` by calendar components and its order |
| `daterange.dfy` | `DateRanges` | `DateRange`, its checked constructor and `Contains` |
| `models.dfy` | `Models` | `JsonSet`, `Block`, `JsonWorkout`, `DataFilter`, `User`, `Exercise`, `MonthTotalWeight` |
| `pipeline.dfy` | `Pipeline` | the filter-and-flatten steps every query shares, and what survives them |
| `grouping.dfy` | `MonthGrouping` | `GroupBy` on (Year, Month), the per-group `Sum`, and `OrderBy` on `Month` |
| `queries.dfy` | `Queries` | the three queries and their properties |
| `datacontext.dfy` | `DataContext` | loading the three files, and the `JsonDataContext` class |

How the model is built:

- The three queries share steps 1 to 5 of their LINQ chain: `Where` on the
  user, `Where` on the date range, `SelectMany` to blocks, `Where` on the
  exercise, `SelectMany` to sets. `Pipeline.Survivors` is that chain, stage
  by stage, each `Where` applied only when its filter field is present. Each
  surviving set carries the workout and block it came from. This is how the
  C# anonymous `{ WorkoutYear, WorkoutMonth, Block }` objects carry the month.
- A reference definition, `Pipeline.Matches`, judges each set of
  `Pipeline.AllSets` by its own workout and block. The central lemma proves
  that the staged chain keeps exactly those sets, in the same order.
- `GroupBy` yields groups in the order their keys first appear.
  `OrderBy(m => m.Month)` is a stable sort on the month alone (insertion
  sort). Both are modelled as written.
- Loading is `DataContext.LoadSnapshot` as a value. The imperative
  `JsonDataContext.Load` does the constructor's three steps with early exits,
  and is proved to agree with it. The file system is a map from path to
  text. JSON deserialisation is a function parameter per record type. It
  yields the list, `null`, or a reader error.

## Model

| member | source | states |
|---|---|---|
| `DateRanges.NewDateRange` | TrainingPeaks.DataAnalytics.Core/Models/DateRange.cs:9-16 | fails with `ArgumentException("End date must be greater than or equal to start date.")` exactly when end is before start; otherwise keeps both bounds unchanged and the range is valid (start not after end) |
| `DateRanges.DateRange.Contains` | TrainingPeaks.DataAnalytics.Core/Models/DateRange.cs:19-22 | `Start <= date && date <= End`; its meaning (inclusive at both ends, true of both bounds, exactly one instant when `Start == End`) is stated by `DateRanges.ContainsMeansBetween`, `DateRanges.ContainsItsBounds` and `DateRanges.SingleInstantRange` |
| `DateRanges.ContainsItsBounds` | TrainingPeaks.DataAnalytics.Core/Models/DateRange.cs:9-22 | a successfully built range contains its start and its end, and a range with start equal to end can be built |
| `DateRanges.ContainsMeansBetween` | TrainingPeaks.DataAnalytics.Core/Models/DateRange.cs:19-22 | `Contains` is inclusive at both ends (before-or-equal each way); a range that contains anything is valid |
| `DateRanges.SingleInstantRange` | TrainingPeaks.DataAnalytics.Core/Models/DateRange.cs:11-22 | a range with `Start == End` is accepted and contains exactly that instant |
| `Models.JsonSet.Weight` | TrainingPeaks.DataAnalytics.Core/Models/JsonSet.cs:11-12 | the raw weight when present, 0 when absent |
| `Pipeline.Survivors` | TrainingPeaks.DataAnalytics.Core/DataContext/JsonDataContext.cs:54-79 | the staged chain: user `Where`, date `Where`, `SelectMany` to blocks, exercise `Where`, `SelectMany` to sets, each `Where` only when its field is present; which sets it keeps is stated by `Pipeline.SurvivorsAreMatchingSets` and `Pipeline.SurvivorsMembers` |
| `Pipeline.SurvivorsAreMatchingSets` | TrainingPeaks.DataAnalytics.Core/DataContext/JsonDataContext.cs:54-79 | the staged chain (user `Where`, date `Where`, `SelectMany` blocks, exercise `Where`, `SelectMany` sets) yields exactly the sets of all workouts whose workout passes the user and date dimensions and whose block passes the exercise dimension, in traversal order |
| `Pipeline.SurvivorsMembers` | TrainingPeaks.DataAnalytics.Core/DataContext/JsonDataContext.cs:56-79 | a set survives if and only if it belongs to a block of a workout of the data, that workout has the filter's user and is completed inside its range, and that block has its exercise (each only when present) |
| `Pipeline.NoFilterKeepsEverySet` | TrainingPeaks.DataAnalytics.Core/DataContext/JsonDataContext.cs:57-74 | a null filter, and a filter whose three fields are null, keep every set of every block of every workout |
| `Pipeline.NarrowerFilterKeepsSubsequence` | TrainingPeaks.DataAnalytics.Core/DataContext/JsonDataContext.cs:56-74 | a filter that imposes every dimension another imposes, with the same values, keeps a subsequence of the other's surviving sets |
| `MonthGrouping.GroupByYearMonth` | TrainingPeaks.DataAnalytics.Core/DataContext/JsonDataContext.cs:134-140 | one `MonthTotalWeight` per distinct (Year, Month), in first-occurrence order, with the group's `Sum`; its records are characterised by `MonthGrouping.GroupedRecords` and their totals by `MonthGrouping.GroupedTotalsAddUp` |
| `MonthGrouping.DistinctKeys` | TrainingPeaks.DataAnalytics.Core/DataContext/JsonDataContext.cs:134 | the group keys: each (Year, Month) that occurs, exactly once |
| `MonthGrouping.DistinctKeysInFirstOccurrenceOrder` | TrainingPeaks.DataAnalytics.Core/DataContext/JsonDataContext.cs:134 | the groups come in the order their (Year, Month) keys first occur among the entries |
| `MonthGrouping.InsertByMonth` | TrainingPeaks.DataAnalytics.Core/DataContext/JsonDataContext.cs:141 | one insertion step of the sort adds the record and loses none |
| `MonthGrouping.OrderByMonth` | TrainingPeaks.DataAnalytics.Core/DataContext/JsonDataContext.cs:141 | `OrderBy` returns a permutation of the records |
| `MonthGrouping.OrderIsSorted` | TrainingPeaks.DataAnalytics.Core/DataContext/JsonDataContext.cs:141 | the ordered records are non-decreasing in `Month`; `Year` plays no part |
| `MonthGrouping.OrderIsStable` | TrainingPeaks.DataAnalytics.Core/DataContext/JsonDataContext.cs:141 | records of the same month keep their relative order |
| `MonthGrouping.OrderKeepsDistinct` | TrainingPeaks.DataAnalytics.Core/DataContext/JsonDataContext.cs:141 | ordering neither merges nor duplicates (Year, Month) keys |
| `MonthGrouping.GroupAndOrder` | TrainingPeaks.DataAnalytics.Core/DataContext/JsonDataContext.cs:134-141 | `GroupBy`, the per-group `Select`, then `OrderBy(Month)`; stated by `MonthGrouping.GroupedRecords`, `MonthGrouping.GroupedTotalsAddUp` and `MonthGrouping.OrderIsStable` |
| `MonthGrouping.GroupedTotalsAddUp` | TrainingPeaks.DataAnalytics.Core/DataContext/JsonDataContext.cs:134-141 | the groups partition the entries: the records' totals add up to the entries' total |
| `MonthGrouping.GroupedRecords` | TrainingPeaks.DataAnalytics.Core/DataContext/JsonDataContext.cs:134-141 | one record per (Year, Month) that occurs and no other, no key twice, each record holding its group's sum, sorted by month, as many records as keys |
| `Queries.Volume` | TrainingPeaks.DataAnalytics.Core/DataContext/JsonDataContext.cs:80 | `set.Reps * set.Weight` of one surviving set; a set without a weight or with zero reps contributes 0 (`Queries.AbsentWeightAddsNothing`, `Queries.ZeroRepsAddNothing`) |
| `Queries.TotalWeight` | TrainingPeaks.DataAnalytics.Core/DataContext/JsonDataContext.cs:49-80 | the `Sum` of `Volume` over `Pipeline.Survivors`; its meaning is stated by `Queries.TotalWeightOfMatchingSets` and `Queries.TotalWeightWithoutFilter` |
| `Queries.TotalWeightWithoutFilter` | TrainingPeaks.DataAnalytics.Core/DataContext/JsonDataContext.cs:49-80 | with no filter (or all fields null) the total is `Reps * Weight` summed over every set of every block of every workout, by an independent nested sum |
| `Queries.TotalWeightOfNothing` | TrainingPeaks.DataAnalytics.Core/DataContext/JsonDataContext.cs:78-80 | no workouts, or no surviving sets, total 0 |
| `Queries.TotalWeightOfMatchingSets` | TrainingPeaks.DataAnalytics.Core/DataContext/JsonDataContext.cs:54-80 | the total is the sum of `Reps * Weight` over exactly the sets that pass every present dimension at its level |
| `Queries.AbsentWeightAddsNothing` | TrainingPeaks.DataAnalytics.Core/DataContext/JsonDataContext.cs:78-80 | dropping the surviving sets without a weight leaves the total unchanged |
| `Queries.ZeroRepsAddNothing` | TrainingPeaks.DataAnalytics.Core/DataContext/JsonDataContext.cs:78-80 | dropping the surviving sets with zero reps leaves the total unchanged |
| `Queries.TotalWeightByMonth` | TrainingPeaks.DataAnalytics.Core/DataContext/JsonDataContext.cs:91-142 | the surviving sets projected to (Year, Month, `Volume`) then `GroupAndOrder`; its records are stated by `Queries.MonthlyRecords` and `Queries.MonthlyTotalsAddUp` |
| `Queries.MonthlyTotalsAddUp` | TrainingPeaks.DataAnalytics.Core/DataContext/JsonDataContext.cs:91-142 | for every filter, the monthly totals add up to `TotalWeight` under the same filter |
| `Queries.MonthlyRecords` | TrainingPeaks.DataAnalytics.Core/DataContext/JsonDataContext.cs:114-142 | a record for a (Year, Month) exactly when some surviving set's workout was completed in it, no (Year, Month) twice, each record's total the sum of `Reps * Weight` over that month's surviving sets, non-decreasing by month |
| `Queries.MonthOrderIgnoresYear` | TrainingPeaks.DataAnalytics.Core/DataContext/JsonDataContext.cs:141 | workouts in December 2016 and January 2017 give the January 2017 record first |
| `Queries.Weight` | TrainingPeaks.DataAnalytics.Core/DataContext/JsonDataContext.cs:152-191 | `Where(Reps > 0)` then `Select(Weight)` over `Pipeline.Survivors`; its meaning is stated by `Queries.WeightOfMatchingSets` |
| `Queries.WeightOfMatchingSets` | TrainingPeaks.DataAnalytics.Core/DataContext/JsonDataContext.cs:158-191 | the result lists, in traversal order, the weight of each set that passes the filter and has `Reps > 0`, one entry per such set and nothing else |
| `Queries.AbsentWeightListedAsZero` | TrainingPeaks.DataAnalytics.Core/DataContext/JsonDataContext.cs:187-191 | a surviving set with `Reps > 0` and no weight shows up as 0 |
| `Queries.NarrowerFilterListsFewerWeights` | TrainingPeaks.DataAnalytics.Core/DataContext/JsonDataContext.cs:160-191 | a filter that imposes more dimensions lists a subsequence of the weights |
| `Queries.FilteredWeightsAreSubsequence` | TrainingPeaks.DataAnalytics.Core/DataContext/JsonDataContext.cs:158-191 | any filter lists a subsequence of the unfiltered weights |
| `Queries.OneSetSnapshot` | TrainingPeaks.DataAnalytics.Core/DataContext/JsonDataContext.cs:49-191 | one set of 5 reps at 100 in January 2016: total 500, one January 2016 record of 500, weights `[100]`, an unknown exercise totals 0, the matching full filter lists `[100]` |
| `Queries.ZeroRepSet` | TrainingPeaks.DataAnalytics.Core/DataContext/JsonDataContext.cs:187-191 | a set of 0 reps at 50 adds 0 to the total and is absent from the weights |
| `DataContext.FilePath` | TrainingPeaks.DataAnalytics.Core/DataContext/JsonDataContext.cs:20 | the path is the directory, one backslash, and the file name |
| `DataContext.ReadJsonData` | TrainingPeaks.DataAnalytics.Core/DataContext/JsonDataContext.cs:38-47 | the file's text when it exists; otherwise `FileNotFoundException` with "The file: {path} does not exist." |
| `DataContext.LoadList` | TrainingPeaks.DataAnalytics.Core/DataContext/JsonDataContext.cs:20-22 | succeeds exactly when the file exists and decodes to a list, with that list; otherwise the missing-file, null-data or reader error |
| `DataContext.LoadSnapshot` | TrainingPeaks.DataAnalytics.Core/DataContext/JsonDataContext.cs:16-36 | succeeds exactly when all three files exist and decode to lists, holding those lists; otherwise fails with the error of the first of users, exercises, workouts that does not load |
| `DataContext.MissingUsersReportedFirst` | TrainingPeaks.DataAnalytics.Core/DataContext/JsonDataContext.cs:19-22 | a missing `users.json` is the reported error whatever the other files hold |
| `DataContext.LoadReadsOnlyItsFiles` | TrainingPeaks.DataAnalytics.Core/DataContext/JsonDataContext.cs:16-36 | the load depends only on the three files it reads |
| `DataContext.JsonDataContext.Load` | TrainingPeaks.DataAnalytics.Core/DataContext/JsonDataContext.cs:16-36 | the step-by-step constructor succeeds exactly when `LoadSnapshot` does, with its error or a fresh context holding its lists |
| `DataContext.JsonDataContext.TotalWeight` | TrainingPeaks.DataAnalytics.Core/DataContext/JsonDataContext.cs:49-89 | the loaded context's total is the sum of `Reps * Weight` over the sets of its workouts that pass the filter |
| `DataContext.JsonDataContext.TotalWeightByMonth` | TrainingPeaks.DataAnalytics.Core/DataContext/JsonDataContext.cs:91-150 | one record for each (Year, Month) in which some set of its workouts survives the filter and for no other, no (Year, Month) twice, each record's total the sum of `Reps * Weight` over that month's surviving sets, sorted by month, and the records add up to `TotalWeight(filter)` |
| `DataContext.JsonDataContext.Weight` | TrainingPeaks.DataAnalytics.Core/DataContext/JsonDataContext.cs:152-199 | the weights, in traversal order, of the sets of its workouts that pass the filter and have `Reps > 0` |

## Left out

- Reading files and parsing JSON: the file system is a map from path to text and each deserialiser is a parameter, so Newtonsoft's mapping of JSON fields and its reader errors are not modelled; the `?? string.Empty` after `ReadJsonData` cannot apply because the read never yields null.
- An empty list: the code accepts a data file holding `[]` and fails only when deserialisation gives `null` (for instance an empty file); the model follows the code, not the stricter reading that an empty record list is fatal.
- Logging: the `Log.Information` calls have no effect on results.
- Exception wrapping in the three queries: the `catch` blocks only rewrap an exception with an operation-specific message, and no fault can arise in the modelled queries over loaded data, since null `JsonWorkouts`, `Blocks` or `Sets` lists are not modelled.
- `Queries.TotalWeight`: integers are unbounded, so 32-bit overflow of `Reps * Weight` and the checked `Sum` are not modelled.
- `DateTimes.DateTime`: .NET `DateTime` is a framework type; it is modelled by calendar components with their lexicographic order, which is the order of its ticks for the values .NET can hold; the model does not restrict the components to those values (year 1 to 9999, a real calendar day, a time of day under 24 hours), and `Kind` and time zones play no part.
- `DateRange.ToString` only formats dates for display.
- The console program (`Program.cs`) wires fixed questions to the engine and prints results.
- `User`, `Exercise` and `MonthTotalWeight` are plain records; `Exercise.cs` and `MonthTotalWeight.cs` are not part of this model, so their fields follow the documented shapes `{id, title}` and `{Year, Month, TotalWeight}`.
- The unit tests read a data directory that is not part of this model; their expected totals are not restated.
- Repeatability of queries: the context's lists are `const` and the queries are functions of them, so repeated and interleaved queries give the same results by construction, with no separate statement.
