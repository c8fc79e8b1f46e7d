/**
 * `JsonDataContext`: loads users, exercises and workouts from three JSON files
 * of one directory, in that order, and answers the three queries over the
 * loaded workouts.
 *
 * The file system is a map from path to file contents, and JSON decoding is a
 * function parameter per record type that reports a list, `null`, or a
 * reader error.
 */
module DataContext {
  import opened Wrappers
  import opened Linq
  import opened Models
  import opened Pipeline
  import opened MonthGrouping
  import Queries

  /** What decoding one file's text yields: the records, `null`, or a reader error. */
  datatype Deserialized<T> = Parsed(records: seq<T>) | Null | Malformed(message: string)

  /** The exceptions loading can end in. */
  datatype LoadError =
    | FileNotFound(message: string)
    | DataIsNull(message: string)
    | JsonError(message: string)

  const UserFileName: string := "users.json"
  const ExerciseFileName: string := "exercises.json"
  const WorkoutFileName: string := "workouts.json"

  const UserDataIsNull: string := "User Data is null"
  const ExerciseDataIsNull: string := "Exercise Data is null"
  const WorkoutDataIsNull: string := "Workout Data is null"

  /** `$"{dir}\\{name}"`: the directory and the file name joined by one backslash. */
  function FilePath(dir: string, name: string): (p: string)
    ensures |p| == |dir| + 1 + |name|
    ensures p[..|dir|] == dir && p[|dir|] == '\\' && p[|dir| + 1..] == name
  {
    dir + "\\" + name
  }

  function NotFoundMessage(path: string): string {
    "The file: " + path + " does not exist."
  }

  /** The whole text of the file at `path`, or `FileNotFoundException` naming the path. */
  function ReadJsonData(files: map<string, string>, path: string): (r: Result<string, LoadError>)
    ensures r.Success? <==> path in files
    ensures r.Success? ==> r.value == files[path]
    ensures r.Failure? ==> r.error == FileNotFound(NotFoundMessage(path))
  {
    if path in files then Success(files[path]) else Failure(FileNotFound(NotFoundMessage(path)))
  }

  /** The file is there and decodes to a list. */
  predicate Loads<T>(files: map<string, string>, path: string, decode: string -> Deserialized<T>) {
    path in files && decode(files[path]).Parsed?
  }

  /** The error loading one file ends in, when `Loads` does not hold. */
  function LoadFailure<T>(files: map<string, string>, path: string, decode: string -> Deserialized<T>, nullMessage: string): LoadError
    requires !Loads(files, path, decode)
  {
    if path !in files then FileNotFound(NotFoundMessage(path))
    else match decode(files[path])
      case Null => DataIsNull(nullMessage)
      case Malformed(m) => JsonError(m)
  }

  /** One step of the constructor: read the file, decode it, and reject `null`. */
  function LoadList<T>(files: map<string, string>, path: string, decode: string -> Deserialized<T>, nullMessage: string)
    : (r: Result<seq<T>, LoadError>)
    ensures r.Success? <==> Loads(files, path, decode)
    ensures r.Success? ==> r.value == decode(files[path]).records
    ensures r.Failure? ==> r.error == LoadFailure(files, path, decode, nullMessage)
  {
    var text :- ReadJsonData(files, path);
    match decode(text)
    case Parsed(records) => Success(records)
    case Null => Failure(DataIsNull(nullMessage))
    case Malformed(m) => Failure(JsonError(m))
  }

  /** The three lists a loaded context holds. */
  datatype Snapshot = Snapshot(users: seq<User>, exercises: seq<Exercise>, workouts: seq<JsonWorkout>)

  /**
   * Loading as a value: users, then exercises, then workouts; the first file
   * that is missing, decodes to `null` or fails to decode ends the load with
   * its error, and the later files are not looked at.
   */
  function LoadSnapshot(
    dir: string, files: map<string, string>,
    du: string -> Deserialized<User>, de: string -> Deserialized<Exercise>, dw: string -> Deserialized<JsonWorkout>)
    : (r: Result<Snapshot, LoadError>)
    ensures var up, ep, wp := FilePath(dir, UserFileName), FilePath(dir, ExerciseFileName), FilePath(dir, WorkoutFileName);
      && (r.Success? <==> Loads(files, up, du) && Loads(files, ep, de) && Loads(files, wp, dw))
      && (r.Success? ==> r.value == Snapshot(du(files[up]).records, de(files[ep]).records, dw(files[wp]).records))
      && (!Loads(files, up, du) ==> r == Failure(LoadFailure(files, up, du, UserDataIsNull)))
      && (Loads(files, up, du) && !Loads(files, ep, de) ==> r == Failure(LoadFailure(files, ep, de, ExerciseDataIsNull)))
      && (Loads(files, up, du) && Loads(files, ep, de) && !Loads(files, wp, dw) ==>
            r == Failure(LoadFailure(files, wp, dw, WorkoutDataIsNull)))
  {
    var users :- LoadList(files, FilePath(dir, UserFileName), du, UserDataIsNull);
    var exercises :- LoadList(files, FilePath(dir, ExerciseFileName), de, ExerciseDataIsNull);
    var workouts :- LoadList(files, FilePath(dir, WorkoutFileName), dw, WorkoutDataIsNull);
    Success(Snapshot(users, exercises, workouts))
  }

  /** A missing users file is reported whatever the other two files hold. */
  lemma MissingUsersReportedFirst(
    dir: string, files: map<string, string>,
    du: string -> Deserialized<User>, de: string -> Deserialized<Exercise>, dw: string -> Deserialized<JsonWorkout>)
    requires FilePath(dir, UserFileName) !in files
    ensures LoadSnapshot(dir, files, du, de, dw) == Failure(FileNotFound("The file: " + dir + "\\users.json does not exist."))
  {
    assert NotFoundMessage(FilePath(dir, UserFileName)) == "The file: " + dir + "\\users.json does not exist.";
  }

  /** Loading does not depend on files other than the three it reads. */
  lemma LoadReadsOnlyItsFiles(
    dir: string, files: map<string, string>, other: map<string, string>,
    du: string -> Deserialized<User>, de: string -> Deserialized<Exercise>, dw: string -> Deserialized<JsonWorkout>)
    requires forall name :: name in {UserFileName, ExerciseFileName, WorkoutFileName} ==>
      (FilePath(dir, name) in files <==> FilePath(dir, name) in other) &&
      (FilePath(dir, name) in files ==> files[FilePath(dir, name)] == other[FilePath(dir, name)])
    ensures LoadSnapshot(dir, files, du, de, dw) == LoadSnapshot(dir, other, du, de, dw)
  {
    assert UserFileName in {UserFileName, ExerciseFileName, WorkoutFileName};
    assert ExerciseFileName in {UserFileName, ExerciseFileName, WorkoutFileName};
    assert WorkoutFileName in {UserFileName, ExerciseFileName, WorkoutFileName};
  }

  /** A loaded context: the three lists are fixed once loading succeeds. */
  class JsonDataContext {
    const jsonWorkouts: seq<JsonWorkout>
    const users: seq<User>
    const exercises: seq<Exercise>

    constructor (s: Snapshot)
      ensures users == s.users && exercises == s.exercises && jsonWorkouts == s.workouts
    {
      users := s.users;
      exercises := s.exercises;
      jsonWorkouts := s.workouts;
    }

    /** The constructor's three steps, each ending the load at its first error. */
    static method Load(
      dir: string, files: map<string, string>,
      du: string -> Deserialized<User>, de: string -> Deserialized<Exercise>, dw: string -> Deserialized<JsonWorkout>)
      returns (r: Result<JsonDataContext, LoadError>)
      ensures r.Success? <==> LoadSnapshot(dir, files, du, de, dw).Success?
      ensures r.Failure? ==> r.error == LoadSnapshot(dir, files, du, de, dw).error
      ensures r.Success? ==> fresh(r.value)
      ensures r.Success? ==>
        var s := LoadSnapshot(dir, files, du, de, dw).value;
        r.value.users == s.users && r.value.exercises == s.exercises && r.value.jsonWorkouts == s.workouts
    {
      var userJson := ReadJsonData(files, FilePath(dir, UserFileName));
      if userJson.Failure? {
        return Failure(userJson.error);
      }
      var users := du(userJson.value);
      if users.Null? {
        return Failure(DataIsNull(UserDataIsNull));
      } else if users.Malformed? {
        return Failure(JsonError(users.message));
      }

      var exerciseJson := ReadJsonData(files, FilePath(dir, ExerciseFileName));
      if exerciseJson.Failure? {
        return Failure(exerciseJson.error);
      }
      var exercises := de(exerciseJson.value);
      if exercises.Null? {
        return Failure(DataIsNull(ExerciseDataIsNull));
      } else if exercises.Malformed? {
        return Failure(JsonError(exercises.message));
      }

      var workoutJson := ReadJsonData(files, FilePath(dir, WorkoutFileName));
      if workoutJson.Failure? {
        return Failure(workoutJson.error);
      }
      var workouts := dw(workoutJson.value);
      if workouts.Null? {
        return Failure(DataIsNull(WorkoutDataIsNull));
      } else if workouts.Malformed? {
        return Failure(JsonError(workouts.message));
      }

      var context := new JsonDataContext(Snapshot(users.records, exercises.records, workouts.records));
      return Success(context);
    }

    /** `TotalWeight(filter)`: `Reps * Weight` summed over the sets whose workout and block pass the filter. */
    function TotalWeight(filter: Option<DataFilter>): (r: int)
      ensures r == Sum(Select(Where(AllSets(jsonWorkouts), Matches(filter)), Queries.Volume))
    {
      Queries.TotalWeightOfMatchingSets(jsonWorkouts, filter);
      Queries.TotalWeight(jsonWorkouts, filter)
    }

    /** `TotalWeightByMonth(filter)`: the monthly records, which add up to `TotalWeight(filter)`. */
    function TotalWeightByMonth(filter: Option<DataFilter>): (r: seq<MonthTotalWeight>)
      ensures Sum(Select(r, RecordTotal)) == TotalWeight(filter)
      ensures DistinctRecordKeys(r) && SortedByMonth(r)
      ensures forall k :: k in Select(r, RecordKey) <==> k in Select(Survivors(jsonWorkouts, filter), Queries.MonthOf)
      ensures forall x :: x in r ==> x.totalWeight == Queries.MonthVolume(Survivors(jsonWorkouts, filter), RecordKey(x))
    {
      Queries.MonthlyTotalsAddUp(jsonWorkouts, filter);
      Queries.MonthlyRecords(jsonWorkouts, filter);
      Queries.TotalWeightByMonth(jsonWorkouts, filter)
    }

    /** `Weight(filter)`: the weights of the sets that pass the filter and have `Reps > 0`. */
    function Weight(filter: Option<DataFilter>): (r: seq<int>)
      ensures r == Select(Where(Where(AllSets(jsonWorkouts), Matches(filter)), Queries.HasReps), Queries.SetWeight)
    {
      Queries.WeightOfMatchingSets(jsonWorkouts, filter);
      Queries.Weight(jsonWorkouts, filter)
    }
  }
}
