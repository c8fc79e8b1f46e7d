/**
 * The filter/flatten pipeline that `TotalWeight`, `TotalWeightByMonth` and
 * `Weight` share: keep workouts by user, then by completion date, flatten to
 * blocks, keep blocks by exercise, flatten to sets. Each flattened element
 * carries the records it came from, so that the filters can be stated on it.
 */
module Pipeline {
  import opened Wrappers
  import opened Linq
  import opened DateTimes
  import opened DateRanges
  import opened Models

  /** A block and the workout it belongs to: what `SelectMany(workout => workout.Blocks, ...)` yields. */
  datatype BlockEntry = BlockEntry(workout: JsonWorkout, block: Block)

  /** A set, with the block and the workout it belongs to. */
  datatype SetEntry = SetEntry(workout: JsonWorkout, block: Block, jsonSet: JsonSet)

  /** `filter?.UserId`. */
  function UserIdOf(filter: Option<DataFilter>): Option<int> {
    if filter.Some? then filter.value.userId else None
  }

  /** `filter?.DateRange`. */
  function DateRangeOf(filter: Option<DataFilter>): Option<DateRange> {
    if filter.Some? then filter.value.dateRange else None
  }

  /** `filter?.ExerciseId`. */
  function ExerciseIdOf(filter: Option<DataFilter>): Option<int> {
    if filter.Some? then filter.value.exerciseId else None
  }

  // ---------------------------------------------------------------------------
  // The stages, in the order the queries apply them

  function WithUser(id: int): JsonWorkout -> bool {
    (w: JsonWorkout) => w.userId == id
  }

  function CompletedWithin(range: DateRange): JsonWorkout -> bool {
    (w: JsonWorkout) => NotAfter(range.start, w.dateTimeCompleted) && NotAfter(w.dateTimeCompleted, range.end)
  }

  function WithExercise(id: int): BlockEntry -> bool {
    (be: BlockEntry) => be.block.exerciseId == id
  }

  /** Step 1: the `Where` on `UserId`, applied only when the filter has one. */
  function FilterByUser(ws: seq<JsonWorkout>, filter: Option<DataFilter>): seq<JsonWorkout> {
    match UserIdOf(filter)
    case None => ws
    case Some(id) => Where(ws, WithUser(id))
  }

  /** Step 2: the `Where` on `DateTimeCompleted`, applied only when the filter has a range. */
  function FilterByDateRange(ws: seq<JsonWorkout>, filter: Option<DataFilter>): seq<JsonWorkout> {
    match DateRangeOf(filter)
    case None => ws
    case Some(range) => Where(ws, CompletedWithin(range))
  }

  function PairWithWorkout(w: JsonWorkout): Block -> BlockEntry {
    (b: Block) => BlockEntry(w, b)
  }

  function PairWithBlock(be: BlockEntry): JsonSet -> SetEntry {
    (s: JsonSet) => SetEntry(be.workout, be.block, s)
  }

  /** Step 3: every block of every workout, in order. */
  function FlattenBlocks(ws: seq<JsonWorkout>): seq<BlockEntry> {
    if ws == [] then [] else Select(ws[0].blocks, PairWithWorkout(ws[0])) + FlattenBlocks(ws[1..])
  }

  /** Step 4: the `Where` on `ExerciseId`, applied only when the filter has one. */
  function FilterByExercise(bes: seq<BlockEntry>, filter: Option<DataFilter>): seq<BlockEntry> {
    match ExerciseIdOf(filter)
    case None => bes
    case Some(id) => Where(bes, WithExercise(id))
  }

  /** Step 5: every set of every block, in order. */
  function FlattenSets(bes: seq<BlockEntry>): seq<SetEntry> {
    if bes == [] then [] else Select(bes[0].block.sets, PairWithBlock(bes[0])) + FlattenSets(bes[1..])
  }

  /** The sets that reach the aggregation step. */
  function Survivors(ws: seq<JsonWorkout>, filter: Option<DataFilter>): seq<SetEntry> {
    FlattenSets(FilterByExercise(FlattenBlocks(FilterByDateRange(FilterByUser(ws, filter), filter)), filter))
  }

  // ---------------------------------------------------------------------------
  // What the stages mean

  /** Every set of every block of every workout, in workout, block, set order. */
  function AllSets(ws: seq<JsonWorkout>): seq<SetEntry> {
    FlattenSets(FlattenBlocks(ws))
  }

  /** The workout-level dimensions: user and inclusive date range; an absent one holds. */
  predicate WorkoutMatches(filter: Option<DataFilter>, w: JsonWorkout) {
    && (UserIdOf(filter).None? || w.userId == UserIdOf(filter).value)
    && (DateRangeOf(filter).None? || DateRangeOf(filter).value.Contains(w.dateTimeCompleted))
  }

  /** The block-level dimension: exercise; absent, it holds. */
  predicate BlockMatches(filter: Option<DataFilter>, b: Block) {
    ExerciseIdOf(filter).None? || b.exerciseId == ExerciseIdOf(filter).value
  }

  /** All three dimensions, each judged at its own level of the hierarchy. */
  function Matches(filter: Option<DataFilter>): SetEntry -> bool {
    (e: SetEntry) => WorkoutMatches(filter, e.workout) && BlockMatches(filter, e.block)
  }

  /** `g` imposes every dimension `f` imposes, with the same value. */
  predicate Narrows(g: Option<DataFilter>, f: Option<DataFilter>) {
    && (UserIdOf(f).Some? ==> UserIdOf(g) == UserIdOf(f))
    && (DateRangeOf(f).Some? ==> DateRangeOf(g) == DateRangeOf(f))
    && (ExerciseIdOf(f).Some? ==> ExerciseIdOf(g) == ExerciseIdOf(f))
  }

  // ---------------------------------------------------------------------------
  // Each stage as an unconditional Where

  function UserStage(filter: Option<DataFilter>): JsonWorkout -> bool {
    (w: JsonWorkout) => UserIdOf(filter).None? || w.userId == UserIdOf(filter).value
  }

  function DateStage(filter: Option<DataFilter>): JsonWorkout -> bool {
    (w: JsonWorkout) => DateRangeOf(filter).None? || CompletedWithin(DateRangeOf(filter).value)(w)
  }

  function ExerciseStage(filter: Option<DataFilter>): BlockEntry -> bool {
    (be: BlockEntry) => ExerciseIdOf(filter).None? || be.block.exerciseId == ExerciseIdOf(filter).value
  }

  function OfWorkout(p: JsonWorkout -> bool): BlockEntry -> bool {
    (be: BlockEntry) => p(be.workout)
  }

  function OfBlock(p: BlockEntry -> bool): SetEntry -> bool {
    (e: SetEntry) => p(BlockEntry(e.workout, e.block))
  }

  lemma UserStageIsWhere(ws: seq<JsonWorkout>, filter: Option<DataFilter>)
    ensures FilterByUser(ws, filter) == Where(ws, UserStage(filter))
  {
    match UserIdOf(filter)
    case None => WhereAll(ws, UserStage(filter));
    case Some(id) => WhereCongruent(ws, WithUser(id), UserStage(filter));
  }

  lemma DateStageIsWhere(ws: seq<JsonWorkout>, filter: Option<DataFilter>)
    ensures FilterByDateRange(ws, filter) == Where(ws, DateStage(filter))
  {
    match DateRangeOf(filter)
    case None => WhereAll(ws, DateStage(filter));
    case Some(range) => WhereCongruent(ws, CompletedWithin(range), DateStage(filter));
  }

  lemma ExerciseStageIsWhere(bes: seq<BlockEntry>, filter: Option<DataFilter>)
    ensures FilterByExercise(bes, filter) == Where(bes, ExerciseStage(filter))
  {
    match ExerciseIdOf(filter)
    case None => WhereAll(bes, ExerciseStage(filter));
    case Some(id) => WhereCongruent(bes, WithExercise(id), ExerciseStage(filter));
  }

  /** The blocks of one workout are paired with that workout. */
  lemma BlocksOfOneWorkout(w: JsonWorkout, x: BlockEntry)
    requires x in Select(w.blocks, PairWithWorkout(w))
    ensures x.workout == w && x.block in w.blocks
  {
    var s := Select(w.blocks, PairWithWorkout(w));
    var i :| 0 <= i < |s| && s[i] == x;
  }

  /** The sets of one block entry are paired with its workout and block. */
  lemma SetsOfOneBlock(be: BlockEntry, x: SetEntry)
    requires x in Select(be.block.sets, PairWithBlock(be))
    ensures x.workout == be.workout && x.block == be.block && x.jsonSet in be.block.sets
  {
    var s := Select(be.block.sets, PairWithBlock(be));
    var i :| 0 <= i < |s| && s[i] == x;
  }

  /** Filtering workouts before flattening is filtering their blocks after it. */
  lemma {:induction false} FlattenBlocksWhere(ws: seq<JsonWorkout>, p: JsonWorkout -> bool)
    ensures FlattenBlocks(Where(ws, p)) == Where(FlattenBlocks(ws), OfWorkout(p))
  {
    if ws != [] {
      var w := ws[0];
      var head := Select(w.blocks, PairWithWorkout(w));
      FlattenBlocksWhere(ws[1..], p);
      WhereConcat(head, FlattenBlocks(ws[1..]), OfWorkout(p));
      forall x | x in head ensures OfWorkout(p)(x) == p(w) {
        BlocksOfOneWorkout(w, x);
      }
      if p(w) {
        WhereAll(head, OfWorkout(p));
        var kept := Where(ws, p);
        assert kept[0] == w && kept[1..] == Where(ws[1..], p);
      } else {
        WhereNone(head, OfWorkout(p));
        assert Where(ws, p) == Where(ws[1..], p);
      }
    }
  }

  /** Filtering blocks before flattening is filtering their sets after it. */
  lemma {:induction false} FlattenSetsWhere(bes: seq<BlockEntry>, p: BlockEntry -> bool)
    ensures FlattenSets(Where(bes, p)) == Where(FlattenSets(bes), OfBlock(p))
  {
    if bes != [] {
      var be := bes[0];
      var head := Select(be.block.sets, PairWithBlock(be));
      FlattenSetsWhere(bes[1..], p);
      WhereConcat(head, FlattenSets(bes[1..]), OfBlock(p));
      forall x | x in head ensures OfBlock(p)(x) == p(be) {
        SetsOfOneBlock(be, x);
      }
      if p(be) {
        WhereAll(head, OfBlock(p));
        var kept := Where(bes, p);
        assert kept[0] == be && kept[1..] == Where(bes[1..], p);
      } else {
        WhereNone(head, OfBlock(p));
        assert Where(bes, p) == Where(bes[1..], p);
      }
    }
  }

  /** The stage predicates, lifted to a set and combined, are the three matching dimensions. */
  function StagedMatches(filter: Option<DataFilter>): SetEntry -> bool {
    OfBlock(And(OfWorkout(And(UserStage(filter), DateStage(filter))), ExerciseStage(filter)))
  }

  lemma StagedMatchesAreMatches(filter: Option<DataFilter>, e: SetEntry)
    ensures StagedMatches(filter)(e) == Matches(filter)(e)
  {
    var be := BlockEntry(e.workout, e.block);
    assert StagedMatches(filter)(e)
      == (UserStage(filter)(e.workout) && DateStage(filter)(e.workout) && ExerciseStage(filter)(be));
    assert UserStage(filter)(e.workout) <==> UserIdOf(filter).None? || e.workout.userId == UserIdOf(filter).value;
    if DateRangeOf(filter).Some? {
      var range := DateRangeOf(filter).value;
      assert CompletedWithin(range)(e.workout) <==> range.Contains(e.workout.dateTimeCompleted);
    }
    assert ExerciseStage(filter)(be) <==> BlockMatches(filter, e.block);
  }

  /**
   * The staged pipeline is one conjunctive filter over every set, applied at the
   * right levels: a set survives exactly when its workout matches the user and
   * date dimensions and its block matches the exercise dimension, and the
   * survivors keep the traversal order.
   */
  lemma SurvivorsAreMatchingSets(ws: seq<JsonWorkout>, filter: Option<DataFilter>)
    ensures Survivors(ws, filter) == Where(AllSets(ws), Matches(filter))
  {
    var us, ds, es := UserStage(filter), DateStage(filter), ExerciseStage(filter);
    UserStageIsWhere(ws, filter);
    DateStageIsWhere(Where(ws, us), filter);
    WhereWhere(ws, us, ds);
    var kept := Where(ws, And(us, ds));
    assert FilterByDateRange(FilterByUser(ws, filter), filter) == kept;
    FlattenBlocksWhere(ws, And(us, ds));
    var blocks := Where(FlattenBlocks(ws), OfWorkout(And(us, ds)));
    assert FlattenBlocks(kept) == blocks;
    ExerciseStageIsWhere(blocks, filter);
    var p := And(OfWorkout(And(us, ds)), es);
    WhereWhere(FlattenBlocks(ws), OfWorkout(And(us, ds)), es);
    assert FilterByExercise(blocks, filter) == Where(FlattenBlocks(ws), p);
    FlattenSetsWhere(FlattenBlocks(ws), p);
    assert Survivors(ws, filter) == Where(AllSets(ws), StagedMatches(filter));
    forall e | e in AllSets(ws) ensures StagedMatches(filter)(e) == Matches(filter)(e) {
      StagedMatchesAreMatches(filter, e);
    }
    WhereCongruent(AllSets(ws), StagedMatches(filter), Matches(filter));
  }

  lemma {:induction false} FlattenSetsConcat(a: seq<BlockEntry>, b: seq<BlockEntry>)
    ensures FlattenSets(a + b) == FlattenSets(a) + FlattenSets(b)
  {
    if a == [] {
      assert a + b == b;
    } else {
      assert (a + b)[0] == a[0] && (a + b)[1..] == a[1..] + b;
      FlattenSetsConcat(a[1..], b);
    }
  }

  /** `AllSets` holds exactly the sets of the blocks of the given workouts, with their origin. */
  lemma {:induction false} AllSetsMembers(ws: seq<JsonWorkout>, e: SetEntry)
    ensures e in AllSets(ws) <==> e.workout in ws && e.block in e.workout.blocks && e.jsonSet in e.block.sets
  {
    if ws != [] {
      var w := ws[0];
      var head := Select(w.blocks, PairWithWorkout(w));
      FlattenSetsConcat(head, FlattenBlocks(ws[1..]));
      AllSetsMembers(ws[1..], e);
      HeadSetsMembers(w, w.blocks, e);
    }
  }

  lemma {:induction false} HeadSetsMembers(w: JsonWorkout, bs: seq<Block>, e: SetEntry)
    ensures e in FlattenSets(Select(bs, PairWithWorkout(w))) <==>
      e.workout == w && e.block in bs && e.jsonSet in e.block.sets
  {
    if bs != [] {
      var bes := Select(bs, PairWithWorkout(w));
      assert bes[1..] == Select(bs[1..], PairWithWorkout(w));
      HeadSetsMembers(w, bs[1..], e);
      var head := Select(bes[0].block.sets, PairWithBlock(bes[0]));
      if e in head {
        SetsOfOneBlock(bes[0], e);
      }
      if e.workout == w && e.block == bs[0] && e.jsonSet in e.block.sets {
        var j :| 0 <= j < |bs[0].sets| && bs[0].sets[j] == e.jsonSet;
        assert head[j] == e;
      }
    }
  }

  /** A set survives exactly when it is in the data and passes every present dimension at its level. */
  lemma SurvivorsMembers(ws: seq<JsonWorkout>, filter: Option<DataFilter>, e: SetEntry)
    ensures e in Survivors(ws, filter) <==>
      && e.workout in ws && e.block in e.workout.blocks && e.jsonSet in e.block.sets
      && WorkoutMatches(filter, e.workout) && BlockMatches(filter, e.block)
  {
    SurvivorsAreMatchingSets(ws, filter);
    AllSetsMembers(ws, e);
  }

  /** With no filter, or a filter whose fields are all null, every set survives. */
  lemma NoFilterKeepsEverySet(ws: seq<JsonWorkout>)
    ensures Survivors(ws, None) == AllSets(ws)
    ensures Survivors(ws, Some(DataFilter(None, None, None))) == AllSets(ws)
  {
    SurvivorsAreMatchingSets(ws, None);
    WhereAll(AllSets(ws), Matches(None));
    SurvivorsAreMatchingSets(ws, Some(DataFilter(None, None, None)));
    WhereAll(AllSets(ws), Matches(Some(DataFilter(None, None, None))));
  }

  /** Adding or keeping filter dimensions only removes sets, and keeps the order of the rest. */
  lemma NarrowerFilterKeepsSubsequence(ws: seq<JsonWorkout>, g: Option<DataFilter>, f: Option<DataFilter>)
    requires Narrows(g, f)
    ensures IsSubsequence(Survivors(ws, g), Survivors(ws, f))
  {
    SurvivorsAreMatchingSets(ws, g);
    SurvivorsAreMatchingSets(ws, f);
    WhereStronger(AllSets(ws), Matches(g), Matches(f));
  }
}
