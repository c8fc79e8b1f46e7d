/**
 * `TotalWeight`, `TotalWeightByMonth` and `Weight`: the three aggregates the
 * engine computes over the sets that survive a filter.
 */
module Queries {
  import opened Wrappers
  import opened Linq
  import opened DateTimes
  import opened DateRanges
  import opened Models
  import opened Pipeline
  import opened MonthGrouping

  /** `set.Reps * set.Weight`. */
  function Volume(e: SetEntry): int {
    e.jsonSet.reps * e.jsonSet.Weight()
  }

  /** `set.Reps > 0`. */
  predicate HasReps(e: SetEntry) {
    e.jsonSet.reps > 0
  }

  /** `set.Weight`. */
  function SetWeight(e: SetEntry): int {
    e.jsonSet.Weight()
  }

  /** The (Year, Month) of the workout a set belongs to. */
  function MonthOf(e: SetEntry): YearMonth {
    YearMonth(e.workout.dateTimeCompleted.year, e.workout.dateTimeCompleted.month)
  }

  /** `new { Year = b.WorkoutYear, Month = b.WorkoutMonth, TotalWeight = set.Reps * set.Weight }`. */
  function ToMonthEntry(e: SetEntry): MonthEntry {
    MonthEntry(e.workout.dateTimeCompleted.year, e.workout.dateTimeCompleted.month, Volume(e))
  }

  /** The sum of `Reps * Weight` over the surviving sets. */
  function TotalWeight(ws: seq<JsonWorkout>, filter: Option<DataFilter>): int {
    Sum(Select(Survivors(ws, filter), Volume))
  }

  /** The surviving sets' `Reps * Weight`, summed per (Year, Month), ordered by Month. */
  function TotalWeightByMonth(ws: seq<JsonWorkout>, filter: Option<DataFilter>): seq<MonthTotalWeight> {
    GroupAndOrder(Select(Survivors(ws, filter), ToMonthEntry))
  }

  /** The `Weight` of every surviving set with `Reps > 0`, in traversal order. */
  function Weight(ws: seq<JsonWorkout>, filter: Option<DataFilter>): seq<int> {
    Select(Where(Survivors(ws, filter), HasReps), SetWeight)
  }

  // ---------------------------------------------------------------------------
  // Reference definitions: the nested sums over the hierarchy

  function SetsVolume(ss: seq<JsonSet>): int {
    if ss == [] then 0 else ss[0].reps * ss[0].Weight() + SetsVolume(ss[1..])
  }

  function BlocksVolume(bs: seq<Block>): int {
    if bs == [] then 0 else SetsVolume(bs[0].sets) + BlocksVolume(bs[1..])
  }

  function WorkoutsVolume(ws: seq<JsonWorkout>): int {
    if ws == [] then 0 else BlocksVolume(ws[0].blocks) + WorkoutsVolume(ws[1..])
  }

  /** The surviving sets of one (Year, Month). */
  function InMonth(k: YearMonth): SetEntry -> bool {
    (e: SetEntry) => MonthOf(e) == k
  }

  /** The sum of `Reps * Weight` over the given sets of one (Year, Month). */
  function MonthVolume(es: seq<SetEntry>, k: YearMonth): int {
    Sum(Select(Where(es, InMonth(k)), Volume))
  }

  // ---------------------------------------------------------------------------
  // TotalWeight

  lemma {:induction false} SetEntriesVolume(be: BlockEntry, ss: seq<JsonSet>)
    ensures Sum(Select(Select(ss, PairWithBlock(be)), Volume)) == SetsVolume(ss)
  {
    if ss != [] {
      var es := Select(ss, PairWithBlock(be));
      assert es[1..] == Select(ss[1..], PairWithBlock(be));
      assert Select(es, Volume)[1..] == Select(es[1..], Volume);
      SetEntriesVolume(be, ss[1..]);
    }
  }

  lemma {:induction false} BlockEntriesVolume(w: JsonWorkout, bs: seq<Block>)
    ensures Sum(Select(FlattenSets(Select(bs, PairWithWorkout(w))), Volume)) == BlocksVolume(bs)
  {
    if bs != [] {
      var bes := Select(bs, PairWithWorkout(w));
      assert bes[1..] == Select(bs[1..], PairWithWorkout(w));
      var head := Select(bes[0].block.sets, PairWithBlock(bes[0]));
      SumSelectConcat(head, FlattenSets(bes[1..]), Volume);
      SetEntriesVolume(bes[0], bs[0].sets);
      BlockEntriesVolume(w, bs[1..]);
    }
  }

  lemma {:induction false} AllSetsVolume(ws: seq<JsonWorkout>)
    ensures Sum(Select(AllSets(ws), Volume)) == WorkoutsVolume(ws)
  {
    if ws != [] {
      var head := Select(ws[0].blocks, PairWithWorkout(ws[0]));
      FlattenSetsConcat(head, FlattenBlocks(ws[1..]));
      SumSelectConcat(FlattenSets(head), AllSets(ws[1..]), Volume);
      BlockEntriesVolume(ws[0], ws[0].blocks);
      AllSetsVolume(ws[1..]);
    }
  }

  /** With no filter, the total is `Reps * Weight` summed over every set of every block of every workout. */
  lemma TotalWeightWithoutFilter(ws: seq<JsonWorkout>)
    ensures TotalWeight(ws, None) == WorkoutsVolume(ws)
    ensures TotalWeight(ws, Some(DataFilter(None, None, None))) == WorkoutsVolume(ws)
  {
    NoFilterKeepsEverySet(ws);
    AllSetsVolume(ws);
  }

  /** No workouts, or no surviving sets, total 0. */
  lemma TotalWeightOfNothing(ws: seq<JsonWorkout>, filter: Option<DataFilter>)
    ensures TotalWeight([], filter) == 0
    ensures Survivors(ws, filter) == [] ==> TotalWeight(ws, filter) == 0
  {
  }

  /** The total is the sum over exactly the sets whose workout and block pass the filter. */
  lemma TotalWeightOfMatchingSets(ws: seq<JsonWorkout>, filter: Option<DataFilter>)
    ensures TotalWeight(ws, filter) == Sum(Select(Where(AllSets(ws), Matches(filter)), Volume))
  {
    SurvivorsAreMatchingSets(ws, filter);
  }

  predicate HasWeight(e: SetEntry) {
    e.jsonSet.weightRaw.Some?
  }

  /** A surviving set without a weight adds nothing to the total, whatever its reps. */
  lemma AbsentWeightAddsNothing(ws: seq<JsonWorkout>, filter: Option<DataFilter>)
    ensures TotalWeight(ws, filter) == Sum(Select(Where(Survivors(ws, filter), HasWeight), Volume))
  {
    SumWithoutZeros(Survivors(ws, filter), HasWeight, Volume);
  }

  predicate HasNonZeroReps(e: SetEntry) {
    e.jsonSet.reps != 0
  }

  /** A surviving set with zero reps adds nothing to the total. */
  lemma ZeroRepsAddNothing(ws: seq<JsonWorkout>, filter: Option<DataFilter>)
    ensures TotalWeight(ws, filter) == Sum(Select(Where(Survivors(ws, filter), HasNonZeroReps), Volume))
  {
    SumWithoutZeros(Survivors(ws, filter), HasNonZeroReps, Volume);
  }

  // ---------------------------------------------------------------------------
  // TotalWeightByMonth

  lemma MonthEntryTotals(es: seq<SetEntry>)
    ensures Select(Select(es, ToMonthEntry), EntryTotal) == Select(es, Volume)
    ensures Select(Select(es, ToMonthEntry), KeyOf) == Select(es, MonthOf)
  {
  }

  lemma {:induction false} GroupTotalIsMonthVolume(es: seq<SetEntry>, k: YearMonth)
    ensures GroupTotal(Select(es, ToMonthEntry), k) == MonthVolume(es, k)
  {
    if es != [] {
      var ms := Select(es, ToMonthEntry);
      assert ms == [ToMonthEntry(es[0])] + Select(es[1..], ToMonthEntry);
      GroupTotalIsMonthVolume(es[1..], k);
      var hm := if HasKey(k)(ToMonthEntry(es[0])) then [ToMonthEntry(es[0])] else [];
      var he := if InMonth(k)(es[0]) then [es[0]] else [];
      WhereConcat([ToMonthEntry(es[0])], Select(es[1..], ToMonthEntry), HasKey(k));
      assert Where([ToMonthEntry(es[0])], HasKey(k)) == hm;
      SumSelectConcat(hm, Where(Select(es[1..], ToMonthEntry), HasKey(k)), EntryTotal);
      SumSelectConcat(he, Where(es[1..], InMonth(k)), Volume);
      if InMonth(k)(es[0]) {
        assert Select(hm, EntryTotal) == [Volume(es[0])] == Select(he, Volume);
      }
    }
  }

  /** The monthly totals add up to the scalar total: grouping partitions the surviving sets. */
  lemma MonthlyTotalsAddUp(ws: seq<JsonWorkout>, filter: Option<DataFilter>)
    ensures Sum(Select(TotalWeightByMonth(ws, filter), RecordTotal)) == TotalWeight(ws, filter)
  {
    var es := Select(Survivors(ws, filter), ToMonthEntry);
    GroupedTotalsAddUp(es);
    MonthEntryTotals(Survivors(ws, filter));
  }

  /**
   * One record for each (Year, Month) in which some set survives and for no
   * other month, no (Year, Month) twice, each record holding the sum of
   * `Reps * Weight` over that month's surviving sets, non-decreasing in Month.
   */
  lemma MonthlyRecords(ws: seq<JsonWorkout>, filter: Option<DataFilter>)
    ensures forall k :: k in Select(TotalWeightByMonth(ws, filter), RecordKey) <==> k in Select(Survivors(ws, filter), MonthOf)
    ensures DistinctRecordKeys(TotalWeightByMonth(ws, filter))
    ensures forall r :: r in TotalWeightByMonth(ws, filter) ==>
      r.totalWeight == MonthVolume(Survivors(ws, filter), RecordKey(r))
    ensures SortedByMonth(TotalWeightByMonth(ws, filter))
  {
    var surv := Survivors(ws, filter);
    var es := Select(surv, ToMonthEntry);
    GroupedRecords(es);
    MonthEntryTotals(surv);
    forall r | r in TotalWeightByMonth(ws, filter) ensures r.totalWeight == MonthVolume(surv, RecordKey(r)) {
      GroupTotalIsMonthVolume(surv, RecordKey(r));
    }
  }

  /** The sets of a workout with one block of one set. */
  lemma {:induction false} OneSetWorkout(w: JsonWorkout, rest: seq<JsonWorkout>)
    requires |w.blocks| == 1 && |w.blocks[0].sets| == 1
    ensures AllSets([w] + rest) == [SetEntry(w, w.blocks[0], w.blocks[0].sets[0])] + AllSets(rest)
  {
    var be := BlockEntry(w, w.blocks[0]);
    assert ([w] + rest)[1..] == rest;
    assert Select(w.blocks, PairWithWorkout(w)) == [be];
    assert FlattenBlocks([w] + rest) == [be] + FlattenBlocks(rest);
    assert ([be] + FlattenBlocks(rest))[1..] == FlattenBlocks(rest);
    assert Select(be.block.sets, PairWithBlock(be)) == [SetEntry(w, w.blocks[0], w.blocks[0].sets[0])];
  }

  /** Grouping two entries of different months gives one record each, in first-appearance order. */
  lemma GroupTwoMonths(m1: MonthEntry, m2: MonthEntry)
    requires KeyOf(m1) != KeyOf(m2)
    ensures GroupByYearMonth([m1, m2]) ==
      [MonthTotalWeight(m1.year, m1.month, m1.totalWeight), MonthTotalWeight(m2.year, m2.month, m2.totalWeight)]
  {
    var k1, k2 := KeyOf(m1), KeyOf(m2);
    assert [m1, m2][..1] == [m1] && [m1][..0] == [];
    assert DistinctKeys([m1]) == [k1];
    assert DistinctKeys([m1, m2]) == [k1, k2];
    assert [m1, m2][1..] == [m2] && [m2][1..] == [];
    assert Where([m2], HasKey(k1)) == [];
    assert Where([m1, m2], HasKey(k1)) == [m1];
    assert Where([m2], HasKey(k2)) == [m2];
    assert Where([m1, m2], HasKey(k2)) == [m2];
    assert Select([m1], EntryTotal) == [m1.totalWeight];
    assert Select([m2], EntryTotal) == [m2.totalWeight];
    assert [m1.totalWeight][1..] == [] && [m2.totalWeight][1..] == [];
    assert Sum([m1.totalWeight]) == m1.totalWeight && Sum([m2.totalWeight]) == m2.totalWeight;
    assert GroupTotal([m1, m2], k1) == m1.totalWeight;
    assert GroupTotal([m1, m2], k2) == m2.totalWeight;
  }

  /** Ordering two records whose months are out of order swaps them. */
  lemma OrderTwoRecords(r1: MonthTotalWeight, r2: MonthTotalWeight)
    requires r2.month < r1.month
    ensures OrderByMonth([r1, r2]) == [r2, r1]
  {
    assert [r1, r2][1..] == [r2] && [r2][1..] == [];
    assert OrderByMonth([r2]) == [r2];
    assert [r2][1..] == [];
    assert InsertByMonth(r1, []) == [r1];
  }

  /** The sets of two workouts with one block of one set each. */
  lemma TwoOneSetWorkouts(w1: JsonWorkout, w2: JsonWorkout)
    requires |w1.blocks| == 1 && |w1.blocks[0].sets| == 1
    requires |w2.blocks| == 1 && |w2.blocks[0].sets| == 1
    ensures AllSets([w1, w2]) ==
      [SetEntry(w1, w1.blocks[0], w1.blocks[0].sets[0]), SetEntry(w2, w2.blocks[0], w2.blocks[0].sets[0])]
  {
    OneSetWorkout(w2, []);
    assert [w2] + [] == [w2];
    OneSetWorkout(w1, [w2]);
    assert [w1] + [w2] == [w1, w2];
  }

  /** The order is by Month alone: December 2016 comes after January 2017. */
  lemma MonthOrderIgnoresYear()
    ensures var ws := [
        JsonWorkout(1, DateTime(2016, 12, 5, 0), [Block(10, [JsonSet(5, Some(100))])]),
        JsonWorkout(1, DateTime(2017, 1, 5, 0), [Block(10, [JsonSet(1, Some(10))])])
      ];
      TotalWeightByMonth(ws, None) == [MonthTotalWeight(2017, 1, 10), MonthTotalWeight(2016, 12, 500)]
  {
    var dec := JsonWorkout(1, DateTime(2016, 12, 5, 0), [Block(10, [JsonSet(5, Some(100))])]);
    var jan := JsonWorkout(1, DateTime(2017, 1, 5, 0), [Block(10, [JsonSet(1, Some(10))])]);
    NoFilterKeepsEverySet([dec, jan]);
    TwoOneSetWorkouts(dec, jan);
    var e1 := SetEntry(dec, dec.blocks[0], JsonSet(5, Some(100)));
    var e2 := SetEntry(jan, jan.blocks[0], JsonSet(1, Some(10)));
    var m1, m2 := MonthEntry(2016, 12, 500), MonthEntry(2017, 1, 10);
    assert [e1, e2][1..] == [e2] && [e2][1..] == [];
    assert Select([e1, e2], ToMonthEntry) == [m1, m2];
    GroupTwoMonths(m1, m2);
    OrderTwoRecords(MonthTotalWeight(2016, 12, 500), MonthTotalWeight(2017, 1, 10));
  }

  // ---------------------------------------------------------------------------
  // Weight

  /**
   * The result lists, in workout, block, set order, the weight of every set
   * that passes the filter and has `Reps > 0`, and nothing else.
   */
  lemma WeightOfMatchingSets(ws: seq<JsonWorkout>, filter: Option<DataFilter>)
    ensures Weight(ws, filter) == Select(Where(Where(AllSets(ws), Matches(filter)), HasReps), SetWeight)
    ensures |Weight(ws, filter)| == |Where(Survivors(ws, filter), HasReps)|
    ensures forall i :: 0 <= i < |Weight(ws, filter)| ==>
      var e := Where(Survivors(ws, filter), HasReps)[i];
      e.jsonSet.reps > 0 && Weight(ws, filter)[i] == e.jsonSet.Weight()
  {
    SurvivorsAreMatchingSets(ws, filter);
  }

  /** A surviving set with `Reps > 0` and no weight shows up as 0. */
  lemma AbsentWeightListedAsZero(ws: seq<JsonWorkout>, filter: Option<DataFilter>, e: SetEntry)
    requires e in Survivors(ws, filter) && e.jsonSet.reps > 0 && e.jsonSet.weightRaw.None?
    ensures 0 in Weight(ws, filter)
  {
    var kept := Where(Survivors(ws, filter), HasReps);
    var i :| 0 <= i < |kept| && kept[i] == e;
    assert Weight(ws, filter)[i] == 0;
  }

  /** A filter that imposes more dimensions lists a subsequence of the weights. */
  lemma NarrowerFilterListsFewerWeights(ws: seq<JsonWorkout>, g: Option<DataFilter>, f: Option<DataFilter>)
    requires Narrows(g, f)
    ensures IsSubsequence(Weight(ws, g), Weight(ws, f))
  {
    NarrowerFilterKeepsSubsequence(ws, g, f);
    WhereMonotone(Survivors(ws, g), Survivors(ws, f), HasReps);
    SelectMonotone(Where(Survivors(ws, g), HasReps), Where(Survivors(ws, f), HasReps), SetWeight);
  }

  /** Any filter lists a subsequence of the unfiltered weights. */
  lemma FilteredWeightsAreSubsequence(ws: seq<JsonWorkout>, filter: Option<DataFilter>)
    ensures IsSubsequence(Weight(ws, filter), Weight(ws, None))
  {
    NarrowerFilterListsFewerWeights(ws, filter, None);
  }

  // ---------------------------------------------------------------------------
  // A one-workout snapshot

  /** One user, one exercise, one set of 5 reps at 100 completed on 2016-01-15. */
  lemma OneSetSnapshot()
    ensures var w := JsonWorkout(1, DateTime(2016, 1, 15, 0), [Block(10, [JsonSet(5, Some(100))])]);
      var january := DateRange(DateTime(2016, 1, 1, 0), DateTime(2016, 1, 31, 0));
      && TotalWeight([w], None) == 500
      && TotalWeightByMonth([w], None) == [MonthTotalWeight(2016, 1, 500)]
      && Weight([w], None) == [100]
      && TotalWeight([w], Some(DataFilter(None, None, Some(999)))) == 0
      && Weight([w], Some(DataFilter(Some(1), Some(january), Some(10)))) == [100]
  {
    var w := JsonWorkout(1, DateTime(2016, 1, 15, 0), [Block(10, [JsonSet(5, Some(100))])]);
    var january := DateRange(DateTime(2016, 1, 1, 0), DateTime(2016, 1, 31, 0));
    var e := SetEntry(w, w.blocks[0], JsonSet(5, Some(100)));
    NoFilterKeepsEverySet([w]);
    OneSetWorkout(w, []);
    assert [w] + [] == [w];
    assert AllSets([w]) == [e];
    assert [e][1..] == [];
    assert Select([e], Volume) == [500] && [500][1..] == [];
    assert TotalWeight([w], None) == 500;
    var m := MonthEntry(2016, 1, 500);
    assert Select([e], ToMonthEntry) == [m] && [m][1..] == [] && [m][..0] == [];
    assert DistinctKeys([m]) == [YearMonth(2016, 1)];
    assert Where([m], HasKey(YearMonth(2016, 1))) == [m];
    assert Select([m], EntryTotal) == [500];
    assert GroupByYearMonth([m]) == [MonthTotalWeight(2016, 1, 500)];
    assert [MonthTotalWeight(2016, 1, 500)][1..] == [];
    assert TotalWeightByMonth([w], None) == [MonthTotalWeight(2016, 1, 500)];
    assert Where([e], HasReps) == [e];
    assert Select([e], SetWeight) == [100];
    assert Weight([w], None) == [100];
    var full := Some(DataFilter(Some(1), Some(january), Some(10)));
    SurvivorsAreMatchingSets([w], full);
    assert Matches(full)(e);
    assert Where([e], Matches(full)) == [e];
    assert Weight([w], full) == [100];
    var other := Some(DataFilter(None, None, Some(999)));
    SurvivorsAreMatchingSets([w], other);
    assert !Matches(other)(e);
    assert Where([e], Matches(other)) == [];
  }

  /** A set of 0 reps at 50 adds 0 to the total and is left out of the weights. */
  lemma ZeroRepSet()
    ensures var w := JsonWorkout(1, DateTime(2016, 1, 15, 0), [Block(10, [JsonSet(0, Some(50))])]);
      TotalWeight([w], None) == 0 && Weight([w], None) == []
  {
    var w := JsonWorkout(1, DateTime(2016, 1, 15, 0), [Block(10, [JsonSet(0, Some(50))])]);
    var e := SetEntry(w, w.blocks[0], JsonSet(0, Some(50)));
    NoFilterKeepsEverySet([w]);
    OneSetWorkout(w, []);
    assert [w] + [] == [w];
    assert AllSets([w]) == [e];
    assert [e][1..] == [];
    assert Select([e], Volume) == [0] && [0][1..] == [];
    assert Where([e], HasReps) == [];
  }
}
