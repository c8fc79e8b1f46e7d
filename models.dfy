/** The record shapes the data files deserialise into, and the filter a query takes. */
module Models {
  import opened Wrappers
  import opened DateTimes
  import opened DateRanges

  /** One performed set: `reps`, and a `weight` that the data may leave out. */
  datatype JsonSet = JsonSet(reps: int, weightRaw: Option<int>) {

    /** `WeightRaw ?? 0`: a missing weight reads as 0, never as an error. */
    function Weight(): (w: int)
      ensures weightRaw.Some? ==> w == weightRaw.value
      ensures weightRaw.None? ==> w == 0
    {
      weightRaw.GetOr(0)
    }
  }

  /** The sets performed for one exercise within a workout. */
  datatype Block = Block(exerciseId: int, sets: seq<JsonSet>)

  /** One athlete's training session, completed at one instant. */
  datatype JsonWorkout = JsonWorkout(userId: int, dateTimeCompleted: DateTime, blocks: seq<Block>)

  /** The three optional, conjunctive filter dimensions; an absent one constrains nothing. */
  datatype DataFilter = DataFilter(userId: Option<int>, dateRange: Option<DateRange>, exerciseId: Option<int>)

  datatype User = User(id: int, firstName: string, lastName: string)

  datatype Exercise = Exercise(id: int, title: string)

  /** One record of `TotalWeightByMonth`. */
  datatype MonthTotalWeight = MonthTotalWeight(year: int, month: int, totalWeight: int)
}
