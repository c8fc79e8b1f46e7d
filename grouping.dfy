/**
 * The tail of `TotalWeightByMonth`: `GroupBy` on (Year, Month), one
 * `MonthTotalWeight` per group with the group's `Sum`, and `OrderBy` on
 * `Month` alone.
 */
module MonthGrouping {
  import opened Linq
  import opened Models

  /** The anonymous { Year, Month, TotalWeight } every surviving set is projected to. */
  datatype MonthEntry = MonthEntry(year: int, month: int, totalWeight: int)

  /** The grouping key. */
  datatype YearMonth = YearMonth(year: int, month: int)

  function KeyOf(e: MonthEntry): YearMonth {
    YearMonth(e.year, e.month)
  }

  function RecordKey(r: MonthTotalWeight): YearMonth {
    YearMonth(r.year, r.month)
  }

  function EntryTotal(e: MonthEntry): int {
    e.totalWeight
  }

  function RecordTotal(r: MonthTotalWeight): int {
    r.totalWeight
  }

  function HasKey(k: YearMonth): MonthEntry -> bool {
    (e: MonthEntry) => KeyOf(e) == k
  }

  /** No two records share a (Year, Month). */
  predicate DistinctRecordKeys(rs: seq<MonthTotalWeight>) {
    forall i, j :: 0 <= i < j < |rs| ==> RecordKey(rs[i]) != RecordKey(rs[j])
  }

  /** Non-decreasing in `Month`; `Year` plays no part. */
  predicate SortedByMonth(rs: seq<MonthTotalWeight>) {
    forall i, j :: 0 <= i < j < |rs| ==> rs[i].month <= rs[j].month
  }

  /** The keys that occur, each once, in order of first occurrence: the order `GroupBy` yields groups in. */
  function DistinctKeys(es: seq<MonthEntry>): (keys: seq<YearMonth>)
    ensures forall i, j :: 0 <= i < j < |keys| ==> keys[i] != keys[j]
    ensures forall k :: k in keys <==> k in Select(es, KeyOf)
    decreases |es|
  {
    if es == [] then []
    else
      var init := es[..|es| - 1];
      var last := es[|es| - 1];
      assert es == init + [last];
      SelectConcat(init, [last], KeyOf);
      var keys := DistinctKeys(init);
      if KeyOf(last) in keys then keys else keys + [KeyOf(last)]
  }

  /** The position of the first entry with key `k`, or `|es|` when there is none. */
  function FirstIndexOf(es: seq<MonthEntry>, k: YearMonth): (i: nat)
    ensures i <= |es|
    ensures i < |es| ==> KeyOf(es[i]) == k
    ensures forall j :: 0 <= j < i ==> KeyOf(es[j]) != k
  {
    if es == [] then 0
    else if KeyOf(es[0]) == k then 0
    else 1 + FirstIndexOf(es[1..], k)
  }

  /** Appending an entry moves no first occurrence, and gives a new key its position. */
  lemma FirstIndexSnoc(es: seq<MonthEntry>, e: MonthEntry, k: YearMonth)
    ensures FirstIndexOf(es, k) < |es| ==> FirstIndexOf(es + [e], k) == FirstIndexOf(es, k)
    ensures FirstIndexOf(es, k) == |es| && KeyOf(e) == k ==> FirstIndexOf(es + [e], k) == |es|
  {
    var i, x := FirstIndexOf(es, k), es + [e];
    var ix := FirstIndexOf(x, k);
    assert forall j :: 0 <= j < |es| ==> x[j] == es[j];
    if i < |es| {
      assert KeyOf(x[i]) == k;
      assert ix <= i;
      assert ix < |x| && KeyOf(x[ix]) == k;
    } else if KeyOf(e) == k {
      assert KeyOf(x[|es|]) == k;
    }
  }

  lemma KeyInEntries(es: seq<MonthEntry>, k: YearMonth)
    requires k in Select(es, KeyOf)
    ensures FirstIndexOf(es, k) < |es|
  {
    var j :| 0 <= j < |es| && Select(es, KeyOf)[j] == k;
  }

  lemma KeyAbsentFromEntries(es: seq<MonthEntry>, k: YearMonth)
    requires k !in Select(es, KeyOf)
    ensures FirstIndexOf(es, k) == |es|
  {
    var i := FirstIndexOf(es, k);
    if i < |es| {
      assert false;
    }
  }

  /** `GroupBy` yields its groups in the order their keys first occur. */
  lemma {:induction false} DistinctKeysInFirstOccurrenceOrder(es: seq<MonthEntry>)
    ensures forall i, j :: 0 <= i < j < |DistinctKeys(es)| ==>
      FirstIndexOf(es, DistinctKeys(es)[i]) < FirstIndexOf(es, DistinctKeys(es)[j])
    decreases |es|
  {
    if es != [] {
      var init, last := es[..|es| - 1], es[|es| - 1];
      assert es == init + [last];
      DistinctKeysInFirstOccurrenceOrder(init);
      var keys := DistinctKeys(init);
      forall k | k in keys ensures FirstIndexOf(es, k) == FirstIndexOf(init, k) < |init| {
        KeyInEntries(init, k);
        FirstIndexSnoc(init, last, k);
      }
      if KeyOf(last) !in keys {
        var k := KeyOf(last);
        assert k !in Select(init, KeyOf);
        KeyAbsentFromEntries(init, k);
        FirstIndexSnoc(init, last, k);
        var out := DistinctKeys(es);
        assert out == keys + [k];
        forall i, j | 0 <= i < j < |out| ensures FirstIndexOf(es, out[i]) < FirstIndexOf(es, out[j]) {
          assert out[i] in keys;
          if j < |keys| {
            assert out[i] == keys[i] && out[j] == keys[j];
          }
        }
      }
    }
  }

  /** `g.Sum(x => x.TotalWeight)` for the group of key `k`. */
  function GroupTotal(es: seq<MonthEntry>, k: YearMonth): int {
    Sum(Select(Where(es, HasKey(k)), EntryTotal))
  }

  function ToRecord(es: seq<MonthEntry>): YearMonth -> MonthTotalWeight {
    (k: YearMonth) => MonthTotalWeight(k.year, k.month, GroupTotal(es, k))
  }

  /** `GroupBy(x => new { x.Year, x.Month }).Select(g => new MonthTotalWeight { ... })`. */
  function GroupByYearMonth(es: seq<MonthEntry>): seq<MonthTotalWeight> {
    Select(DistinctKeys(es), ToRecord(es))
  }

  /** Puts `r` before the first record whose month is not smaller, so that earlier records stay first among equals. */
  function InsertByMonth(r: MonthTotalWeight, rs: seq<MonthTotalWeight>): (out: seq<MonthTotalWeight>)
    ensures multiset(out) == multiset(rs) + multiset{r}
  {
    if rs == [] || r.month <= rs[0].month then [r] + rs
    else
      assert rs == [rs[0]] + rs[1..];
      [rs[0]] + InsertByMonth(r, rs[1..])
  }

  /** `OrderBy(m => m.Month)`: a stable sort on the month alone. */
  function OrderByMonth(rs: seq<MonthTotalWeight>): (out: seq<MonthTotalWeight>)
    ensures multiset(out) == multiset(rs)
  {
    if rs == [] then []
    else
      assert rs == [rs[0]] + rs[1..];
      InsertByMonth(rs[0], OrderByMonth(rs[1..]))
  }

  lemma SameElements<T>(a: seq<T>, b: seq<T>, x: T)
    requires multiset(a) == multiset(b)
    ensures x in a <==> x in b
  {
    assert x in a <==> x in multiset(a);
    assert x in b <==> x in multiset(b);
  }

  lemma InsertMembers(r: MonthTotalWeight, rs: seq<MonthTotalWeight>, x: MonthTotalWeight)
    ensures x in InsertByMonth(r, rs) <==> x == r || x in rs
  {
    assert x in InsertByMonth(r, rs) <==> x in multiset(InsertByMonth(r, rs));
    assert x in rs <==> x in multiset(rs);
  }

  lemma {:induction false} InsertKeepsSorted(r: MonthTotalWeight, rs: seq<MonthTotalWeight>)
    requires SortedByMonth(rs)
    ensures SortedByMonth(InsertByMonth(r, rs))
  {
    if !(rs == [] || r.month <= rs[0].month) {
      var rest := InsertByMonth(r, rs[1..]);
      InsertKeepsSorted(r, rs[1..]);
      forall x | x in rest ensures rs[0].month <= x.month {
        InsertMembers(r, rs[1..], x);
      }
      var out := [rs[0]] + rest;
      forall i, j | 0 <= i < j < |out| ensures out[i].month <= out[j].month {
        if i > 0 {
          assert out[i] == rest[i - 1] && out[j] == rest[j - 1];
        } else {
          assert out[j] in rest;
        }
      }
    }
  }

  lemma {:induction false} InsertKeepsDistinct(r: MonthTotalWeight, rs: seq<MonthTotalWeight>)
    requires DistinctRecordKeys(rs)
    requires forall x :: x in rs ==> RecordKey(x) != RecordKey(r)
    ensures DistinctRecordKeys(InsertByMonth(r, rs))
  {
    if rs == [] || r.month <= rs[0].month {
      var out := [r] + rs;
      forall i, j | 0 <= i < j < |out| ensures RecordKey(out[i]) != RecordKey(out[j]) {
        if i > 0 {
          assert out[i] == rs[i - 1] && out[j] == rs[j - 1];
        } else {
          assert out[j] in rs;
        }
      }
    } else {
      var rest := InsertByMonth(r, rs[1..]);
      InsertKeepsDistinct(r, rs[1..]);
      forall x | x in rest ensures RecordKey(rs[0]) != RecordKey(x) {
        InsertMembers(r, rs[1..], x);
        if x in rs[1..] {
          var k :| 0 <= k < |rs[1..]| && rs[1..][k] == x;
          assert rs[k + 1] == x;
        }
      }
      var out := [rs[0]] + rest;
      forall i, j | 0 <= i < j < |out| ensures RecordKey(out[i]) != RecordKey(out[j]) {
        if i > 0 {
          assert out[i] == rest[i - 1] && out[j] == rest[j - 1];
        } else {
          assert out[j] in rest;
        }
      }
    }
  }

  /** The order is by month alone, non-decreasing. */
  lemma {:induction false} OrderIsSorted(rs: seq<MonthTotalWeight>)
    ensures SortedByMonth(OrderByMonth(rs))
  {
    if rs != [] {
      OrderIsSorted(rs[1..]);
      InsertKeepsSorted(rs[0], OrderByMonth(rs[1..]));
    }
  }

  /** Reordering neither merges nor duplicates records. */
  lemma {:induction false} OrderKeepsDistinct(rs: seq<MonthTotalWeight>)
    requires DistinctRecordKeys(rs)
    ensures DistinctRecordKeys(OrderByMonth(rs))
  {
    if rs != [] {
      var tail := rs[1..];
      assert DistinctRecordKeys(tail) by {
        forall i, j | 0 <= i < j < |tail| ensures RecordKey(tail[i]) != RecordKey(tail[j]) {
          assert tail[i] == rs[i + 1] && tail[j] == rs[j + 1];
        }
      }
      OrderKeepsDistinct(tail);
      forall x | x in OrderByMonth(tail) ensures RecordKey(x) != RecordKey(rs[0]) {
        SameElements(OrderByMonth(tail), tail, x);
        var k :| 0 <= k < |tail| && tail[k] == x;
        assert rs[k + 1] == x;
      }
      InsertKeepsDistinct(rs[0], OrderByMonth(tail));
    }
  }

  function MonthIs(m: int): MonthTotalWeight -> bool {
    (r: MonthTotalWeight) => r.month == m
  }

  /** Two records of different months never both pass a month filter. */
  lemma MonthFilterSwap(a: MonthTotalWeight, b: MonthTotalWeight, tail: seq<MonthTotalWeight>, m: int)
    requires a.month != b.month
    ensures Where([a], MonthIs(m)) + (Where([b], MonthIs(m)) + tail) == Where([b], MonthIs(m)) + (Where([a], MonthIs(m)) + tail)
  {
    assert [a][1..] == [] && [b][1..] == [];
    var ha, hb := Where([a], MonthIs(m)), Where([b], MonthIs(m));
    if ha == [] {
      assert ha + (hb + tail) == hb + tail == hb + (ha + tail);
    } else {
      assert hb == [];
      assert ha + (hb + tail) == ha + tail == hb + (ha + tail);
    }
  }

  lemma WhereCons<T(!new)>(x: T, xs: seq<T>, p: T -> bool)
    ensures Where([x] + xs, p) == Where([x], p) + Where(xs, p)
  {
    WhereConcat([x], xs, p);
  }

  /** The month filter over an insertion that passes `rs[0]`. */
  lemma InsertPastHead(r: MonthTotalWeight, rs: seq<MonthTotalWeight>, m: int)
    requires rs != [] && rs[0].month < r.month
    ensures Where(InsertByMonth(r, rs), MonthIs(m)) ==
      Where([rs[0]], MonthIs(m)) + Where(InsertByMonth(r, rs[1..]), MonthIs(m))
  {
    assert InsertByMonth(r, rs) == [rs[0]] + InsertByMonth(r, rs[1..]);
    WhereCons(rs[0], InsertByMonth(r, rs[1..]), MonthIs(m));
  }

  /** The month filter over `r` put in front of `rs`. */
  lemma InFrontOf(r: MonthTotalWeight, rs: seq<MonthTotalWeight>, m: int)
    requires rs != []
    ensures Where([r] + rs, MonthIs(m)) ==
      Where([r], MonthIs(m)) + (Where([rs[0]], MonthIs(m)) + Where(rs[1..], MonthIs(m)))
  {
    assert rs == [rs[0]] + rs[1..];
    WhereCons(r, rs, MonthIs(m));
    WhereCons(rs[0], rs[1..], MonthIs(m));
  }

  /** Inserting only passes records of a smaller month, so within one month `r` lands first. */
  lemma {:induction false} InsertWithinMonth(r: MonthTotalWeight, rs: seq<MonthTotalWeight>, m: int)
    ensures Where(InsertByMonth(r, rs), MonthIs(m)) == Where([r] + rs, MonthIs(m))
  {
    if !(rs == [] || r.month <= rs[0].month) {
      var rest := rs[1..];
      InsertWithinMonth(r, rest, m);
      InsertPastHead(r, rs, m);
      WhereCons(r, rest, MonthIs(m));
      InFrontOf(r, rs, m);
      MonthFilterSwap(rs[0], r, Where(rest, MonthIs(m)), m);
    }
  }

  /** `OrderBy` is stable: the records of one month keep their relative order. */
  lemma {:induction false} OrderIsStable(rs: seq<MonthTotalWeight>, m: int)
    ensures Where(OrderByMonth(rs), MonthIs(m)) == Where(rs, MonthIs(m))
  {
    if rs != [] {
      OrderIsStable(rs[1..], m);
      InsertWithinMonth(rs[0], OrderByMonth(rs[1..]), m);
      WhereConcat([rs[0]], OrderByMonth(rs[1..]), MonthIs(m));
      WhereConcat([rs[0]], rs[1..], MonthIs(m));
      assert rs == [rs[0]] + rs[1..];
    }
  }

  // ---------------------------------------------------------------------------
  // Grouping partitions the entries

  function KeysTotal(keys: seq<YearMonth>, es: seq<MonthEntry>): int {
    if keys == [] then 0 else GroupTotal(es, keys[0]) + KeysTotal(keys[1..], es)
  }

  lemma {:induction false} RecordsTotalIsKeysTotal(keys: seq<YearMonth>, es: seq<MonthEntry>)
    ensures Sum(Select(Select(keys, ToRecord(es)), RecordTotal)) == KeysTotal(keys, es)
  {
    if keys != [] {
      var rs := Select(keys, ToRecord(es));
      assert rs[1..] == Select(keys[1..], ToRecord(es));
      assert Select(rs, RecordTotal)[1..] == Select(rs[1..], RecordTotal);
      RecordsTotalIsKeysTotal(keys[1..], es);
    }
  }

  lemma GroupTotalSnoc(es: seq<MonthEntry>, e: MonthEntry, k: YearMonth)
    ensures GroupTotal(es + [e], k) == GroupTotal(es, k) + (if KeyOf(e) == k then e.totalWeight else 0)
  {
    WhereConcat(es, [e], HasKey(k));
    var tail := Where([e], HasKey(k));
    SelectConcat(Where(es, HasKey(k)), tail, EntryTotal);
    SumConcat(Select(Where(es, HasKey(k)), EntryTotal), Select(tail, EntryTotal));
    assert [e][1..] == [];
  }

  lemma {:induction false} KeysTotalSnoc(keys: seq<YearMonth>, es: seq<MonthEntry>, e: MonthEntry)
    requires forall i, j :: 0 <= i < j < |keys| ==> keys[i] != keys[j]
    ensures KeysTotal(keys, es + [e]) == KeysTotal(keys, es) + (if KeyOf(e) in keys then e.totalWeight else 0)
  {
    if keys != [] {
      GroupTotalSnoc(es, e, keys[0]);
      KeysTotalSnoc(keys[1..], es, e);
      assert KeyOf(e) in keys <==> KeyOf(e) == keys[0] || KeyOf(e) in keys[1..];
      assert KeyOf(e) == keys[0] ==> KeyOf(e) !in keys[1..];
    }
  }

  lemma {:induction false} KeysTotalAppend(keys: seq<YearMonth>, k: YearMonth, es: seq<MonthEntry>)
    ensures KeysTotal(keys + [k], es) == KeysTotal(keys, es) + GroupTotal(es, k)
  {
    if keys == [] {
      assert keys + [k] == [k];
      assert [k][1..] == [];
    } else {
      assert (keys + [k])[1..] == keys[1..] + [k];
      KeysTotalAppend(keys[1..], k, es);
    }
  }

  lemma GroupTotalAbsent(es: seq<MonthEntry>, k: YearMonth)
    requires k !in Select(es, KeyOf)
    ensures GroupTotal(es, k) == 0
  {
    forall e | e in es ensures !HasKey(k)(e) {
      var i :| 0 <= i < |es| && es[i] == e;
      assert Select(es, KeyOf)[i] == KeyOf(e);
    }
    WhereNone(es, HasKey(k));
  }

  lemma EntriesTotalSnoc(es: seq<MonthEntry>, e: MonthEntry)
    ensures Sum(Select(es + [e], EntryTotal)) == Sum(Select(es, EntryTotal)) + e.totalWeight
  {
    SelectConcat(es, [e], EntryTotal);
    SumConcat(Select(es, EntryTotal), Select([e], EntryTotal));
    assert Select([e], EntryTotal) == [e.totalWeight];
    assert [e.totalWeight][1..] == [];
  }

  /** The group totals add up to the total over all entries. */
  lemma {:induction false} KeysTotalOfDistinctKeys(es: seq<MonthEntry>)
    ensures KeysTotal(DistinctKeys(es), es) == Sum(Select(es, EntryTotal))
    decreases |es|
  {
    if es != [] {
      var init, last := es[..|es| - 1], es[|es| - 1];
      assert es == init + [last];
      var keys, k := DistinctKeys(init), KeyOf(last);
      KeysTotalOfDistinctKeys(init);
      EntriesTotalSnoc(init, last);
      KeysTotalSnoc(keys, init, last);
      if k in keys {
        assert DistinctKeys(es) == keys;
      } else {
        assert DistinctKeys(es) == keys + [k];
        KeysTotalAppend(keys, k, es);
        GroupTotalAbsent(init, k);
        GroupTotalSnoc(init, last, k);
      }
    }
  }

  lemma {:induction false} InsertKeepsTotal(r: MonthTotalWeight, rs: seq<MonthTotalWeight>)
    ensures Sum(Select(InsertByMonth(r, rs), RecordTotal)) == r.totalWeight + Sum(Select(rs, RecordTotal))
  {
    if !(rs == [] || r.month <= rs[0].month) {
      InsertKeepsTotal(r, rs[1..]);
      var rest := InsertByMonth(r, rs[1..]);
      assert InsertByMonth(r, rs) == [rs[0]] + rest;
      SelectConcat([rs[0]], rest, RecordTotal);
      SumConcat(Select([rs[0]], RecordTotal), Select(rest, RecordTotal));
    }
  }

  lemma {:induction false} OrderKeepsTotal(rs: seq<MonthTotalWeight>)
    ensures Sum(Select(OrderByMonth(rs), RecordTotal)) == Sum(Select(rs, RecordTotal))
  {
    if rs != [] {
      OrderKeepsTotal(rs[1..]);
      InsertKeepsTotal(rs[0], OrderByMonth(rs[1..]));
    }
  }

  /** The grouped, ordered records `TotalWeightByMonth` returns for the projected entries. */
  function GroupAndOrder(es: seq<MonthEntry>): seq<MonthTotalWeight> {
    OrderByMonth(GroupByYearMonth(es))
  }

  /** Grouping then ordering partitions the entries: the records' totals add up to the entries' total. */
  lemma GroupedTotalsAddUp(es: seq<MonthEntry>)
    ensures Sum(Select(GroupAndOrder(es), RecordTotal)) == Sum(Select(es, EntryTotal))
  {
    OrderKeepsTotal(GroupByYearMonth(es));
    RecordsTotalIsKeysTotal(DistinctKeys(es), es);
    KeysTotalOfDistinctKeys(es);
  }

  lemma GroupedRecordKeys(es: seq<MonthEntry>)
    ensures Select(GroupByYearMonth(es), RecordKey) == DistinctKeys(es)
    ensures DistinctRecordKeys(GroupByYearMonth(es))
  {
    var grouped, keys := GroupByYearMonth(es), DistinctKeys(es);
    assert forall i :: 0 <= i < |grouped| ==> RecordKey(grouped[i]) == keys[i];
  }

  lemma GroupedRecordTotal(es: seq<MonthEntry>, r: MonthTotalWeight)
    requires r in GroupByYearMonth(es)
    ensures r.totalWeight == GroupTotal(es, RecordKey(r))
  {
    var grouped := GroupByYearMonth(es);
    var j :| 0 <= j < |grouped| && grouped[j] == r;
  }

  lemma SameKeys(a: seq<MonthTotalWeight>, b: seq<MonthTotalWeight>, k: YearMonth)
    requires multiset(a) == multiset(b)
    ensures k in Select(a, RecordKey) <==> k in Select(b, RecordKey)
  {
    if k in Select(a, RecordKey) {
      var i :| 0 <= i < |a| && Select(a, RecordKey)[i] == k;
      SameElements(a, b, a[i]);
      var j :| 0 <= j < |b| && b[j] == a[i];
      assert Select(b, RecordKey)[j] == k;
    }
    if k in Select(b, RecordKey) {
      var j :| 0 <= j < |b| && Select(b, RecordKey)[j] == k;
      SameElements(a, b, b[j]);
      var i :| 0 <= i < |a| && a[i] == b[j];
      assert Select(a, RecordKey)[i] == k;
    }
  }

  /**
   * One record for each (Year, Month) that occurs among the entries and for no
   * other, no key twice, each record carrying its group's total, ordered by
   * month alone.
   */
  lemma GroupedRecords(es: seq<MonthEntry>)
    ensures forall k :: k in Select(GroupAndOrder(es), RecordKey) <==> k in Select(es, KeyOf)
    ensures DistinctRecordKeys(GroupAndOrder(es))
    ensures forall r :: r in GroupAndOrder(es) ==> r.totalWeight == GroupTotal(es, RecordKey(r))
    ensures SortedByMonth(GroupAndOrder(es))
    ensures |GroupAndOrder(es)| == |DistinctKeys(es)|
  {
    var grouped := GroupByYearMonth(es);
    var out := OrderByMonth(grouped);
    GroupedRecordKeys(es);
    forall k ensures k in Select(out, RecordKey) <==> k in Select(es, KeyOf) {
      SameKeys(out, grouped, k);
    }
    OrderKeepsDistinct(grouped);
    forall r | r in out ensures r.totalWeight == GroupTotal(es, RecordKey(r)) {
      SameElements(out, grouped, r);
      GroupedRecordTotal(es, r);
    }
    OrderIsSorted(grouped);
    assert |out| == |multiset(out)| == |multiset(grouped)| == |grouped|;
  }
}
