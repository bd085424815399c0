/**
 * The daily high/low temperature and high wind-speed annotations
 * (make_high_low_annotations_dict): group the series by a calendar key of
 * each row's date, take each group's extreme, and place it at the first row,
 * in series order, of that group holding that value. The dashboard's key is
 * `DATE.dt.day()`, the day of the month (`DailyAnnotations`); the grouping
 * itself is stated for any key.
 */
module Extremes {
  import opened Options
  import opened Times
  import opened Seqs
  import opened Records

  datatype Category = HighTemp | LowTemp | HighWind

  datatype Annotation = Annotation(time: Time, value: real)

  /** The column a category aggregates: wind speed for the wind high, temperature otherwise. */
  function Reading(row: Row, c: Category): Option<real> {
    if c == HighWind then row.windSpeed else row.temp
  }

  /** The column restricted to group `k`; other groups' cells read as null. */
  function GroupReadings(series: seq<Row>, key: Time -> int, c: Category, k: int): seq<Option<real>> {
    Map(series, (row: Row) => if key(row.date) == k then Reading(row, c) else None)
  }

  /** The group aggregate: `min()` for the low, `max()` otherwise. */
  function Extreme(series: seq<Row>, key: Time -> int, c: Category, k: int): Option<real> {
    var xs := GroupReadings(series, key, c, k);
    if c == LowTemp then MinOf(xs) else MaxOf(xs)
  }

  predicate Matches(row: Row, key: Time -> int, c: Category, k: int, v: real) {
    key(row.date) == k && Reading(row, c) == Some(v)
  }

  /** Some row of group `k` has a non-null value in the category's column. */
  ghost predicate HasReading(series: seq<Row>, key: Time -> int, c: Category, k: int) {
    exists i :: 0 <= i < |series| && key(series[i].date) == k && Reading(series[i], c).Some?
  }

  /** `v` is attained in group `k` and no reading of that group beats it. */
  ghost predicate IsExtreme(series: seq<Row>, key: Time -> int, c: Category, k: int, v: real) {
    && (exists i :: 0 <= i < |series| && Matches(series[i], key, c, k, v))
    && forall i :: 0 <= i < |series| && key(series[i].date) == k && Reading(series[i], c).Some? ==>
         if c == LowTemp then v <= Reading(series[i], c).value else Reading(series[i], c).value <= v
  }

  /** `a` is placed at the first row in series order of its group that holds its value. */
  ghost predicate IsFirstOccurrence(series: seq<Row>, key: Time -> int, c: Category, a: Annotation) {
    exists j :: && 0 <= j < |series|
                && series[j].date == a.time
                && Matches(series[j], key, c, key(a.time), a.value)
                && forall j' :: 0 <= j' < j ==> !Matches(series[j'], key, c, key(a.time), a.value)
  }

  lemma ExtremeIsExtreme(series: seq<Row>, key: Time -> int, c: Category, k: int)
    ensures Extreme(series, key, c, k).Some? <==> HasReading(series, key, c, k)
    ensures Extreme(series, key, c, k).Some? ==> IsExtreme(series, key, c, k, Extreme(series, key, c, k).value)
  {
    var xs := GroupReadings(series, key, c, k);
    var e := Extreme(series, key, c, k);
    if HasReading(series, key, c, k) {
      var i :| 0 <= i < |series| && key(series[i].date) == k && Reading(series[i], c).Some?;
      assert xs[i].Some?;
    }
    if e.Some? {
      assert e in xs;
      var i :| 0 <= i < |xs| && xs[i] == e;
      assert Matches(series[i], key, c, k, e.value);
      forall j | 0 <= j < |series| && key(series[j].date) == k && Reading(series[j], c).Some?
        ensures if c == LowTemp then e.value <= Reading(series[j], c).value else Reading(series[j], c).value <= e.value
      {
        assert xs[j] == Reading(series[j], c);
      }
    }
  }

  /** The annotation of group `k`, if that group has any reading in the column. */
  function AnnotationOf(series: seq<Row>, key: Time -> int, c: Category, k: int): Option<Annotation> {
    match Extreme(series, key, c, k)
    case None => None
    case Some(v) =>
      var i := FirstIndex(series, (row: Row) => Matches(row, key, c, k, v));
      if i < |series| then Some(Annotation(series[i].date, v)) else None
  }

  lemma AnnotationOfSpec(series: seq<Row>, key: Time -> int, c: Category, k: int)
    ensures AnnotationOf(series, key, c, k).Some? <==> HasReading(series, key, c, k)
    ensures AnnotationOf(series, key, c, k).Some? ==>
              var a := AnnotationOf(series, key, c, k).value;
              && key(a.time) == k
              && IsExtreme(series, key, c, k, a.value)
              && IsFirstOccurrence(series, key, c, a)
  {
    ExtremeIsExtreme(series, key, c, k);
    match Extreme(series, key, c, k)
    case None =>
    case Some(v) =>
      var p := (row: Row) => Matches(row, key, c, k, v);
      var i := FirstIndex(series, p);
      var j :| 0 <= j < |series| && Matches(series[j], key, c, k, v);
      assert p(series[j]);
      assert i < |series|;
      var a := Annotation(series[i].date, v);
      assert key(a.time) == k;
      assert forall j' :: 0 <= j' < i ==> !Matches(series[j'], key, c, key(a.time), a.value);
  }

  /** The distinct group keys in order of first appearance (the group rows). */
  function GroupKeys(series: seq<Row>, key: Time -> int): (ks: seq<int>)
    ensures NoDuplicates(ks)
    ensures forall k :: k in ks <==> exists i :: 0 <= i < |series| && key(series[i].date) == k
  {
    var keys := Map(series, (row: Row) => key(row.date));
    assert forall k :: k in keys <==> exists i :: 0 <= i < |series| && key(series[i].date) == k;
    Distinct(keys)
  }

  /** The per-group loop: one annotation per group that has a reading, in group order. */
  function Annotations(series: seq<Row>, key: Time -> int, c: Category, groups: seq<int>): seq<Annotation> {
    if |groups| == 0 then []
    else
      (match AnnotationOf(series, key, c, groups[0])
       case Some(a) => [a]
       case None => [])
      + Annotations(series, key, c, groups[1..])
  }

  function AnnotationsByKey(series: seq<Row>, key: Time -> int, c: Category): seq<Annotation> {
    Annotations(series, key, c, GroupKeys(series, key))
  }

  /** The dashboard's grouping: by day of the month. */
  function DailyAnnotations(series: seq<Row>, c: Category): seq<Annotation> {
    AnnotationsByKey(series, DayOfMonth, c)
  }

  lemma {:induction false} AnnotationsFollowGroups(series: seq<Row>, key: Time -> int, c: Category, groups: seq<int>)
    ensures var r := Annotations(series, key, c, groups);
            var d := Filter(groups, (k: int) => Extreme(series, key, c, k).Some?);
            && |r| == |d|
            && forall i :: 0 <= i < |r| ==> AnnotationOf(series, key, c, d[i]) == Some(r[i])
  {
    if |groups| > 0 {
      var p := (k: int) => Extreme(series, key, c, k).Some?;
      AnnotationsFollowGroups(series, key, c, groups[1..]);
      AnnotationOfPresent(series, key, c, groups[0]);
      var rest := Annotations(series, key, c, groups[1..]);
      var d := Filter(groups[1..], p);
      if p(groups[0]) {
        var a := AnnotationOf(series, key, c, groups[0]).value;
        assert Annotations(series, key, c, groups) == [a] + rest;
        assert Filter(groups, p) == [groups[0]] + d;
        PairsCons(k => AnnotationOf(series, key, c, k), groups[0], a, rest, d);
      } else {
        assert Annotations(series, key, c, groups) == rest;
        assert Filter(groups, p) == d;
      }
    }
  }

  /** Pairing `d` with `rest` under `f` survives putting one more pair in front. */
  lemma PairsCons(f: int -> Option<Annotation>, g: int, a: Annotation, rest: seq<Annotation>, d: seq<int>)
    requires |rest| == |d|
    requires forall i :: 0 <= i < |rest| ==> f(d[i]) == Some(rest[i])
    requires f(g) == Some(a)
    ensures forall i :: 0 <= i < |rest| + 1 ==> f(([g] + d)[i]) == Some(([a] + rest)[i])
  {
    forall i | 0 <= i < |rest| + 1
      ensures f(([g] + d)[i]) == Some(([a] + rest)[i])
    {
      if i > 0 {
        assert ([g] + d)[i] == d[i - 1] && ([a] + rest)[i] == rest[i - 1];
      }
    }
  }

  /** A group gets an annotation exactly when it has an aggregate. */
  lemma AnnotationOfPresent(series: seq<Row>, key: Time -> int, c: Category, k: int)
    ensures AnnotationOf(series, key, c, k).Some? <==> Extreme(series, key, c, k).Some?
  {
    AnnotationOfSpec(series, key, c, k);
    ExtremeIsExtreme(series, key, c, k);
  }

  /**
   * One annotation per group that has a non-null reading in the category's
   * column and none for any other group; each carries that group's extreme
   * and the time of the first row in series order holding it.
   */
  lemma AnnotationsByKeySpec(series: seq<Row>, key: Time -> int, c: Category)
    ensures var r := AnnotationsByKey(series, key, c);
            && (forall k :: (exists i :: 0 <= i < |r| && key(r[i].time) == k) <==> HasReading(series, key, c, k))
            && (forall i, j :: 0 <= i < j < |r| ==> key(r[i].time) != key(r[j].time))
            && (forall i :: 0 <= i < |r| ==> IsExtreme(series, key, c, key(r[i].time), r[i].value))
            && (forall i :: 0 <= i < |r| ==> IsFirstOccurrence(series, key, c, r[i]))
  {
    var r := AnnotationsByKey(series, key, c);
    var keys := GroupKeys(series, key);
    var p := (k: int) => Extreme(series, key, c, k).Some?;
    var d := Filter(keys, p);
    AnnotationsFollowGroups(series, key, c, keys);
    FilterNoDuplicates(keys, p);
    forall i | 0 <= i < |r|
      ensures key(r[i].time) == d[i]
      ensures IsExtreme(series, key, c, key(r[i].time), r[i].value)
      ensures IsFirstOccurrence(series, key, c, r[i])
    {
      AnnotationOfSpec(series, key, c, d[i]);
    }
    forall k ensures (exists i :: 0 <= i < |r| && key(r[i].time) == k) <==> HasReading(series, key, c, k) {
      ExtremeIsExtreme(series, key, c, k);
      if HasReading(series, key, c, k) {
        var i :| 0 <= i < |series| && key(series[i].date) == k && Reading(series[i], c).Some?;
        assert k in keys;
        assert k in d;
        var m :| 0 <= m < |d| && d[m] == k;
        assert key(r[m].time) == k;
      }
    }
  }

  /** The dashboard's annotations: one per day of the month that has a reading. */
  lemma DailyAnnotationsSpec(series: seq<Row>, c: Category)
    ensures var r := DailyAnnotations(series, c);
            && (forall k :: (exists i :: 0 <= i < |r| && DayOfMonth(r[i].time) == k) <==> HasReading(series, DayOfMonth, c, k))
            && (forall i, j :: 0 <= i < j < |r| ==> DayOfMonth(r[i].time) != DayOfMonth(r[j].time))
            && (forall i :: 0 <= i < |r| ==> IsExtreme(series, DayOfMonth, c, DayOfMonth(r[i].time), r[i].value))
            && (forall i :: 0 <= i < |r| ==> IsFirstOccurrence(series, DayOfMonth, c, r[i]))
  {
    AnnotationsByKeySpec(series, DayOfMonth, c);
  }
}
