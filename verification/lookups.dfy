/**
 * The two lookup tables of the forecast log: short forecast texts and icon
 * URLs, each stored once with an integer id that prediction rows refer to
 * (tasks/get_nws_forecast.py, add_new_forecast_descriptions and
 * add_new_forecast_icons; both follow the same rule).
 */
module Lookups {
  import opened Options
  import opened Seqs

  datatype Entry = Entry(id: int, text: string)

  /**
   * The left join of a forecast row onto a table: the id of the first entry
   * with that text, null when there is none.
   */
  function Lookup(table: seq<Entry>, text: string): (r: Option<int>)
    ensures r.None? <==> forall i :: 0 <= i < |table| ==> table[i].text != text
    ensures r.Some? ==> Entry(r.value, text) in table
  {
    if |table| == 0 then None
    else if table[0].text == text then Some(table[0].id)
    else Lookup(table[1..], text)
  }

  /** The table's largest id, 0 when the table is empty. */
  function MaxId(table: seq<Entry>): (m: int)
    ensures |table| == 0 ==> m == 0
    ensures forall i :: 0 <= i < |table| ==> table[i].id <= m
    ensures |table| > 0 ==> exists i :: 0 <= i < |table| && table[i].id == m
  {
    var ids := Map(table, (e: Entry) => e.id);
    assert forall i :: 0 <= i < |table| ==> ids[i] == table[i].id;
    MaxInt(ids).GetOr(0)
  }

  ghost predicate UniqueTexts(table: seq<Entry>) {
    forall i, j :: 0 <= i < j < |table| ==> table[i].text != table[j].text
  }

  ghost predicate UniqueIds(table: seq<Entry>) {
    forall i, j :: 0 <= i < j < |table| ==> table[i].id != table[j].id
  }

  /** The texts of the fetched rows whose join found no id, each once, in order of first appearance. */
  function Unmatched(table: seq<Entry>, texts: seq<string>): (u: seq<string>)
    ensures forall t :: t in u <==> t in texts && Lookup(table, t).None?
    ensures NoDuplicates(u)
  {
    Distinct(Filter(texts, t => Lookup(table, t).None?))
  }

  /** Entries for `u` numbered consecutively from `base`. */
  function Numbered(base: int, u: seq<string>): (r: seq<Entry>)
    ensures |r| == |u|
    ensures forall i :: 0 <= i < |u| ==> r[i] == Entry(base + i, u[i])
  {
    seq(|u|, i requires 0 <= i < |u| => Entry(base + i, u[i]))
  }

  /**
   * The rule as the job applies it: when some row lacks an id, the distinct
   * missing texts get ids `max + row_nr` with `row_nr` counting from 0, and
   * are appended after the existing entries. Returns whether the table grew.
   */
  function AddNewTexts(table: seq<Entry>, texts: seq<string>): (r: (bool, seq<Entry>))
    ensures r.0 <==> exists i :: 0 <= i < |texts| && Lookup(table, texts[i]).None?
    ensures !r.0 ==> r.1 == table
    ensures table <= r.1
    ensures |r.1| == |table| + |Unmatched(table, texts)|
    ensures forall i :: |table| <= i < |r.1| ==> r.1[i].text == Unmatched(table, texts)[i - |table|]
    ensures forall i :: |table| <= i < |r.1| ==> r.1[i].id == MaxId(table) + (i - |table|)
    ensures forall t :: t in texts ==> Lookup(r.1, t).Some?
    ensures UniqueTexts(table) ==> UniqueTexts(r.1)
  {
    var u := Unmatched(table, texts);
    SomeUnmatched(table, texts);
    if |u| > 0 then
      Extend(table, texts, MaxId(table));
      (true, table + Numbered(MaxId(table), u))
    else
      (false, table)
  }

  /** The corrected rule: the new ids start one past the largest, or at 0 for an empty table. */
  function FreshBase(table: seq<Entry>): (b: int)
    ensures forall i :: 0 <= i < |table| ==> table[i].id < b
  {
    if |table| == 0 then 0 else MaxId(table) + 1
  }

  function AllocateTexts(table: seq<Entry>, texts: seq<string>): (r: (bool, seq<Entry>))
    ensures r.0 <==> exists i :: 0 <= i < |texts| && Lookup(table, texts[i]).None?
    ensures !r.0 ==> r.1 == table
    ensures table <= r.1
    ensures |r.1| == |table| + |Unmatched(table, texts)|
    ensures forall i :: |table| <= i < |r.1| ==> r.1[i].text == Unmatched(table, texts)[i - |table|]
    ensures forall i :: |table| <= i < |r.1| ==> r.1[i].id == FreshBase(table) + (i - |table|)
    ensures forall t :: t in texts ==> Lookup(r.1, t).Some?
    ensures UniqueIds(table) ==> UniqueIds(r.1)
    ensures UniqueTexts(table) ==> UniqueTexts(r.1)
  {
    var u := Unmatched(table, texts);
    SomeUnmatched(table, texts);
    if |u| > 0 then
      Extend(table, texts, FreshBase(table));
      (true, table + Numbered(FreshBase(table), u))
    else
      (false, table)
  }

  lemma {:induction false} LookupAppend(table: seq<Entry>, extra: seq<Entry>, text: string)
    ensures Lookup(table, text).Some? ==> Lookup(table + extra, text) == Lookup(table, text)
    ensures Lookup(table, text).None? ==> Lookup(table + extra, text) == Lookup(extra, text)
  {
    if |table| > 0 {
      assert (table + extra)[1..] == table[1..] + extra;
      LookupAppend(table[1..], extra, text);
    } else {
      assert table + extra == extra;
    }
  }

  /** Some text lacks an id exactly when there is an unmatched text; otherwise every text resolves. */
  lemma SomeUnmatched(table: seq<Entry>, texts: seq<string>)
    ensures |Unmatched(table, texts)| > 0 <==> exists i :: 0 <= i < |texts| && Lookup(table, texts[i]).None?
    ensures |Unmatched(table, texts)| == 0 ==> forall t :: t in texts ==> Lookup(table, t).Some?
  {
    var u := Unmatched(table, texts);
    if |u| > 0 {
      assert u[0] in u;
      var i :| 0 <= i < |texts| && texts[i] == u[0];
    } else {
      forall i | 0 <= i < |texts|
        ensures Lookup(table, texts[i]).Some?
      {
        assert texts[i] in texts;
      }
    }
  }

  /** What appending the unmatched texts, numbered from `base`, does to a table. */
  lemma Extend(table: seq<Entry>, texts: seq<string>, base: int)
    ensures var u := Unmatched(table, texts);
            var r := table + Numbered(base, u);
            && |r| == |table| + |u|
            && table <= r
            && (forall i :: |table| <= i < |r| ==> r[i].text == u[i - |table|] && r[i].id == base + (i - |table|))
            && (forall t :: t in texts ==> Lookup(r, t).Some?)
            && (UniqueTexts(table) ==> UniqueTexts(r))
            && ((forall i :: 0 <= i < |table| ==> table[i].id < base) && UniqueIds(table) ==> UniqueIds(r))
  {
    var u := Unmatched(table, texts);
    var r := table + Numbered(base, u);
    assert r[..|table|] == table;
    AllResolve(table, texts, u, r);
    NewTextsAreNew(table, texts, u, base, r);
  }

  lemma AllResolve(table: seq<Entry>, texts: seq<string>, u: seq<string>, r: seq<Entry>)
    requires u == Unmatched(table, texts)
    requires |r| == |table| + |u|
    requires r[..|table|] == table
    requires forall i :: 0 <= i < |u| ==> r[|table| + i].text == u[i]
    ensures forall t :: t in texts ==> Lookup(r, t).Some?
  {
    var extra := r[|table|..];
    assert r == table + extra;
    forall t | t in texts
      ensures Lookup(r, t).Some?
    {
      LookupAppend(table, extra, t);
      if Lookup(table, t).None? {
        var i :| 0 <= i < |u| && u[i] == t;
        assert extra[i].text == t;
      }
    }
  }

  /**
   * The appended texts are distinct and absent from the table, so texts stay
   * unique whatever the ids; ids stay unique when the new ones start above
   * every old one.
   */
  lemma NewTextsAreNew(table: seq<Entry>, texts: seq<string>, u: seq<string>, base: int, r: seq<Entry>)
    requires u == Unmatched(table, texts)
    requires r == table + Numbered(base, u)
    ensures UniqueTexts(table) ==> UniqueTexts(r)
    ensures (forall i :: 0 <= i < |table| ==> table[i].id < base) && UniqueIds(table) ==> UniqueIds(r)
  {
    forall i, j | 0 <= i < |table| <= j < |r|
      ensures r[i].text != r[j].text
    {
      assert r[j].text == u[j - |table|];
      assert r[j].text in u;
    }
  }

  /**
   * Under the job's rule the first new entry takes the id the table already
   * gives its largest entry, so one id then names two texts.
   */
  lemma AddNewTextsReusesId(table: seq<Entry>, texts: seq<string>)
    requires |table| > 0
    requires exists i :: 0 <= i < |texts| && Lookup(table, texts[i]).None?
    ensures var r := AddNewTexts(table, texts).1;
            exists i :: 0 <= i < |table| && r[i].id == r[|table|].id && r[i].text != r[|table|].text
  {
    var r := AddNewTexts(table, texts).1;
    var u := Unmatched(table, texts);
    assert |u| > 0 by {
      var k :| 0 <= k < |texts| && Lookup(table, texts[k]).None?;
      assert texts[k] in u;
    }
    assert r == table + Numbered(MaxId(table), u);
    var i :| 0 <= i < |table| && table[i].id == MaxId(table);
    assert r[|table|].text in u;
    assert r[i] == table[i];
  }

  /**
   * A concrete run: with `a` stored under id 0 (say "Sunny") and a batch
   * bringing a new text `b` (say "Cloudy"), `b` is stored under id 0 too.
   */
  lemma AddNewTextsCollision(a: string, b: string)
    requires a != b
    ensures AddNewTexts([Entry(0, a)], [b, a]) == (true, [Entry(0, a), Entry(0, b)])
  {
    var table := [Entry(0, a)];
    UnmatchedExample(a, b);
    MaxIdSingle(table[0]);
    NumberedSingle(0, b);
    assert table + Numbered(0, [b]) == [Entry(0, a), Entry(0, b)];
    AddNewTextsGrows(table, [b, a], [b], 0);
  }

  lemma MaxIdSingle(e: Entry)
    ensures MaxId([e]) == e.id
  {
    var i :| 0 <= i < 1 && [e][i].id == MaxId([e]);
  }

  lemma NumberedSingle(base: int, t: string)
    ensures Numbered(base, [t]) == [Entry(base, t)]
  {
    var n := Numbered(base, [t]);
    assert |n| == 1 && n[0] == Entry(base, t);
  }

  lemma AddNewTextsGrows(table: seq<Entry>, texts: seq<string>, u: seq<string>, base: int)
    requires u == Unmatched(table, texts) && |u| > 0
    requires base == MaxId(table)
    ensures AddNewTexts(table, texts) == (true, table + Numbered(base, u))
  {
  }

  lemma UnmatchedExample(a: string, b: string)
    requires a != b
    ensures Unmatched([Entry(0, a)], [b, a]) == [b]
  {
    var table := [Entry(0, a)];
    assert Lookup(table, a) == Some(0);
    assert Lookup(table, b) == None;
    var p := (t: string) => Lookup(table, t).None?;
    assert Filter([b, a], p) == [b] by {
      FilterConcat([b], [a], p);
      FilterSingleton(b, p);
      FilterSingleton(a, p);
      assert [b, a] == [b] + [a];
    }
    assert Distinct([b]) == [b];
  }

}
