/**
 * `groupby(key)[counters].sum()` (app.py:17, app.py:49): one group per distinct non-missing key,
 * in ascending key order, each holding the column sums of its rows.
 */
module Grouping {
  import opened Wrappers
  import opened Frame

  /** Which column the table is grouped by. */
  datatype GroupBy = ByPlacement | ByKeyword

  function KeyOf(r: Record, column: GroupBy): Option<string> {
    match column
    case ByPlacement => r.placement
    case ByKeyword => r.keyword
  }

  /** One of the five summed columns. */
  datatype Metric = Impressions | Clicks | Orders | Revenue | Spend

  function Get(c: Counters, m: Metric): nat {
    match m
    case Impressions => c.impressions
    case Clicks => c.clicks
    case Orders => c.orders
    case Revenue => c.revenue
    case Spend => c.spend
  }

  /** Python's `<` on `str`: lexicographic by code point, a proper prefix first. */
  predicate StrLess(a: string, b: string) {
    if |a| == 0 then |b| > 0
    else if |b| == 0 then false
    else if a[0] != b[0] then a[0] < b[0]
    else StrLess(a[1..], b[1..])
  }

  lemma {:induction false} StrLessIrreflexive(a: string)
    ensures !StrLess(a, a)
  {
    if |a| > 0 {
      StrLessIrreflexive(a[1..]);
    }
  }

  lemma {:induction false} StrLessTransitive(a: string, b: string, c: string)
    requires StrLess(a, b) && StrLess(b, c)
    ensures StrLess(a, c)
  {
    if |a| > 0 && a[0] == b[0] && b[0] == c[0] {
      StrLessTransitive(a[1..], b[1..], c[1..]);
    }
  }

  lemma {:induction false} StrLessTotal(a: string, b: string)
    requires a != b
    ensures StrLess(a, b) || StrLess(b, a)
  {
    if |a| > 0 && |b| > 0 && a[0] == b[0] {
      assert a == [a[0]] + a[1..] && b == [b[0]] + b[1..];
      StrLessTotal(a[1..], b[1..]);
    }
  }

  function Elements(ks: seq<string>): (s: set<string>)
    ensures forall k :: k in s <==> k in ks
  {
    set k | k in ks
  }

  predicate StrictlyAscending(ks: seq<string>) {
    forall i, j :: 0 <= i < j < |ks| ==> StrLess(ks[i], ks[j])
  }

  lemma ConsAscending(k: string, ks: seq<string>)
    requires StrictlyAscending(ks)
    requires forall x :: x in ks ==> StrLess(k, x)
    ensures StrictlyAscending([k] + ks)
  {
    var r := [k] + ks;
    forall i, j | 0 <= i < j < |r| ensures StrLess(r[i], r[j]) {
      if i == 0 {
        assert r[j] in ks;
      } else {
        assert r[i] == ks[i - 1] && r[j] == ks[j - 1];
      }
    }
  }

  /** Adds `k` to an ascending list of distinct keys, keeping it ascending and distinct. */
  function InsertKey(k: string, ks: seq<string>): (r: seq<string>)
    requires StrictlyAscending(ks)
    ensures StrictlyAscending(r)
    ensures forall x :: x in r <==> x == k || x in ks
  {
    if ks == [] then [k]
    else if k == ks[0] then ks
    else if StrLess(k, ks[0]) then
      (forall x | x in ks ensures StrLess(k, x) {
         if x != ks[0] { StrLessTransitive(k, ks[0], x); }
       }
       ConsAscending(k, ks);
       [k] + ks)
    else
      var rest := InsertKey(k, ks[1..]);
      StrLessTotal(k, ks[0]);
      ConsAscending(ks[0], rest);
      assert ks == [ks[0]] + ks[1..];
      [ks[0]] + rest
  }

  /** The distinct non-missing keys of the rows. */
  function KeySet(rows: seq<Record>, column: GroupBy): (ks: set<string>)
    ensures forall k :: k in ks <==> exists r :: r in rows && KeyOf(r, column) == Some(k)
  {
    if rows == [] then {}
    else match KeyOf(rows[0], column)
      case None => KeySet(rows[1..], column)
      case Some(k) => {k} + KeySet(rows[1..], column)
  }

  /** The group index `groupby` builds: the distinct keys, sorted ascending (`sort=True`). */
  function SortedKeys(rows: seq<Record>, column: GroupBy): (ks: seq<string>)
    ensures StrictlyAscending(ks)
    ensures forall k :: k in ks <==> k in KeySet(rows, column)
  {
    if rows == [] then []
    else match KeyOf(rows[0], column)
      case None => SortedKeys(rows[1..], column)
      case Some(k) => InsertKey(k, SortedKeys(rows[1..], column))
  }

  /** What one row adds to the sum of column `m` over the keys `keys`. */
  function Counted(r: Record, keys: set<string>, column: GroupBy, m: Metric): nat {
    if KeyOf(r, column).Some? && KeyOf(r, column).value in keys then Get(r.counters, m) else 0
  }

  /** Reference sum: column `m` summed over the rows whose key is one of `keys`. */
  function ColumnSum(rows: seq<Record>, keys: set<string>, column: GroupBy, m: Metric): nat {
    if rows == [] then 0 else Counted(rows[0], keys, column, m) + ColumnSum(rows[1..], keys, column, m)
  }

  /** Column `m` summed over every row that has a key. */
  function KeyedColumnSum(rows: seq<Record>, column: GroupBy, m: Metric): nat {
    if rows == [] then 0
    else (if KeyOf(rows[0], column).Some? then Get(rows[0].counters, m) else 0) + KeyedColumnSum(rows[1..], column, m)
  }

  /** The five column sums over the rows whose key is one of `keys`. */
  function SumIn(rows: seq<Record>, keys: set<string>, column: GroupBy): (c: Counters)
    ensures forall m :: Get(c, m) == ColumnSum(rows, keys, column, m)
  {
    Counters(ColumnSum(rows, keys, column, Impressions), ColumnSum(rows, keys, column, Clicks),
             ColumnSum(rows, keys, column, Orders), ColumnSum(rows, keys, column, Revenue),
             ColumnSum(rows, keys, column, Spend))
  }

  /** The five column sums over every row that has a key. */
  function SumKeyed(rows: seq<Record>, column: GroupBy): (c: Counters)
    ensures forall m :: Get(c, m) == KeyedColumnSum(rows, column, m)
  {
    Counters(KeyedColumnSum(rows, column, Impressions), KeyedColumnSum(rows, column, Clicks),
             KeyedColumnSum(rows, column, Orders), KeyedColumnSum(rows, column, Revenue),
             KeyedColumnSum(rows, column, Spend))
  }

  /** One row of `groupby().sum()`: its key and the summed counters. */
  datatype Group = Group(key: string, sums: Counters)

  function GroupsFor(rows: seq<Record>, ks: seq<string>, column: GroupBy): (gs: seq<Group>)
    ensures |gs| == |ks|
    ensures forall i :: 0 <= i < |gs| ==> gs[i] == Group(ks[i], SumIn(rows, {ks[i]}, column))
  {
    if ks == [] then [] else [Group(ks[0], SumIn(rows, {ks[0]}, column))] + GroupsFor(rows, ks[1..], column)
  }

  /**
   * `rows.groupby(key)[counters].sum()`: rows without a key fall into no group (`dropna=True`),
   * every distinct key gets exactly one group, the groups come in ascending key order, and each
   * group holds the sums of its rows' counters.
   */
  function GroupSum(rows: seq<Record>, column: GroupBy): (gs: seq<Group>)
    ensures forall i, j :: 0 <= i < j < |gs| ==> StrLess(gs[i].key, gs[j].key)
    ensures forall k :: (exists i :: 0 <= i < |gs| && gs[i].key == k) <==> k in KeySet(rows, column)
    ensures forall i :: 0 <= i < |gs| ==> gs[i].sums == SumIn(rows, {gs[i].key}, column)
  {
    var ks := SortedKeys(rows, column);
    var gs := GroupsFor(rows, ks, column);
    assert forall k :: k in ks <==> exists i :: 0 <= i < |gs| && gs[i].key == k by {
      forall k | k in ks ensures exists i :: 0 <= i < |gs| && gs[i].key == k {
        var i :| 0 <= i < |ks| && ks[i] == k;
        assert gs[i].key == k;
      }
    }
    gs
  }

  /** Column `m` summed over group rows. */
  function GroupColumnSum(gs: seq<Group>, m: Metric): nat {
    if gs == [] then 0 else Get(gs[0].sums, m) + GroupColumnSum(gs[1..], m)
  }

  /** `test_df[counters].sum()`: the column sums of the group rows. */
  function SumGroups(gs: seq<Group>): (c: Counters)
    ensures forall m :: Get(c, m) == GroupColumnSum(gs, m)
  {
    Counters(GroupColumnSum(gs, Impressions), GroupColumnSum(gs, Clicks), GroupColumnSum(gs, Orders),
             GroupColumnSum(gs, Revenue), GroupColumnSum(gs, Spend))
  }

  lemma {:induction false} ColumnSumUnion(rows: seq<Record>, s: set<string>, t: set<string>, column: GroupBy, m: Metric)
    requires s !! t
    ensures ColumnSum(rows, s + t, column, m) == ColumnSum(rows, s, column, m) + ColumnSum(rows, t, column, m)
  {
    if rows != [] {
      ColumnSumUnion(rows[1..], s, t, column, m);
    }
  }

  lemma {:induction false} ColumnSumCovers(rows: seq<Record>, s: set<string>, column: GroupBy, m: Metric)
    requires KeySet(rows, column) <= s
    ensures ColumnSum(rows, s, column, m) == KeyedColumnSum(rows, column, m)
  {
    if rows != [] {
      ColumnSumCovers(rows[1..], s, column, m);
    }
  }

  lemma {:induction false} ColumnSumNoKeys(rows: seq<Record>, column: GroupBy, m: Metric)
    ensures ColumnSum(rows, {}, column, m) == 0
  {
    if rows != [] {
      ColumnSumNoKeys(rows[1..], column, m);
    }
  }

  /** The first key of a strictly ascending sequence does not occur again. */
  lemma HeadNotInTail(ks: seq<string>)
    requires StrictlyAscending(ks) && ks != []
    ensures forall x :: x in ks[1..] ==> x != ks[0]
  {
    forall x | x in ks[1..] ensures x != ks[0] {
      if x == ks[0] {
        var j :| 0 <= j < |ks[1..]| && ks[1..][j] == x;
        assert StrLess(ks[0], ks[j + 1]);
        StrLessIrreflexive(ks[0]);
      }
    }
  }

  lemma {:induction false} GroupsForColumnSum(rows: seq<Record>, ks: seq<string>, column: GroupBy, m: Metric)
    requires StrictlyAscending(ks)
    ensures GroupColumnSum(GroupsFor(rows, ks, column), m) == ColumnSum(rows, Elements(ks), column, m)
  {
    if ks == [] {
      ColumnSumNoKeys(rows, column, m);
      assert Elements(ks) == {};
    } else {
      var rest := ks[1..];
      var gs := GroupsFor(rows, ks, column);
      var all, head, tail := Elements(ks), {ks[0]}, Elements(rest);
      assert gs[1..] == GroupsFor(rows, rest, column);
      GroupsForColumnSum(rows, rest, column, m);
      assert all == head + tail;
      HeadNotInTail(ks);
      ColumnSumUnion(rows, head, tail, column, m);
      calc {
        GroupColumnSum(gs, m);
        Get(gs[0].sums, m) + GroupColumnSum(gs[1..], m);
        ColumnSum(rows, head, column, m) + ColumnSum(rows, tail, column, m);
        ColumnSum(rows, all, column, m);
      }
    }
  }

  /** Every key of some row has its group. */
  lemma GroupOfKey(rows: seq<Record>, column: GroupBy, k: string) returns (i: nat)
    requires k in KeySet(rows, column)
    ensures i < |GroupSum(rows, column)| && GroupSum(rows, column)[i].key == k
  {
    var gs := GroupSum(rows, column);
    i :| 0 <= i < |gs| && gs[i].key == k;
  }

  /** Every group's key is a key of some row. */
  lemma GroupKeyIsRowKey(rows: seq<Record>, column: GroupBy, i: nat)
    requires i < |GroupSum(rows, column)|
    ensures GroupSum(rows, column)[i].key in KeySet(rows, column)
  {
    var gs := GroupSum(rows, column);
    assert exists j :: 0 <= j < |gs| && gs[j].key == gs[i].key;
  }

  /** Adding up the group rows, column by column, gives the sums over every row that has a key. */
  lemma GroupSumTotal(rows: seq<Record>, column: GroupBy)
    ensures SumGroups(GroupSum(rows, column)) == SumKeyed(rows, column)
  {
    var ks := SortedKeys(rows, column);
    assert Elements(ks) == KeySet(rows, column);
    forall m ensures GroupColumnSum(GroupSum(rows, column), m) == KeyedColumnSum(rows, column, m) {
      GroupsForColumnSum(rows, ks, column, m);
      ColumnSumCovers(rows, KeySet(rows, column), column, m);
    }
  }

  lemma {:induction false} SortedKeysSkipUnkeyed(a: seq<Record>, x: Record, b: seq<Record>, column: GroupBy)
    requires KeyOf(x, column) == None
    ensures SortedKeys(a + [x] + b, column) == SortedKeys(a + b, column)
  {
    if a == [] {
      assert a + [x] + b == [x] + b && ([x] + b)[1..] == b && a + b == b;
    } else {
      SortedKeysSkipUnkeyed(a[1..], x, b, column);
      assert (a + [x] + b)[1..] == a[1..] + [x] + b;
      assert (a + b)[1..] == a[1..] + b;
    }
  }

  lemma {:induction false} ColumnSumSkipsUnkeyed(a: seq<Record>, x: Record, b: seq<Record>, keys: set<string>, column: GroupBy, m: Metric)
    requires KeyOf(x, column) == None
    ensures ColumnSum(a + [x] + b, keys, column, m) == ColumnSum(a + b, keys, column, m)
  {
    if a == [] {
      assert a + [x] + b == [x] + b && ([x] + b)[1..] == b && a + b == b;
    } else {
      ColumnSumSkipsUnkeyed(a[1..], x, b, keys, column, m);
      assert (a + [x] + b)[1..] == a[1..] + [x] + b;
      assert (a + b)[1..] == a[1..] + b;
    }
  }

  /** A row without a key changes no group, wherever it stands. */
  lemma GroupSumSkipsUnkeyed(a: seq<Record>, x: Record, b: seq<Record>, column: GroupBy)
    requires KeyOf(x, column) == None
    ensures GroupSum(a + [x] + b, column) == GroupSum(a + b, column)
  {
    SortedKeysSkipUnkeyed(a, x, b, column);
    var ks := SortedKeys(a + b, column);
    var g1 := GroupsFor(a + [x] + b, ks, column);
    var g2 := GroupsFor(a + b, ks, column);
    forall i, m | 0 <= i < |ks| ensures ColumnSum(a + [x] + b, {ks[i]}, column, m) == ColumnSum(a + b, {ks[i]}, column, m) {
      ColumnSumSkipsUnkeyed(a, x, b, {ks[i]}, column, m);
    }
    assert g1 == g2;
  }
}
