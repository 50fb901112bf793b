/** `sort_values(by='노출수', ascending=False)` of the keyword table (app.py:57). */
module Ordering {
  import opened Summary

  predicate ImpressionsNonIncreasing(rows: seq<MetricsRow>) {
    forall i, j :: 0 <= i < j < |rows| ==> rows[i].sums.impressions >= rows[j].sums.impressions
  }

  lemma LeadsAll(h: MetricsRow, x: MetricsRow, tail: seq<MetricsRow>, rest: seq<MetricsRow>)
    requires ImpressionsNonIncreasing([h] + tail) && ImpressionsNonIncreasing(rest)
    requires h.sums.impressions >= x.sums.impressions
    requires multiset(rest) == multiset(tail) + multiset{x}
    ensures ImpressionsNonIncreasing([h] + rest)
  {
    var r := [h] + rest;
    forall j | 1 <= j < |r| ensures h.sums.impressions >= r[j].sums.impressions {
      var y := rest[j - 1];
      assert r[j] == y;
      assert y in multiset(rest);
      if y != x {
        assert y in multiset(tail);
        assert y in tail;
        var k :| 0 <= k < |tail| && tail[k] == y;
        var ht := [h] + tail;
        assert ht[0] == h && ht[k + 1] == y;
        assert ht[0].sums.impressions >= ht[k + 1].sums.impressions;
      }
    }
  }

  function InsertByImpressions(x: MetricsRow, rows: seq<MetricsRow>): (r: seq<MetricsRow>)
    requires ImpressionsNonIncreasing(rows)
    ensures ImpressionsNonIncreasing(r)
    ensures multiset(r) == multiset(rows) + multiset{x}
  {
    if rows == [] || x.sums.impressions >= rows[0].sums.impressions then [x] + rows
    else
      var rest := InsertByImpressions(x, rows[1..]);
      assert rows == [rows[0]] + rows[1..];
      LeadsAll(rows[0], x, rows[1..], rest);
      [rows[0]] + rest
  }

  /**
   * The rows reordered by impressions, largest first. Rows with equal impressions keep their
   * order here; the source's default sort does not promise any order among them.
   */
  function SortByImpressions(rows: seq<MetricsRow>): (r: seq<MetricsRow>)
    ensures ImpressionsNonIncreasing(r)
    ensures multiset(r) == multiset(rows)
  {
    if rows == [] then []
    else
      assert rows == [rows[0]] + rows[1..];
      InsertByImpressions(rows[0], SortByImpressions(rows[1..]))
  }
}
