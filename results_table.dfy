/** The per-word results table of calculate_semantic_change.py and the
    ordering it is written in: descending by the exemplar-based
    (affinity-propagation) divergence. */
module ResultsTable {

  /** One row of the written table. Scores are reals: the floating-point
      values (and their NaNs) are not modelled. */
  datatype Row = Row(
    word: string,
    affProp: real,
    kmeans5: real,
    kmeans7: real,
    averaging: real,
    affPropClusters: nat)

  ghost predicate DescendingByAffProp(rows: seq<Row>) {
    forall a, b :: 0 <= a < b < |rows| ==> rows[a].affProp >= rows[b].affProp
  }

  /** Insert one row into a table already in descending order, after every
      row whose score is at least as large. */
  method InsertRow(sorted: seq<Row>, row: Row) returns (r: seq<Row>)
    requires DescendingByAffProp(sorted)
    ensures multiset(r) == multiset(sorted) + multiset{row}
    ensures DescendingByAffProp(r)
  {
    var j := 0;
    while j < |sorted| && sorted[j].affProp >= row.affProp
      invariant 0 <= j <= |sorted|
      invariant forall k :: 0 <= k < j ==> sorted[k].affProp >= row.affProp
    {
      j := j + 1;
    }
    assert forall k :: j <= k < |sorted| ==> sorted[k].affProp < row.affProp by {
      if j < |sorted| {
        assert sorted[j].affProp < row.affProp;
      }
    }
    assert sorted == sorted[..j] + sorted[j..];
    r := sorted[..j] + [row] + sorted[j..];
    InsertedDescending(sorted, row, j);
  }

  lemma InsertedDescending(sorted: seq<Row>, row: Row, j: nat)
    requires DescendingByAffProp(sorted) && j <= |sorted|
    requires forall k :: 0 <= k < j ==> sorted[k].affProp >= row.affProp
    requires forall k :: j <= k < |sorted| ==> sorted[k].affProp < row.affProp
    ensures DescendingByAffProp(sorted[..j] + [row] + sorted[j..])
  {
    var r := sorted[..j] + [row] + sorted[j..];
    forall a, b | 0 <= a < b < |r| ensures r[a].affProp >= r[b].affProp {
      if b < j {
        assert r[a] == sorted[a] && r[b] == sorted[b];
      } else if a > j {
        assert r[a] == sorted[a - 1] && r[b] == sorted[b - 1];
      } else if a == j {
        assert r[b] == sorted[b - 1];
      } else {
        assert r[a] == sorted[a];
      }
    }
  }

  /** `sort_values(by=['aff_prop'], ascending=False)` (line 227): the rows
      in non-increasing `aff_prop` order, as a permutation of the input. The
      library sort is not stable, so nothing is promised about ties. */
  method SortByAffProp(rows: seq<Row>) returns (sorted: seq<Row>)
    ensures multiset(sorted) == multiset(rows)
    ensures DescendingByAffProp(sorted)
  {
    sorted := [];
    for i := 0 to |rows|
      invariant multiset(sorted) == multiset(rows[..i])
      invariant DescendingByAffProp(sorted)
    {
      assert rows[..i + 1] == rows[..i] + [rows[i]];
      sorted := InsertRow(sorted, rows[i]);
    }
    assert rows[..|rows|] == rows;
  }
}
