/**
 * The nested loop of `get_series_by_sitecode_and_varcode`: for each specimen
 * result, one Series per grouped row with the same VariableID and UnitsID,
 * all built with the affiliation of the first emitted result's method
 * organization.
 */
module SeriesJoin {
  import opened Wrappers
  import opened Odm2Rows
  import opened Models
  import opened Sequences

  /** The join test of the nested loop: same VariableID and UnitsID; the medium is not compared. */
  predicate Joins(a: AggregateRow, r: ResultRow) {
    a.vid == r.VariableID() && a.unitid == r.UnitsID()
  }

  /** One copy of `r` per grouped row it joins, as the inner loop emits them. */
  function Copies(r: ResultRow, aggs: seq<AggregateRow>): (c: seq<ResultRow>)
    ensures |c| <= |aggs|
  {
    if aggs == [] then []
    else Copies(r, aggs[..|aggs| - 1]) + if Joins(aggs[|aggs| - 1], r) then [r] else []
  }

  /** The result rows the nested loop emits a series for, in emission order. */
  function JoinedRows(results: seq<ResultRow>, aggs: seq<AggregateRow>): seq<ResultRow> {
    if results == [] then []
    else JoinedRows(results[..|results| - 1], aggs) + Copies(results[|results| - 1], aggs)
  }

  /** The affiliation of the first emitted row's method organization, None when nothing is emitted. */
  function JoinAffiliation(orgAffiliation: Option<int> -> Option<AffiliationRow>, emitted: seq<ResultRow>): Option<AffiliationRow> {
    if emitted == [] then None else orgAffiliation(emitted[0].FeatureAction.Action.Method.OrganizationID)
  }

  /**
   * A series per row, all built by `mk` with the same affiliation. The
   * constructor is a parameter so that the loops below are proved for any
   * mapper; the DAO passes the Series mapper.
   */
  function SeriesMap<S>(mk: (ResultRow, Option<AffiliationRow>) -> S, rows: seq<ResultRow>, aff: Option<AffiliationRow>): (ss: seq<S>)
    ensures |ss| == |rows|
  {
    if rows == [] then [] else SeriesMap(mk, rows[..|rows| - 1], aff) + [mk(rows[|rows| - 1], aff)]
  }

  /** The nested loop over the results and the grouped rows. */
  method JoinSeries<S>(mk: (ResultRow, Option<AffiliationRow>) -> S, orgAffiliation: Option<int> -> Option<AffiliationRow>,
                       results: seq<ResultRow>, aggs: seq<AggregateRow>) returns (out: seq<S>)
    ensures out == SeriesMap(mk, JoinedRows(results, aggs), JoinAffiliation(orgAffiliation, JoinedRows(results, aggs)))
  {
    out := [];
    var aff: Option<AffiliationRow> := None;
    var firstFlag := true;
    var i := 0;
    while i < |results|
      invariant 0 <= i <= |results|
      invariant Emitting(mk, orgAffiliation, results, aggs, i, out, firstFlag, aff)
    {
      var out', firstFlag', aff' := JoinOneResult(mk, orgAffiliation, results[i], aggs, out, firstFlag, aff);
      EmittingStep(mk, orgAffiliation, results, aggs, i, out, firstFlag, aff, out', firstFlag', aff');
      out, firstFlag, aff := out', firstFlag', aff';
      i := i + 1;
    }
    EmittingDone(mk, orgAffiliation, results, aggs, out, firstFlag, aff);
  }

  /**
   * The state of the outer loop before result `i`: the flag is still set
   * exactly when nothing was emitted, and once cleared the affiliation is
   * the first emitted row's; the output holds a series per emitted row.
   */
  ghost predicate Emitting<S>(mk: (ResultRow, Option<AffiliationRow>) -> S, orgAffiliation: Option<int> -> Option<AffiliationRow>,
                              results: seq<ResultRow>, aggs: seq<AggregateRow>, i: nat,
                              out: seq<S>, firstFlag: bool, aff: Option<AffiliationRow>)
    requires i <= |results|
  {
    var emitted := JoinedRows(results[..i], aggs);
    var first := JoinAffiliation(orgAffiliation, JoinedRows(results, aggs));
    && (firstFlag <==> emitted == [])
    && (!firstFlag ==> aff == first)
    && out == SeriesMap(mk, emitted, first)
  }

  /** After the last result, the output holds a series per emitted row. */
  lemma EmittingDone<S>(mk: (ResultRow, Option<AffiliationRow>) -> S, orgAffiliation: Option<int> -> Option<AffiliationRow>,
                        results: seq<ResultRow>, aggs: seq<AggregateRow>, out: seq<S>, firstFlag: bool, aff: Option<AffiliationRow>)
    requires Emitting(mk, orgAffiliation, results, aggs, |results|, out, firstFlag, aff)
    ensures out == SeriesMap(mk, JoinedRows(results, aggs), JoinAffiliation(orgAffiliation, JoinedRows(results, aggs)))
  {
    assert results[..|results|] == results;
  }

  /** The inner loop for result `i` takes the outer loop's state from `i` to `i + 1`. */
  lemma EmittingStep<S>(mk: (ResultRow, Option<AffiliationRow>) -> S, orgAffiliation: Option<int> -> Option<AffiliationRow>,
                        results: seq<ResultRow>, aggs: seq<AggregateRow>, i: nat,
                        out: seq<S>, firstFlag: bool, aff: Option<AffiliationRow>,
                        out': seq<S>, firstFlag': bool, aff': Option<AffiliationRow>)
    requires i < |results|
    requires Emitting(mk, orgAffiliation, results, aggs, i, out, firstFlag, aff)
    requires var r := results[i];
             var a := if firstFlag then orgAffiliation(r.FeatureAction.Action.Method.OrganizationID) else aff;
             && out' == out + SeriesMap(mk, Copies(r, aggs), a)
             && (Copies(r, aggs) == [] ==> firstFlag' == firstFlag && aff' == aff)
             && (Copies(r, aggs) != [] ==> !firstFlag' && aff' == a)
    ensures Emitting(mk, orgAffiliation, results, aggs, i + 1, out', firstFlag', aff')
  {
    var emitted := JoinedRows(results[..i], aggs);
    var first := JoinAffiliation(orgAffiliation, JoinedRows(results, aggs));
    var copies := Copies(results[i], aggs);
    var a := if firstFlag then orgAffiliation(results[i].FeatureAction.Action.Method.OrganizationID) else aff;
    if firstFlag && copies != [] {
      FirstEmitted(results, aggs, i);
    }
    SeriesMapSame(mk, copies, a, first);
    SeriesMapConcat(mk, emitted, copies, first);
    JoinedStep(results, aggs, i);
  }

  /**
   * The inner loop for one result: a series per grouped row it joins. The
   * first join of the whole loop, while the flag is still set, looks up the
   * affiliation that every later series reuses.
   */
  method JoinOneResult<S>(mk: (ResultRow, Option<AffiliationRow>) -> S, orgAffiliation: Option<int> -> Option<AffiliationRow>,
                          r: ResultRow, aggs: seq<AggregateRow>, out0: seq<S>, firstFlag0: bool, aff0: Option<AffiliationRow>)
    returns (out: seq<S>, firstFlag: bool, aff: Option<AffiliationRow>)
    ensures out == out0 + SeriesMap(mk, Copies(r, aggs),
                                    if firstFlag0 then orgAffiliation(r.FeatureAction.Action.Method.OrganizationID) else aff0)
    ensures Copies(r, aggs) == [] ==> firstFlag == firstFlag0 && aff == aff0
    ensures Copies(r, aggs) != [] ==>
      !firstFlag && aff == if firstFlag0 then orgAffiliation(r.FeatureAction.Action.Method.OrganizationID) else aff0
  {
    ghost var a := if firstFlag0 then orgAffiliation(r.FeatureAction.Action.Method.OrganizationID) else aff0;
    out, firstFlag, aff := out0, firstFlag0, aff0;
    var j := 0;
    assert out0 + [] == out0;
    while j < |aggs|
      invariant 0 <= j <= |aggs|
      invariant Joining(mk, r, aggs[..j], a, out0, firstFlag0, aff0, out, firstFlag, aff)
    {
      var out', firstFlag', aff' := out, firstFlag, aff;
      if Joins(aggs[j], r) {
        if firstFlag' {
          firstFlag' := false;
          aff' := orgAffiliation(r.FeatureAction.Action.Method.OrganizationID);
        }
        out' := out' + [mk(r, aff')];
      }
      JoiningStep(mk, r, aggs, j, a, out0, firstFlag0, aff0, out, firstFlag, aff, out', firstFlag', aff');
      out, firstFlag, aff := out', firstFlag', aff';
      j := j + 1;
    }
    assert aggs[..j] == aggs;
  }

  /**
   * The state of the inner loop after the grouped rows `seen`: the output
   * has gained a series per copy, all with the affiliation `a`; the flag and
   * the affiliation are untouched until the first copy, then cleared and `a`.
   */
  ghost predicate Joining<S>(mk: (ResultRow, Option<AffiliationRow>) -> S, r: ResultRow, seen: seq<AggregateRow>,
                             a: Option<AffiliationRow>, out0: seq<S>, firstFlag0: bool, aff0: Option<AffiliationRow>,
                             out: seq<S>, firstFlag: bool, aff: Option<AffiliationRow>)
  {
    var copies := Copies(r, seen);
    && out == out0 + SeriesMap(mk, copies, a)
    && (copies == [] ==> firstFlag == firstFlag0 && aff == aff0)
    && (copies != [] ==> !firstFlag && aff == a)
  }

  /** Looking at grouped row `j` takes the inner loop's state from `j` to `j + 1`. */
  lemma JoiningStep<S>(mk: (ResultRow, Option<AffiliationRow>) -> S, r: ResultRow, aggs: seq<AggregateRow>, j: nat,
                       a: Option<AffiliationRow>, out0: seq<S>, firstFlag0: bool, aff0: Option<AffiliationRow>,
                       out: seq<S>, firstFlag: bool, aff: Option<AffiliationRow>,
                       out': seq<S>, firstFlag': bool, aff': Option<AffiliationRow>)
    requires j < |aggs|
    requires firstFlag0 || a == aff0
    requires Joining(mk, r, aggs[..j], a, out0, firstFlag0, aff0, out, firstFlag, aff)
    requires Joins(aggs[j], r) ==> !firstFlag' && aff' == (if firstFlag then a else aff) && out' == out + [mk(r, aff')]
    requires !Joins(aggs[j], r) ==> out' == out && firstFlag' == firstFlag && aff' == aff
    ensures Joining(mk, r, aggs[..j + 1], a, out0, firstFlag0, aff0, out', firstFlag', aff')
  {
    CopiesStep(r, aggs, j);
    var copies := Copies(r, aggs[..j]);
    if Joins(aggs[j], r) {
      SeriesMapSnoc(mk, copies, r, a);
      AppendAssociative(out0, SeriesMap(mk, copies, a), [mk(r, a)]);
    }
  }

  /** One more row appends its series. */
  lemma SeriesMapSnoc<S>(mk: (ResultRow, Option<AffiliationRow>) -> S, rows: seq<ResultRow>, r: ResultRow, aff: Option<AffiliationRow>)
    ensures SeriesMap(mk, rows + [r], aff) == SeriesMap(mk, rows, aff) + [mk(r, aff)]
  {
    assert (rows + [r])[..|rows|] == rows;
  }

  /** The series of two runs of rows are the series of each, in order. */
  lemma {:induction false} SeriesMapConcat<S>(mk: (ResultRow, Option<AffiliationRow>) -> S, xs: seq<ResultRow>, ys: seq<ResultRow>,
                                              aff: Option<AffiliationRow>)
    ensures SeriesMap(mk, xs + ys, aff) == SeriesMap(mk, xs, aff) + SeriesMap(mk, ys, aff)
    decreases |ys|
  {
    if ys == [] {
      assert xs + ys == xs;
    } else {
      var n := |ys| - 1;
      SeriesMapConcat(mk, xs, ys[..n], aff);
      assert xs + ys == (xs + ys[..n]) + [ys[n]];
      SeriesMapSnoc(mk, xs + ys[..n], ys[n], aff);
      AppendAssociative(SeriesMap(mk, xs, aff), SeriesMap(mk, ys[..n], aff), [mk(ys[n], aff)]);
    }
  }

  /** The affiliation argument does not matter when there are no rows. */
  lemma SeriesMapSame<S>(mk: (ResultRow, Option<AffiliationRow>) -> S, rows: seq<ResultRow>, a: Option<AffiliationRow>, b: Option<AffiliationRow>)
    requires rows != [] ==> a == b
    ensures SeriesMap(mk, rows, a) == SeriesMap(mk, rows, b)
  {
  }

  /** The `k`-th series is built from the `k`-th row. */
  lemma {:induction false} SeriesMapAt<S>(mk: (ResultRow, Option<AffiliationRow>) -> S, rows: seq<ResultRow>, aff: Option<AffiliationRow>, k: nat)
    requires k < |rows|
    ensures SeriesMap(mk, rows, aff)[k] == mk(rows[k], aff)
    decreases |rows|
  {
    var n := |rows| - 1;
    if k < n {
      SeriesMapAt(mk, rows[..n], aff, k);
    }
  }

  /** One more grouped row adds a copy exactly when it joins. */
  lemma CopiesStep(r: ResultRow, aggs: seq<AggregateRow>, j: nat)
    requires j < |aggs|
    ensures Joins(aggs[j], r) ==> Copies(r, aggs[..j + 1]) == Copies(r, aggs[..j]) + [r]
    ensures !Joins(aggs[j], r) ==> Copies(r, aggs[..j + 1]) == Copies(r, aggs[..j])
  {
    assert aggs[..j + 1][..j] == aggs[..j];
  }

  /** After all grouped rows, the inner loop has emitted the copies of one more result. */
  lemma JoinedStep(results: seq<ResultRow>, aggs: seq<AggregateRow>, i: nat)
    requires i < |results|
    ensures JoinedRows(results[..i + 1], aggs) == JoinedRows(results[..i], aggs) + Copies(results[i], aggs)
  {
    assert results[..i + 1][..i] == results[..i];
    assert aggs[..|aggs|] == aggs;
  }

  /** The copies of a prefix of the grouped rows are a prefix of all the copies. */
  lemma {:induction false} CopiesPrefix(r: ResultRow, aggs: seq<AggregateRow>, j: nat)
    requires j <= |aggs|
    ensures Copies(r, aggs[..j]) <= Copies(r, aggs)
    decreases |aggs|
  {
    if j < |aggs| {
      var n := |aggs| - 1;
      CopiesPrefix(r, aggs[..n], j);
      assert aggs[..n][..j] == aggs[..j];
    } else {
      assert aggs[..j] == aggs;
    }
  }

  /** The rows emitted for a prefix of the results are a prefix of all the rows emitted. */
  lemma {:induction false} JoinedRowsPrefix(results: seq<ResultRow>, aggs: seq<AggregateRow>, i: nat)
    requires i <= |results|
    ensures JoinedRows(results[..i], aggs) <= JoinedRows(results, aggs)
    decreases |results|
  {
    if i < |results| {
      var n := |results| - 1;
      JoinedRowsPrefix(results[..n], aggs, i);
      assert results[..n][..i] == results[..i];
    } else {
      assert results[..i] == results;
    }
  }

  /** What the nested loop has emitted at row `i`, grouped row `j`, is a prefix of its whole output. */
  lemma JoinedPrefix(results: seq<ResultRow>, aggs: seq<AggregateRow>, i: nat, j: nat)
    requires i < |results| && j <= |aggs|
    ensures JoinedRows(results[..i], aggs) + Copies(results[i], aggs[..j]) <= JoinedRows(results, aggs)
  {
    JoinedStep(results, aggs, i);
    JoinedRowsPrefix(results, aggs, i + 1);
    CopiesPrefix(results[i], aggs, j);
  }

  /**
   * When nothing was emitted before result `i` and it joins some grouped
   * row, it is the first row of the whole output.
   */
  lemma FirstEmitted(results: seq<ResultRow>, aggs: seq<AggregateRow>, i: nat)
    requires i < |results|
    requires JoinedRows(results[..i], aggs) == [] && Copies(results[i], aggs) != []
    ensures JoinedRows(results, aggs) != [] && JoinedRows(results, aggs)[0] == results[i]
  {
    JoinedPrefix(results, aggs, i, |aggs|);
    assert aggs[..|aggs|] == aggs;
    var c := Copies(results[i], aggs);
    CopiesMembers(results[i], aggs, c[0]);
    assert c[0] in c;
  }

  /** Every copy is of the given row, and there is one exactly when some grouped row joins it. */
  lemma {:induction false} CopiesMembers(r: ResultRow, aggs: seq<AggregateRow>, x: ResultRow)
    ensures x in Copies(r, aggs) <==> x == r && exists a :: a in aggs && Joins(a, r)
  {
    if aggs != [] {
      var n := |aggs| - 1;
      CopiesMembers(r, aggs[..n], x);
      assert aggs == aggs[..n] + [aggs[n]];
      if x == r && Joins(aggs[n], r) {
        assert x in Copies(r, aggs);
      }
    }
  }

  /** A row is emitted exactly when it is one of the results and joins one of the grouped rows. */
  lemma {:induction false} JoinedMembers(results: seq<ResultRow>, aggs: seq<AggregateRow>, x: ResultRow)
    ensures x in JoinedRows(results, aggs) <==> x in results && exists a :: a in aggs && Joins(a, x)
  {
    if results != [] {
      var n := |results| - 1;
      JoinedMembers(results[..n], aggs, x);
      CopiesMembers(results[n], aggs, x);
      assert results == results[..n] + [results[n]];
    }
  }
}
