/**
 * `_get_msrv_startdatetimes` and `_get_msrv_enddatetimes`: per requested
 * result id, the earliest and the latest ValueDateTime among its values
 * (SQL MIN and MAX grouped by ResultID), read into a dictionary.
 */
module DateBounds {
  import opened Odm2Rows

  /** Some value row belongs to result `id`. */
  ghost predicate HasValues(values: seq<ValueRow>, id: int) {
    exists i :: 0 <= i < |values| && values[i].Result.ResultID == id
  }

  /** `t` is the timestamp of one of the values of `id` and no value of `id` is later. */
  ghost predicate IsLatest(values: seq<ValueRow>, id: int, t: int) {
    (exists i :: 0 <= i < |values| && values[i].Result.ResultID == id && values[i].ValueDateTime == t) &&
    forall i :: 0 <= i < |values| && values[i].Result.ResultID == id ==> values[i].ValueDateTime <= t
  }

  /** `t` is the timestamp of one of the values of `id` and no value of `id` is earlier. */
  ghost predicate IsEarliest(values: seq<ValueRow>, id: int, t: int) {
    (exists i :: 0 <= i < |values| && values[i].Result.ResultID == id && values[i].ValueDateTime == t) &&
    forall i :: 0 <= i < |values| && values[i].Result.ResultID == id ==> t <= values[i].ValueDateTime
  }

  /** The MAX(ValueDateTime) per ResultID over the values of the requested ids. */
  function EndDateTimes(values: seq<ValueRow>, ids: seq<int>): (m: map<int, int>)
    ensures forall id :: id in m ==> id in ids
  {
    if values == [] then map[]
    else
      var m := EndDateTimes(values[..|values| - 1], ids);
      var v := values[|values| - 1];
      var id := v.Result.ResultID;
      if id !in ids || (id in m && v.ValueDateTime <= m[id]) then m else m[id := v.ValueDateTime]
  }

  /** The MIN(ValueDateTime) per ResultID over the values of the requested ids. */
  function StartDateTimes(values: seq<ValueRow>, ids: seq<int>): (m: map<int, int>)
    ensures forall id :: id in m ==> id in ids
  {
    if values == [] then map[]
    else
      var m := StartDateTimes(values[..|values| - 1], ids);
      var v := values[|values| - 1];
      var id := v.Result.ResultID;
      if id !in ids || (id in m && m[id] <= v.ValueDateTime) then m else m[id := v.ValueDateTime]
  }

  /**
   * The end dates hold exactly the requested ids that have values, each
   * mapped to the latest timestamp among its values.
   */
  lemma {:induction false} EndDateTimesAreLatest(values: seq<ValueRow>, ids: seq<int>, id: int)
    ensures id in EndDateTimes(values, ids) <==> id in ids && HasValues(values, id)
    ensures id in EndDateTimes(values, ids) ==> IsLatest(values, id, EndDateTimes(values, ids)[id])
  {
    if values != [] {
      var init := values[..|values| - 1];
      var n := |values| - 1;
      EndDateTimesAreLatest(init, ids, id);
      var m := EndDateTimes(init, ids);
      var r := EndDateTimes(values, ids);
      assert forall i :: 0 <= i < n ==> values[i] == init[i];
      if HasValues(values, id) && values[n].Result.ResultID != id {
        var i :| 0 <= i < |values| && values[i].Result.ResultID == id;
        assert HasValues(init, id);
      }
      if id in r {
        if values[n].Result.ResultID == id && id in ids && !(id in m && values[n].ValueDateTime <= m[id]) {
          assert r[id] == values[n].ValueDateTime;
          assert IsLatest(values, id, r[id]);
        } else {
          assert r[id] == m[id];
          var i :| 0 <= i < n && init[i].Result.ResultID == id && init[i].ValueDateTime == m[id];
          assert values[i].ValueDateTime == r[id];
        }
      }
    }
  }

  /**
   * The start dates hold exactly the requested ids that have values, each
   * mapped to the earliest timestamp among its values.
   */
  lemma {:induction false} StartDateTimesAreEarliest(values: seq<ValueRow>, ids: seq<int>, id: int)
    ensures id in StartDateTimes(values, ids) <==> id in ids && HasValues(values, id)
    ensures id in StartDateTimes(values, ids) ==> IsEarliest(values, id, StartDateTimes(values, ids)[id])
  {
    if values != [] {
      var init := values[..|values| - 1];
      var n := |values| - 1;
      StartDateTimesAreEarliest(init, ids, id);
      var m := StartDateTimes(init, ids);
      var r := StartDateTimes(values, ids);
      assert forall i :: 0 <= i < n ==> values[i] == init[i];
      if HasValues(values, id) && values[n].Result.ResultID != id {
        var i :| 0 <= i < |values| && values[i].Result.ResultID == id;
        assert HasValues(init, id);
      }
      if id in r {
        if values[n].Result.ResultID == id && id in ids && !(id in m && m[id] <= values[n].ValueDateTime) {
          assert r[id] == values[n].ValueDateTime;
          assert IsEarliest(values, id, r[id]);
        } else {
          assert r[id] == m[id];
          var i :| 0 <= i < n && init[i].Result.ResultID == id && init[i].ValueDateTime == m[id];
          assert values[i].ValueDateTime == r[id];
        }
      }
    }
  }

  /** Both dictionaries have the same keys, and a start date is never after its end date. */
  lemma StartNotAfterEnd(values: seq<ValueRow>, ids: seq<int>, id: int)
    ensures id in StartDateTimes(values, ids) <==> id in EndDateTimes(values, ids)
    ensures id in StartDateTimes(values, ids) ==> StartDateTimes(values, ids)[id] <= EndDateTimes(values, ids)[id]
  {
    StartDateTimesAreEarliest(values, ids, id);
    EndDateTimesAreLatest(values, ids, id);
  }
}
