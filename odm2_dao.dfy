/**
 * The post-query logic of the ODM2 measurement DAO. The database is given as
 * the rows its queries return; each operation applies the query's filters as
 * predicates and assembles WaterML objects from the rows as the DAO does.
 */
module Odm2Dao {
  import opened Wrappers
  import opened Decimal
  import opened VariableCodes
  import opened Odm2Rows
  import opened Models
  import opened CvMapping
  import opened DateBounds
  import opened Sequences
  import opened SeriesJoin

  /**
   * The store: the Sites, MeasurementResults and MeasurementResultValues
   * rows (the values in ValueDateTime order, as the value query sorts them),
   * the three `.first()` affiliation lookups: by site code, by action id
   * and by organization id, and, per site id, the MeasurementResults of the
   * specimens related to the site (one per VariableID, UnitsID and medium)
   * and the grouped rows of those results.
   */
  datatype Database = Database(
    sites: seq<SiteRow>,
    results: seq<ResultRow>,
    values: seq<ValueRow>,
    specimenResults: int -> seq<ResultRow>,
    specimenAggregates: int -> seq<AggregateRow>,
    siteAffiliation: string -> Option<AffiliationRow>,
    actionAffiliation: int -> Option<AffiliationRow>,
    organizationAffiliation: Option<int> -> Option<AffiliationRow>)

  // ---------------------------------------------------------------- sites

  /** The Sites rows with the given code. */
  function SitesWithCode(sites: seq<SiteRow>, code: string): seq<SiteRow> {
    Filter(sites, (s: SiteRow) => s.SamplingFeatureCode == code)
  }

  /**
   * `get_site_by_code`: `.one()` finds the site only when exactly one row has
   * the code; otherwise the query raises and the lookup gives None. Mapping
   * the row happens outside the try block, so a mapping error escapes.
   */
  function GetSiteByCode(db: Database, code: string): (r: Result<Option<Site>, Fault>)
    ensures r == Success(None) <==> |SitesWithCode(db.sites, code)| != 1
    ensures r.Failure? ==> db.siteAffiliation(code).Some? && db.siteAffiliation(code).value.Organization.None?
    ensures |SitesWithCode(db.sites, code)| == 1 ==>
      (r.Failure? <==> NewSite(SitesWithCode(db.sites, code)[0], db.siteAffiliation(code)).Failure?)
    ensures r.Success? && r.value.Some? ==>
      r.value.value.SiteCode == code && r.value.value.SiteID == SitesWithCode(db.sites, code)[0].SamplingFeatureID &&
      NewSite(SitesWithCode(db.sites, code)[0], db.siteAffiliation(code)) == Success(r.value.value)
  {
    var found := SitesWithCode(db.sites, code);
    if |found| != 1 then Success(None)
    else
      match NewSite(found[0], db.siteAffiliation(code))
      case Failure(e) => Failure(e)
      case Success(s) => Success(Some(s))
  }

  /** A site exists for the code. */
  predicate Found(db: Database, code: string) {
    var r := GetSiteByCode(db, code);
    r.Success? && r.value.Some?
  }

  /** `found + rest`, or the failure of `rest`. */
  function Prepend<T>(found: seq<T>, rest: Result<seq<T>, Fault>): Result<seq<T>, Fault> {
    match rest
    case Failure(e) => Failure(e)
    case Success(s) => Success(found + s)
  }

  lemma PrependNothing<T>(rest: Result<seq<T>, Fault>)
    ensures Prepend([], rest) == rest
  {
    if rest.Success? {
      assert [] + rest.value == rest.value;
    }
  }

  lemma PrependTwice<T>(a: seq<T>, b: seq<T>, rest: Result<seq<T>, Fault>)
    ensures Prepend(a, Prepend(b, rest)) == Prepend(a + b, rest)
  {
    if rest.Success? {
      assert a + (b + rest.value) == (a + b) + rest.value;
    }
  }

  /** The sites of the codes, in code order, skipping codes without a site; the first error stops it. */
  function SitesByCodes(db: Database, codes: seq<string>): Result<seq<Site>, Fault> {
    if codes == [] then Success([])
    else
      match GetSiteByCode(db, codes[0])
      case Failure(e) => Failure(e)
      case Success(None) => SitesByCodes(db, codes[1..])
      case Success(Some(s)) => Prepend([s], SitesByCodes(db, codes[1..]))
  }

  /** `get_sites_by_codes`. */
  method GetSitesByCodes(db: Database, codes: seq<string>) returns (r: Result<seq<Site>, Fault>)
    ensures r == SitesByCodes(db, codes)
  {
    var found: seq<Site> := [];
    var i := 0;
    assert codes[0..] == codes;
    PrependNothing(SitesByCodes(db, codes));
    while i < |codes|
      invariant 0 <= i <= |codes|
      invariant SitesByCodes(db, codes) == Prepend(found, SitesByCodes(db, codes[i..]))
    {
      assert codes[i..][0] == codes[i] && codes[i..][1..] == codes[i + 1..];
      var site := GetSiteByCode(db, codes[i]);
      match site {
        case Failure(e) =>
          return Failure(e);
        case Success(None) =>
        case Success(Some(s)) =>
          PrependTwice(found, [s], SitesByCodes(db, codes[i + 1..]));
          found := found + [s];
      }
      i := i + 1;
    }
    assert codes[i..] == [];
    assert found + [] == found;
    return Success(found);
  }

  /** The SiteCode of each site, in order. */
  function SiteCodes(sites: seq<Site>): (cs: seq<string>)
    ensures |cs| == |sites|
  {
    if sites == [] then [] else [sites[0].SiteCode] + SiteCodes(sites[1..])
  }

  /**
   * The sites found keep the order of their codes and skip the codes without
   * a site: their codes are exactly the requested codes that have a site.
   */
  lemma {:induction false} SitesByCodesKeepsFoundCodes(db: Database, codes: seq<string>)
    requires SitesByCodes(db, codes).Success?
    ensures |SitesByCodes(db, codes).value| <= |codes|
    ensures SiteCodes(SitesByCodes(db, codes).value) == Filter(codes, c => Found(db, c))
  {
    if codes != [] {
      var rest := SitesByCodes(db, codes[1..]);
      SitesByCodesKeepsFoundCodes(db, codes[1..]);
      FilterConcat([codes[0]], codes[1..], c => Found(db, c));
      assert [codes[0]] + codes[1..] == codes;
      var found := Found(db, codes[0]);
      if found {
        var site := GetSiteByCode(db, codes[0]).value.value;
        assert Filter([codes[0]], c => Found(db, c)) == [codes[0]];
        assert SitesByCodes(db, codes).value == [site] + rest.value;
        assert ([site] + rest.value)[1..] == rest.value;
      } else {
        assert Filter([codes[0]], c => Found(db, c)) == [];
      }
    }
  }

  /**
   * Every site the lookup by codes returns is the Site mapper's output for
   * the one Sites row with its code and that code's affiliation, so the
   * agency rules of the mapper hold of each.
   */
  lemma {:induction false} SitesByCodesAreMapped(db: Database, codes: seq<string>, j: nat)
    requires SitesByCodes(db, codes).Success? && j < |SitesByCodes(db, codes).value|
    ensures var w := SitesByCodes(db, codes).value[j];
            |SitesWithCode(db.sites, w.SiteCode)| == 1 &&
            NewSite(SitesWithCode(db.sites, w.SiteCode)[0], db.siteAffiliation(w.SiteCode)) == Success(w)
  {
    var g := GetSiteByCode(db, codes[0]);
    var rest := SitesByCodes(db, codes[1..]);
    if g.value.None? {
      SitesByCodesAreMapped(db, codes[1..], j);
    } else if j > 0 {
      assert SitesByCodes(db, codes).value == [g.value.value] + rest.value;
      SitesByCodesAreMapped(db, codes[1..], j - 1);
    }
  }

  // ------------------------------------------------------------ variables

  /** The unit filter of a parsed code: `int(unitid)` when a unit id was given. */
  function UnitFilter(p: VariableParams): (r: Result<Option<int>, Fault>)
    ensures p.unitId.None? ==> r == Success(None)
    ensures p.unitId.Some? && r.Success? ==> r.value == ParseInt(p.unitId.value)
    ensures r.Failure? <==> p.unitId.Some? && ParseInt(p.unitId.value).None?
  {
    match p.unitId
    case None => Success(None)
    case Some(u) =>
      match ParseInt(u)
      case None => Failure(ValueError(u))
      case Some(n) => Success(Some(n))
  }

  /** The variable-code, units and sampled-medium filters of the result queries. */
  predicate ResultSelected(r: ResultRow, code: string, unitsId: Option<int>, medium: Option<string>) {
    r.Variable.VariableCode == code &&
    (unitsId.None? || r.UnitsID() == unitsId.value) &&
    (medium.None? || r.SampledMediumCV == medium.value)
  }

  /** The categories that the DAO normalises after mapping. */
  predicate HasCategories(cv: CvMap) {
    "datatype" in cv && "samplemedium" in cv
  }

  /** The KeyError of the first normalisation whose category is missing. */
  function MissingCategory(cv: CvMap): Fault
    requires !HasCategories(cv)
  {
    if "datatype" !in cv then KeyError("datatype") else KeyError("samplemedium")
  }

  /** The Variable a result row maps to. */
  function ResultVariable(r: ResultRow): Variable {
    NewVariable(r.Variable, r.SampledMediumCV, r.Units, r.TimeAggregationIntervalUnits,
                r.AggregationStatisticCV, r.FeatureAction.Action.ActionTypeCV)
  }

  /** DataType and SampleMedium replaced by their canonical terms. */
  function NormalizedVariable(cv: CvMap, w: Variable): (n: Variable)
    requires HasCategories(cv)
    ensures n.DataType == Canonical(cv["datatype"], w.DataType)
    ensures n.SampleMedium == Canonical(cv["samplemedium"], w.SampleMedium)
    ensures n.(DataType := w.DataType, SampleMedium := w.SampleMedium) == w
  {
    w.(DataType := Canonical(cv["datatype"], w.DataType), SampleMedium := Canonical(cv["samplemedium"], w.SampleMedium))
  }

  /**
   * The two get_match calls that replace a variable's DataType and
   * SampleMedium by their canonical terms; the first missing category raises.
   */
  method NormalizeVariable(cv: CvMap, w: Variable) returns (r: Result<Variable, Fault>)
    ensures HasCategories(cv) ==> r == Success(NormalizedVariable(cv, w))
    ensures !HasCategories(cv) ==> r == Failure(MissingCategory(cv))
  {
    var dataType := GetMatch(cv, "datatype", w.DataType);
    if dataType.Failure? {
      return Failure(dataType.error);
    }
    var sampleMedium := GetMatch(cv, "samplemedium", w.SampleMedium);
    if sampleMedium.Failure? {
      return Failure(sampleMedium.error);
    }
    return Success(w.(DataType := dataType.value, SampleMedium := sampleMedium.value));
  }

  /** The MeasurementResults rows the variable query returns. */
  function SelectedResults(db: Database, p: VariableParams, unitsId: Option<int>): seq<ResultRow> {
    Filter(db.results, (r: ResultRow) => ResultSelected(r, p.code, unitsId, p.sampleMedium))
  }

  /**
   * What `get_variable_by_code` gives for the rows its query returned: None
   * for no rows, otherwise the last row's variable, normalised; the
   * normalisation raises KeyError when a category is missing.
   */
  function LastVariable(cv: CvMap, rows: seq<ResultRow>): (r: Result<Option<Variable>, Fault>)
    ensures r == Success(None) <==> rows == []
    ensures r.Failure? <==> rows != [] && !HasCategories(cv)
    ensures r.Failure? ==> r.error == KeyError(if "datatype" !in cv then "datatype" else "samplemedium")
    ensures r.Success? && r.value.Some? ==> r.value.value == NormalizedVariable(cv, ResultVariable(rows[|rows| - 1]))
  {
    if rows == [] then Success(None)
    else if !HasCategories(cv) then Failure(MissingCategory(cv))
    else Success(Some(NormalizedVariable(cv, ResultVariable(rows[|rows| - 1]))))
  }

  /**
   * `get_variable_by_code` through `get_variables_from_results`: split the
   * code, query the results, map and normalise each, and pop the last. The
   * ValueError of a unit id that is not an integer is not caught here.
   */
  method GetVariableByCode(cv: CvMap, db: Database, varCode: string) returns (r: Result<Option<Variable>, Fault>)
    ensures UnitFilter(GetVariableParams(varCode)).Failure? ==>
            r == Failure(UnitFilter(GetVariableParams(varCode)).error)
    ensures UnitFilter(GetVariableParams(varCode)).Success? ==>
            r == LastVariable(cv, SelectedResults(db, GetVariableParams(varCode), UnitFilter(GetVariableParams(varCode)).value))
  {
    var p := GetVariableParams(varCode);
    var unitsId := UnitFilter(p);
    if unitsId.Failure? {
      return Failure(unitsId.error);
    }
    var rows := SelectedResults(db, p, unitsId.value);
    var variables: seq<Variable> := [];
    var i := 0;
    while i < |rows|
      invariant 0 <= i <= |rows|
      invariant |variables| == i
      invariant i > 0 ==> HasCategories(cv)
      invariant i > 0 ==> variables[i - 1] == NormalizedVariable(cv, ResultVariable(rows[i - 1]))
    {
      var v := NormalizeVariable(cv, ResultVariable(rows[i]));
      if v.Failure? {
        return Failure(v.error);
      }
      variables := variables + [v.value];
      i := i + 1;
    }
    if |variables| == 0 {
      return Success(None);
    }
    return Success(Some(variables[|variables| - 1]));
  }

  /**
   * Requesting a variable by its composite key selects exactly the results
   * of that code, units id and medium, and the variable built from any of
   * them publishes that key as its code.
   */
  lemma KeySelectsItsVariable(code: string, unitsId: int, medium: string, r: ResultRow)
    requires Plain(code) && Plain(medium) && unitsId >= 0
    ensures var p := GetVariableParams(VariableKey(code, unitsId, medium));
            UnitFilter(p) == Success(Some(unitsId)) &&
            (ResultSelected(r, p.code, Some(unitsId), p.sampleMedium) <==>
               r.Variable.VariableCode == code && r.UnitsID() == unitsId && r.SampledMediumCV == medium)
    ensures ResultSelected(r, code, Some(unitsId), Some(medium)) ==>
            ResultVariable(r).VariableCode == VariableKey(code, unitsId, medium)
  {
    KeyRoundTrip(code, unitsId, medium);
    ParseIntOfDecimal(unitsId);
  }

  // ---------------------------------------------------------- data values

  /** The two shapes `get_datavalues` returns: buckets by composite key (the keys in the dictionary's iteration order, taken to be first-seen order), or a flat list. */
  datatype DataValues = Grouped(keys: seq<string>, buckets: map<string, seq<DataValue>>) | Flat(values: seq<DataValue>)

  /** The composite key of the variable, units and medium of a value's result. */
  function RowKey(v: ValueRow): string {
    VariableKey(v.Result.Variable.VariableCode, v.Result.UnitsID(), v.Result.SampledMediumCV)
  }

  /** The inclusive time range, applied only when both ends are given. */
  function DateRange(beginDateTime: Option<int>, endDateTime: Option<int>): Option<(int, int)> {
    if beginDateTime.Some? && endDateTime.Some? then Some((beginDateTime.value, endDateTime.value)) else None
  }

  /** The filters of the value query: site code, variable filters and the optional time range. */
  predicate ValueSelected(v: ValueRow, siteCode: string, p: VariableParams, unitsId: Option<int>, range: Option<(int, int)>) {
    v.Result.FeatureAction.SamplingFeatureCode == siteCode &&
    ResultSelected(v.Result, p.code, unitsId, p.sampleMedium) &&
    (range.None? || range.value.0 <= v.ValueDateTime <= range.value.1)
  }

  /**
   * The rows of the value query; a unit id that `int()` rejects raises
   * inside the try block, which turns it into no rows.
   */
  function QueryValues(db: Database, siteCode: string, p: VariableParams, range: Option<(int, int)>): (rows: seq<ValueRow>)
    ensures UnitFilter(p).Failure? ==> rows == []
    ensures |rows| <= |db.values|
    ensures forall i :: 0 <= i < |rows| ==>
      rows[i].Result.FeatureAction.SamplingFeatureCode == siteCode && rows[i].Result.Variable.VariableCode == p.code &&
      (p.sampleMedium.Some? ==> rows[i].Result.SampledMediumCV == p.sampleMedium.value) &&
      (range.Some? ==> range.value.0 <= rows[i].ValueDateTime <= range.value.1)
    ensures forall i :: 0 <= i < |rows| && p.unitId.Some? ==> Some(rows[i].Result.UnitsID()) == ParseInt(p.unitId.value)
  {
    match UnitFilter(p)
    case Failure(_) => []
    case Success(unitsId) => Filter(db.values, (v: ValueRow) => ValueSelected(v, siteCode, p, unitsId, range))
  }

  /**
   * The value query returns every value row that passes its filters and no
   * other, in the order of the value table.
   */
  lemma QueryValuesComplete(db: Database, siteCode: string, p: VariableParams, range: Option<(int, int)>)
    ensures UnitFilter(p).Success? ==>
      forall v :: v in QueryValues(db, siteCode, p, range) <==>
        v in db.values && ValueSelected(v, siteCode, p, UnitFilter(p).value, range)
    ensures Subsequence(QueryValues(db, siteCode, p, range), db.values)
  {
    match UnitFilter(p)
    case Failure(_) =>
      var none: seq<nat> := [];
      assert IndexedBy([], db.values, none);
    case Success(unitsId) =>
      var keep := (v: ValueRow) => ValueSelected(v, siteCode, p, unitsId, range);
      forall v ensures v in Filter(db.values, keep) <==> v in db.values && keep(v) {
        FilterMembers(db.values, keep, v);
      }
      FilterSubsequence(db.values, keep);
  }

  /** The DataValue objects of some rows, in row order, all with the same affiliation. */
  function DataValuesOf(rows: seq<ValueRow>, aff: Option<AffiliationRow>): (ws: seq<DataValue>)
    ensures |ws| == |rows|
    ensures forall i :: 0 <= i < |rows| ==> ws[i] == NewDataValue(rows[i], aff)
  {
    seq(|rows|, i requires 0 <= i < |rows| => NewDataValue(rows[i], aff))
  }

  /** The rows whose composite key is `k`, in row order. */
  function RowsWithKey(rows: seq<ValueRow>, k: string): seq<ValueRow> {
    Filter(rows, (v: ValueRow) => RowKey(v) == k)
  }

  /** The keys of the rows, each once, in the order they first occur. */
  function DistinctKeys(rows: seq<ValueRow>): seq<string> {
    if rows == [] then []
    else
      var keys := DistinctKeys(rows[..|rows| - 1]);
      if RowKey(rows[|rows| - 1]) in keys then keys else keys + [RowKey(rows[|rows| - 1])]
  }

  /** The dictionary of the no-filter case. */
  function GroupedValues(rows: seq<ValueRow>, aff: Option<AffiliationRow>): DataValues {
    Grouped(DistinctKeys(rows), map k | k in DistinctKeys(rows) :: DataValuesOf(RowsWithKey(rows, k), aff))
  }

  /**
   * The affiliation the value loops end with: `aff` starts as None, and the
   * row that finds `first_flag` set, the first one, looks up the affiliation
   * of its method's organization.
   */
  function ValuesAffiliation(db: Database, rows: seq<ValueRow>): (aff: Option<AffiliationRow>)
    ensures rows == [] ==> aff.None?
    ensures rows != [] ==> aff == db.organizationAffiliation(rows[0].Result.FeatureAction.Action.Method.OrganizationID)
  {
    if rows == [] then None else db.organizationAffiliation(rows[0].Result.FeatureAction.Action.Method.OrganizationID)
  }

  /**
   * `get_datavalues`. None when the site is not found or no row matched (the
   * function then ends without a return); with neither a unit nor a medium
   * in the code, the values bucketed by composite key; otherwise a flat list.
   */
  method GetDatavalues(db: Database, siteCode: string, varCode: string,
                       beginDateTime: Option<int>, endDateTime: Option<int>)
    returns (r: Result<Option<DataValues>, Fault>)
    ensures GetSiteByCode(db, siteCode).Failure? ==> r == Failure(GetSiteByCode(db, siteCode).error)
    ensures GetSiteByCode(db, siteCode) == Success(None) ==> r == Success(None)
    ensures GetSiteByCode(db, siteCode).Success? && GetSiteByCode(db, siteCode).value.Some? ==>
      var p := GetVariableParams(varCode);
      var rows := QueryValues(db, siteCode, p, DateRange(beginDateTime, endDateTime));
      (rows == [] ==> r == Success(None)) &&
      (rows != [] && p.unitId.None? && p.sampleMedium.None? ==>
         r == Success(Some(GroupedValues(rows, ValuesAffiliation(db, rows))))) &&
      (rows != [] && (p.unitId.Some? || p.sampleMedium.Some?) ==>
         r == Success(Some(Flat(DataValuesOf(rows, ValuesAffiliation(db, rows))))))
  {
    var site := GetSiteByCode(db, siteCode);
    var p := GetVariableParams(varCode);
    if site.Failure? {
      return Failure(site.error);
    }
    if site.value.None? {
      return Success(None);
    }
    var rows := QueryValues(db, siteCode, p, DateRange(beginDateTime, endDateTime));
    if |rows| == 0 {
      return Success(None);
    }
    if p.unitId.None? && p.sampleMedium.None? {
      var grouped := GroupByKey(db, rows);
      return Success(Some(grouped));
    }
    ghost var shared := ValuesAffiliation(db, rows);
    var aff: Option<AffiliationRow> := None;
    var firstFlag := true;
    var values: seq<DataValue> := [];
    var i := 0;
    while i < |rows|
      invariant 0 <= i <= |rows|
      invariant firstFlag <==> i == 0
      invariant i > 0 ==> aff == shared
      invariant |values| == i
      invariant forall j :: 0 <= j < i ==> values[j] == NewDataValue(rows[j], shared)
    {
      if firstFlag {
        firstFlag := false;
        aff := db.organizationAffiliation(rows[i].Result.FeatureAction.Action.Method.OrganizationID);
      }
      values := values + [NewDataValue(rows[i], aff)];
      i := i + 1;
    }
    assert values == DataValuesOf(rows, shared);
    return Success(Some(Flat(values)));
  }

  /**
   * The bucketing loop of the no-filter case: one bucket per composite key,
   * appended in row order; the first row looks up the affiliation that every
   * DataValue then carries.
   */
  method GroupByKey(db: Database, rows: seq<ValueRow>) returns (g: DataValues)
    ensures g == GroupedValues(rows, ValuesAffiliation(db, rows))
  {
    ghost var shared := ValuesAffiliation(db, rows);
    var aff: Option<AffiliationRow> := None;
    var firstFlag := true;
    var keys: seq<string> := [];
    var buckets: map<string, seq<DataValue>> := map[];
    var i := 0;
    while i < |rows|
      invariant 0 <= i <= |rows|
      invariant firstFlag <==> i == 0
      invariant i > 0 ==> aff == shared
      invariant keys == DistinctKeys(rows[..i])
      invariant forall k :: k in buckets <==> k in keys
      invariant forall k :: k in buckets ==> buckets[k] == DataValuesOf(RowsWithKey(rows[..i], k), shared)
    {
      var k := RowKey(rows[i]);
      if firstFlag {
        firstFlag := false;
        aff := db.organizationAffiliation(rows[i].Result.FeatureAction.Action.Method.OrganizationID);
      }
      var w := NewDataValue(rows[i], aff);
      BucketsStep(rows, i, shared, keys, buckets);
      if k in buckets {
        buckets := buckets[k := buckets[k] + [w]];
      } else {
        buckets := buckets[k := [w]];
        keys := keys + [k];
      }
      i := i + 1;
    }
    assert rows[..i] == rows;
    assert buckets == map k | k in keys :: DataValuesOf(RowsWithKey(rows, k), shared);
    return Grouped(keys, buckets);
  }

  /** One step of the bucketing loop keeps every bucket equal to the DataValues of its key's rows. */
  lemma BucketsStep(rows: seq<ValueRow>, i: nat, aff: Option<AffiliationRow>,
                    keys: seq<string>, buckets: map<string, seq<DataValue>>)
    requires i < |rows|
    requires keys == DistinctKeys(rows[..i])
    requires forall k :: k in buckets <==> k in keys
    requires forall k :: k in buckets ==> buckets[k] == DataValuesOf(RowsWithKey(rows[..i], k), aff)
    ensures var k := RowKey(rows[i]);
            var w := NewDataValue(rows[i], aff);
            var buckets' := if k in buckets then buckets[k := buckets[k] + [w]] else buckets[k := [w]];
            var keys' := if k in buckets then keys else keys + [k];
            keys' == DistinctKeys(rows[..i + 1]) &&
            (forall k' :: k' in buckets' <==> k' in keys') &&
            (forall k' :: k' in buckets' ==> buckets'[k'] == DataValuesOf(RowsWithKey(rows[..i + 1], k'), aff))
  {
    var k := RowKey(rows[i]);
    var w := NewDataValue(rows[i], aff);
    PrefixSnoc(rows, i);
    if k !in buckets {
      RowsWithAbsentKey(rows[..i], k);
    }
    var buckets' := if k in buckets then buckets[k := buckets[k] + [w]] else buckets[k := [w]];
    forall k' | k' in buckets'
      ensures buckets'[k'] == DataValuesOf(RowsWithKey(rows[..i + 1], k'), aff)
    {
      BucketGrows(rows, i, aff, k');
    }
  }

  /** Taking one more row appends its DataValue to its own bucket and to no other. */
  lemma BucketGrows(rows: seq<ValueRow>, i: nat, aff: Option<AffiliationRow>, k: string)
    requires i < |rows|
    ensures DataValuesOf(RowsWithKey(rows[..i + 1], k), aff)
         == DataValuesOf(RowsWithKey(rows[..i], k), aff) + if RowKey(rows[i]) == k then [NewDataValue(rows[i], aff)] else []
  {
    PrefixSnoc(rows, i);
  }

  /** A key the rows do not have selects none of them. */
  lemma {:induction false} RowsWithAbsentKey(rows: seq<ValueRow>, k: string)
    requires k !in DistinctKeys(rows)
    ensures RowsWithKey(rows, k) == []
  {
    if rows != [] {
      RowsWithAbsentKey(rows[..|rows| - 1], k);
    }
  }

  /** The bucket keys are the rows' keys, each listed once. */
  lemma {:induction false} DistinctKeysAreRowKeys(rows: seq<ValueRow>, k: string)
    ensures k in DistinctKeys(rows) <==> exists j :: 0 <= j < |rows| && RowKey(rows[j]) == k
    ensures forall a, b :: 0 <= a < b < |DistinctKeys(rows)| ==> DistinctKeys(rows)[a] != DistinctKeys(rows)[b]
  {
    DistinctKeysMembers(rows, k);
    DistinctKeysUnique(rows);
  }

  lemma {:induction false} DistinctKeysMembers(rows: seq<ValueRow>, k: string)
    ensures k in DistinctKeys(rows) <==> exists j :: 0 <= j < |rows| && RowKey(rows[j]) == k
  {
    if rows != [] {
      var init := rows[..|rows| - 1];
      DistinctKeysMembers(init, k);
      SplitLast(rows);
      DistinctKeysMembersStep(init, rows[|rows| - 1], k);
    }
  }

  lemma {:induction false} DistinctKeysMembersStep(init: seq<ValueRow>, v: ValueRow, k: string)
    requires k in DistinctKeys(init) <==> exists j :: 0 <= j < |init| && RowKey(init[j]) == k
    ensures k in DistinctKeys(init + [v]) <==> exists j :: 0 <= j < |init + [v]| && RowKey((init + [v])[j]) == k
  {
    var rows := init + [v];
    assert rows[..|init|] == init;
    assert forall j :: 0 <= j < |init| ==> rows[j] == init[j];
    if k in DistinctKeys(rows) && k !in DistinctKeys(init) {
      assert RowKey(rows[|init|]) == k;
    }
  }

  lemma {:induction false} DistinctKeysUnique(rows: seq<ValueRow>)
    ensures forall a, b :: 0 <= a < b < |DistinctKeys(rows)| ==> DistinctKeys(rows)[a] != DistinctKeys(rows)[b]
  {
    if rows != [] {
      DistinctKeysUnique(rows[..|rows| - 1]);
    }
  }

  /** Every row lies in the bucket of its own key, and a bucket holds only rows of its key. */
  lemma EachRowInItsOwnBucket(rows: seq<ValueRow>, j: nat)
    requires j < |rows|
    ensures RowKey(rows[j]) in DistinctKeys(rows)
    ensures rows[j] in RowsWithKey(rows, RowKey(rows[j]))
    ensures forall k :: k != RowKey(rows[j]) ==> rows[j] !in RowsWithKey(rows, k)
  {
    DistinctKeysAreRowKeys(rows, RowKey(rows[j]));
    FilterMembers(rows, (v: ValueRow) => RowKey(v) == RowKey(rows[j]), rows[j]);
  }

  /** The total size of the buckets of the listed keys. */
  function BucketTotal(keys: seq<string>, rows: seq<ValueRow>): nat {
    if keys == [] then 0 else BucketTotal(keys[..|keys| - 1], rows) + |RowsWithKey(rows, keys[|keys| - 1])|
  }

  /** One more row adds one to the total exactly when its key is listed (once). */
  lemma {:induction false} BucketTotalGrows(keys: seq<string>, rows: seq<ValueRow>, v: ValueRow)
    requires forall a, b :: 0 <= a < b < |keys| ==> keys[a] != keys[b]
    ensures BucketTotal(keys, rows + [v]) == BucketTotal(keys, rows) + if RowKey(v) in keys then 1 else 0
  {
    if keys != [] {
      var n := |keys| - 1;
      var init := keys[..n];
      BucketTotalGrows(init, rows, v);
      BucketGrowsByOne(rows, v, keys[n]);
      assert keys == init + [keys[n]];
      assert keys[n] !in init by {
        forall a | 0 <= a < n ensures init[a] != keys[n] {
          assert init[a] == keys[a];
        }
      }
    }
  }

  /** One more row grows the bucket of its own key by one and leaves the others alone. */
  lemma BucketGrowsByOne(rows: seq<ValueRow>, v: ValueRow, k: string)
    ensures |RowsWithKey(rows + [v], k)| == |RowsWithKey(rows, k)| + if RowKey(v) == k then 1 else 0
  {
    assert (rows + [v])[..|rows|] == rows;
  }

  /** The bucket sizes add up to the number of rows. */
  lemma {:induction false} BucketSizesSumToRowCount(rows: seq<ValueRow>)
    ensures BucketTotal(DistinctKeys(rows), rows) == |rows|
  {
    if rows != [] {
      var init := rows[..|rows| - 1];
      var v := rows[|rows| - 1];
      BucketSizesSumToRowCount(init);
      SplitLast(rows);
      BucketSizesStep(init, v);
    }
  }

  /** One more row adds one to the total: to the bucket of a listed key, or to a new key's own bucket. */
  lemma {:induction false} BucketSizesStep(init: seq<ValueRow>, v: ValueRow)
    requires BucketTotal(DistinctKeys(init), init) == |init|
    ensures BucketTotal(DistinctKeys(init + [v]), init + [v]) == |init| + 1
  {
    var keys := DistinctKeys(init);
    DistinctKeysUnique(init);
    BucketTotalGrows(keys, init, v);
    assert (init + [v])[..|init|] == init;
    if RowKey(v) !in keys {
      NewKeyHasOneRow(init, v);
      assert (keys + [RowKey(v)])[..|keys|] == keys;
    }
  }

  lemma NewKeyHasOneRow(init: seq<ValueRow>, v: ValueRow)
    requires RowKey(v) !in DistinctKeys(init)
    ensures |RowsWithKey(init + [v], RowKey(v))| == 1
  {
    RowsWithAbsentKey(init, RowKey(v));
    BucketGrowsByOne(init, v, RowKey(v));
  }

  /** The timestamp of a value row. */
  function Timestamp(v: ValueRow): int {
    v.ValueDateTime
  }

  /**
   * With the value table in timestamp order, the query rows, each bucket and
   * the flat list are in timestamp order.
   */
  lemma ValuesInTimestampOrder(db: Database, siteCode: string, p: VariableParams, range: Option<(int, int)>,
                               aff: Option<AffiliationRow>, k: string)
    requires SortedBy(db.values, Timestamp)
    ensures var rows := QueryValues(db, siteCode, p, range);
            SortedBy(rows, Timestamp) &&
            SortedBy(RowsWithKey(rows, k), Timestamp) &&
            forall i, j :: 0 <= i < j < |rows| ==>
              DataValuesOf(rows, aff)[i].DateTimeUTC <= DataValuesOf(rows, aff)[j].DateTimeUTC
  {
    var rows := QueryValues(db, siteCode, p, range);
    match UnitFilter(p)
    case Failure(_) =>
    case Success(unitsId) =>
      FilterKeepsSorted(db.values, (v: ValueRow) => ValueSelected(v, siteCode, p, unitsId, range), Timestamp);
    FilterKeepsSorted(rows, (v: ValueRow) => RowKey(v) == k, Timestamp);
  }

  /**
   * Every value of either shape carries the source of the one affiliation
   * looked up for the first row; a bucketed value also belongs to its
   * bucket's key.
   */
  lemma ValuesShareOneSource(rows: seq<ValueRow>, aff: Option<AffiliationRow>, k: string, j: nat)
    requires k in GroupedValues(rows, aff).buckets && j < |GroupedValues(rows, aff).buckets[k]|
    ensures var w := GroupedValues(rows, aff).buckets[k][j];
            w.SourceID == (if aff.Some? then Set(aff.value.AffiliationID) else Unset) &&
            RowKey(RowsWithKey(rows, k)[j]) == k
    ensures forall i :: 0 <= i < |rows| ==>
            DataValuesOf(rows, aff)[i].SourceID == (if aff.Some? then Set(aff.value.AffiliationID) else Unset)
  {
  }

  // --------------------------------------------------------------- series

  /** The MeasurementResults rows of the site (one per result). */
  function SiteResults(db: Database, siteCode: string): seq<ResultRow> {
    Filter(db.results, (r: ResultRow) => r.FeatureAction.SamplingFeatureCode == siteCode)
  }

  function ResultIds(rows: seq<ResultRow>): (ids: seq<int>)
    ensures |ids| == |rows| && forall i :: 0 <= i < |rows| ==> ids[i] == rows[i].ResultID
  {
    seq(|rows|, i requires 0 <= i < |rows| => rows[i].ResultID)
  }

  /** Both date dictionaries have the result; otherwise the KeyError makes the loop skip it. */
  predicate Dated(r: ResultRow, edt: map<int, int>, sdt: map<int, int>) {
    r.ResultID in edt && r.ResultID in sdt
  }

  /** The row with its end and begin dates attached. */
  function WithDates(r: ResultRow, edt: map<int, int>, sdt: map<int, int>): ResultRow {
    if Dated(r, edt, sdt) then r.(MsrvEndDateTime := Some(edt[r.ResultID]), MsrvBeginDateTime := Some(sdt[r.ResultID]))
    else r
  }

  /** The rows that are not skipped, in order. */
  function DatedResults(rows: seq<ResultRow>, edt: map<int, int>, sdt: map<int, int>): seq<ResultRow> {
    Filter(rows, (r: ResultRow) => Dated(r, edt, sdt))
  }

  /** The affiliation is looked up only at index 0, so it is None when the first row is skipped. */
  function SeriesAffiliation(db: Database, rows: seq<ResultRow>, edt: map<int, int>, sdt: map<int, int>): (aff: Option<AffiliationRow>)
    ensures aff.Some? ==> rows != [] && Dated(rows[0], edt, sdt)
    ensures rows != [] && Dated(rows[0], edt, sdt) ==> aff == db.actionAffiliation(rows[0].FeatureAction.Action.ActionID)
  {
    if rows != [] && Dated(rows[0], edt, sdt) then db.actionAffiliation(rows[0].FeatureAction.Action.ActionID) else None
  }

  /** A series with its variable's DataType and SampleMedium normalised and the medium copied to the series. */
  function NormalizedSeries(cv: CvMap, w: Series): (n: Series)
    requires HasCategories(cv)
    ensures n.Variable == NormalizedVariable(cv, w.Variable) && n.SampleMedium == n.Variable.SampleMedium
    ensures n.(Variable := w.Variable, SampleMedium := w.SampleMedium) == w
  {
    var v := NormalizedVariable(cv, w.Variable);
    w.(Variable := v, SampleMedium := v.SampleMedium)
  }

  /** The series of the rows that are kept, each mapped with the shared affiliation and normalised. */
  function SeriesOf(cv: CvMap, kept: seq<ResultRow>, edt: map<int, int>, sdt: map<int, int>,
                    aff: Option<AffiliationRow>): (ss: seq<Series>)
    requires HasCategories(cv)
    ensures |ss| == |kept|
  {
    seq(|kept|, k requires 0 <= k < |kept| => NormalizedSeries(cv, NewSeries(WithDates(kept[k], edt, sdt), aff)))
  }

  /**
   * `get_series_by_sitecode`. The site lookup runs first and only its error
   * matters. The end and begin date dictionaries are computed for the ids of
   * the site's results; a result missing from either is skipped; the
   * affiliation comes from the first result's action; get_match raises
   * KeyError for a missing category as soon as a series is kept.
   */
  method GetSeriesBySiteCode(cv: CvMap, db: Database, siteCode: string) returns (r: Result<seq<Series>, Fault>)
    ensures GetSiteByCode(db, siteCode).Failure? ==> r == Failure(GetSiteByCode(db, siteCode).error)
    ensures GetSiteByCode(db, siteCode).Success? ==>
      var rows := SiteResults(db, siteCode);
      var edt := EndDateTimes(db.values, ResultIds(rows));
      var sdt := StartDateTimes(db.values, ResultIds(rows));
      var kept := DatedResults(rows, edt, sdt);
      (kept == [] ==> r == Success([])) &&
      (kept != [] && !HasCategories(cv) ==> r == Failure(MissingCategory(cv))) &&
      (kept != [] && HasCategories(cv) ==> r == Success(SeriesOf(cv, kept, edt, sdt, SeriesAffiliation(db, rows, edt, sdt))))
    ensures r.Success? ==> |r.value| <= |SiteResults(db, siteCode)|
  {
    var site := GetSiteByCode(db, siteCode);
    if site.Failure? {
      return Failure(site.error);
    }
    var rows := SiteResults(db, siteCode);
    var ids := ResultIds(rows);
    var edt := EndDateTimes(db.values, ids);
    var sdt := StartDateTimes(db.values, ids);
    r := SeriesOfResults(cv, db, rows, edt, sdt);
  }

  /** One kept result mapped to a Series and normalised. */
  method SeriesOfRow(cv: CvMap, row: ResultRow, aff: Option<AffiliationRow>) returns (r: Result<Series, Fault>)
    ensures HasCategories(cv) ==> r == Success(NormalizedSeries(cv, NewSeries(row, aff)))
    ensures !HasCategories(cv) ==> r == Failure(MissingCategory(cv))
  {
    var w := NewSeries(row, aff);
    var v := NormalizeVariable(cv, w.Variable);
    if v.Failure? {
      return Failure(v.error);
    }
    return Success(w.(Variable := v.value, SampleMedium := v.value.SampleMedium));
  }

  /** The indexed loop of `get_series_by_sitecode` over the site's results. */
  method SeriesOfResults(cv: CvMap, db: Database, rows: seq<ResultRow>, edt: map<int, int>, sdt: map<int, int>)
    returns (r: Result<seq<Series>, Fault>)
    ensures var kept := DatedResults(rows, edt, sdt);
      (kept == [] ==> r == Success([])) &&
      (kept != [] && !HasCategories(cv) ==> r == Failure(MissingCategory(cv))) &&
      (kept != [] && HasCategories(cv) ==> r == Success(SeriesOf(cv, kept, edt, sdt, SeriesAffiliation(db, rows, edt, sdt))))
    ensures r.Success? ==> |r.value| <= |rows|
  {
    var series: seq<Series> := [];
    var aff: Option<AffiliationRow> := None;
    ghost var first := SeriesAffiliation(db, rows, edt, sdt);
    ghost var kept: seq<ResultRow> := [];
    var i := 0;
    while i < |rows|
      invariant 0 <= i <= |rows|
      invariant i == 0 ==> aff.None?
      invariant i > 0 ==> aff == first
      invariant kept == DatedResults(rows[..i], edt, sdt)
      invariant kept != [] ==> HasCategories(cv)
      invariant HasCategories(cv) ==> series == SeriesOf(cv, kept, edt, sdt, first)
      invariant !HasCategories(cv) ==> series == []
    {
      DatedStep(rows, i, edt, sdt);
      if rows[i].ResultID in edt && rows[i].ResultID in sdt {
        var row := WithDates(rows[i], edt, sdt);
        if i == 0 {
          aff := db.actionAffiliation(rows[0].FeatureAction.Action.ActionID);
        }
        assert aff == first;
        var w := SeriesOfRow(cv, row, aff);
        if w.Failure? {
          NonEmptyPrefixKept(rows, i + 1, edt, sdt);
          return Failure(w.error);
        }
        SeriesOfSnoc(cv, kept, rows[i], edt, sdt, first);
        series := series + [w.value];
        kept := kept + [rows[i]];
      }
      i := i + 1;
    }
    assert rows[..i] == rows;
    return Success(series);
  }

  /** One more kept row adds its series at the end. */
  lemma SeriesOfSnoc(cv: CvMap, kept: seq<ResultRow>, r: ResultRow, edt: map<int, int>, sdt: map<int, int>,
                     aff: Option<AffiliationRow>)
    requires HasCategories(cv)
    ensures SeriesOf(cv, kept + [r], edt, sdt, aff)
         == SeriesOf(cv, kept, edt, sdt, aff) + [NormalizedSeries(cv, NewSeries(WithDates(r, edt, sdt), aff))]
  {
    assert (kept + [r])[..|kept|] == kept;
  }

  /** Taking one more row keeps it exactly when it is dated. */
  lemma DatedStep(rows: seq<ResultRow>, i: nat, edt: map<int, int>, sdt: map<int, int>)
    requires i < |rows|
    ensures Dated(rows[i], edt, sdt) ==> DatedResults(rows[..i + 1], edt, sdt) == DatedResults(rows[..i], edt, sdt) + [rows[i]]
    ensures !Dated(rows[i], edt, sdt) ==> DatedResults(rows[..i + 1], edt, sdt) == DatedResults(rows[..i], edt, sdt)
  {
    PrefixSnoc(rows, i);
  }

  /** A row kept from a prefix is kept from the whole sequence. */
  lemma NonEmptyPrefixKept(rows: seq<ResultRow>, n: nat, edt: map<int, int>, sdt: map<int, int>)
    requires n <= |rows| && DatedResults(rows[..n], edt, sdt) != []
    ensures DatedResults(rows, edt, sdt) != []
  {
    FilterConcat(rows[..n], rows[n..], (r: ResultRow) => Dated(r, edt, sdt));
    assert rows[..n] + rows[n..] == rows;
  }

  /** The series of a kept row: the row's series, with its dates attached, normalised. */
  lemma SeriesOfAt(cv: CvMap, kept: seq<ResultRow>, edt: map<int, int>, sdt: map<int, int>,
                   aff: Option<AffiliationRow>, j: nat)
    requires HasCategories(cv) && j < |kept|
    ensures SeriesOf(cv, kept, edt, sdt, aff)[j] == NormalizedSeries(cv, NewSeries(WithDates(kept[j], edt, sdt), aff))
  {
  }

  /**
   * A result of the site yields a series exactly when it has values: the
   * date dictionaries are keyed by the ids that have values.
   */
  lemma KeptIffHasValues(db: Database, siteCode: string, r: ResultRow)
    requires r in SiteResults(db, siteCode)
    ensures var rows := SiteResults(db, siteCode);
            r in DatedResults(rows, EndDateTimes(db.values, ResultIds(rows)), StartDateTimes(db.values, ResultIds(rows)))
            <==> HasValues(db.values, r.ResultID)
  {
    var rows := SiteResults(db, siteCode);
    var ids := ResultIds(rows);
    var edt := EndDateTimes(db.values, ids);
    var sdt := StartDateTimes(db.values, ids);
    FilterMembers(rows, (x: ResultRow) => Dated(x, edt, sdt), r);
    var k :| 0 <= k < |rows| && rows[k] == r;
    assert r.ResultID == ids[k];
    EndDateTimesAreLatest(db.values, ids, r.ResultID);
    StartDateTimesAreEarliest(db.values, ids, r.ResultID);
  }

  /**
   * Every series of a site carries both dates: the begin date is the earliest
   * and the end date the latest timestamp among its result's values, so the
   * begin date is never after the end date.
   */
  lemma SeriesDatesAreValueBounds(cv: CvMap, db: Database, siteCode: string, j: nat)
    requires HasCategories(cv)
    requires var rows := SiteResults(db, siteCode);
             j < |DatedResults(rows, EndDateTimes(db.values, ResultIds(rows)), StartDateTimes(db.values, ResultIds(rows)))|
    ensures var rows := SiteResults(db, siteCode);
            var edt := EndDateTimes(db.values, ResultIds(rows));
            var sdt := StartDateTimes(db.values, ResultIds(rows));
            var kept := DatedResults(rows, edt, sdt);
            var w := SeriesOf(cv, kept, edt, sdt, SeriesAffiliation(db, rows, edt, sdt))[j];
            w.SeriesID == kept[j].ResultID &&
            w.BeginDateTimeUTC.Set? && w.EndDateTimeUTC.Set? &&
            IsEarliest(db.values, kept[j].ResultID, w.BeginDateTimeUTC.value) &&
            IsLatest(db.values, kept[j].ResultID, w.EndDateTimeUTC.value) &&
            w.BeginDateTimeUTC.value <= w.EndDateTimeUTC.value
  {
    var rows := SiteResults(db, siteCode);
    var ids := ResultIds(rows);
    var edt := EndDateTimes(db.values, ids);
    var sdt := StartDateTimes(db.values, ids);
    var kept := DatedResults(rows, edt, sdt);
    var aff := SeriesAffiliation(db, rows, edt, sdt);
    SeriesOfAt(cv, kept, edt, sdt, aff, j);
    var id := kept[j].ResultID;
    assert Dated(kept[j], edt, sdt);
    EndDateTimesAreLatest(db.values, ids, id);
    StartDateTimesAreEarliest(db.values, ids, id);
    StartNotAfterEnd(db.values, ids, id);
  }

  /**
   * The affiliation is looked up for the first result only: every series
   * has a Source exactly when the first result was kept and its action has
   * an affiliation.
   */
  lemma SeriesSourceFollowsFirstResult(cv: CvMap, db: Database, rows: seq<ResultRow>,
                                       edt: map<int, int>, sdt: map<int, int>, j: nat)
    requires HasCategories(cv) && j < |DatedResults(rows, edt, sdt)|
    ensures var w := SeriesOf(cv, DatedResults(rows, edt, sdt), edt, sdt, SeriesAffiliation(db, rows, edt, sdt))[j];
            w.Source.Set? <==>
              rows != [] && Dated(rows[0], edt, sdt) && db.actionAffiliation(rows[0].FeatureAction.Action.ActionID).Some?
  {
    SeriesOfAt(cv, DatedResults(rows, edt, sdt), edt, sdt, SeriesAffiliation(db, rows, edt, sdt), j);
  }

  // ------------------------------------------- series by site and variable

  /** The specimen results of the site whose variable has the code. */
  function CodeResults(db: Database, siteId: int, varCode: string): seq<ResultRow> {
    Filter(db.specimenResults(siteId), (r: ResultRow) => r.Variable.VariableCode == varCode)
  }

  /** The grouped rows of the site's specimen results whose variable has the code. */
  function CodeAggregates(db: Database, siteId: int, varCode: string): seq<AggregateRow> {
    Filter(db.specimenAggregates(siteId), (a: AggregateRow) => a.VariableCode == varCode)
  }

  /**
   * `get_series_by_sitecode_and_varcode`: a site that is not found gives
   * None; otherwise a series per pair of a specimen result and a grouped row
   * with the same variable and units. The grouped rows' dates are passed to
   * the Series mapper, which ignores them.
   */
  method GetSeriesBySiteCodeAndVarCode(db: Database, siteCode: string, varCode: string)
    returns (r: Result<Option<seq<Series>>, Fault>)
    ensures GetSiteByCode(db, siteCode).Failure? ==> r == Failure(GetSiteByCode(db, siteCode).error)
    ensures GetSiteByCode(db, siteCode) == Success(None) ==> r == Success(None)
    ensures GetSiteByCode(db, siteCode).Success? && GetSiteByCode(db, siteCode).value.Some? ==>
      var siteId := GetSiteByCode(db, siteCode).value.value.SiteID;
      var emitted := JoinedRows(CodeResults(db, siteId, varCode), CodeAggregates(db, siteId, varCode));
      r == Success(Some(SeriesMap(NewSeries, emitted, JoinAffiliation(db.organizationAffiliation, emitted))))
  {
    var site := GetSiteByCode(db, siteCode);
    if site.Failure? {
      return Failure(site.error);
    }
    if site.value.None? {
      return Success(None);
    }
    var siteId := site.value.value.SiteID;
    var series := JoinSeries(NewSeries, db.organizationAffiliation, CodeResults(db, siteId, varCode), CodeAggregates(db, siteId, varCode));
    return Success(Some(series));
  }

  /**
   * Each series of the site and variable code is the Series of a specimen
   * result of the site with that variable code, emitted once per grouped row
   * with the same variable and units; its variable code is the key of the
   * requested code with the row's units and medium, and it has a Source
   * exactly when the first emitted result's organization has an affiliation.
   */
  lemma SiteVarSeriesAt(db: Database, siteId: int, varCode: string, j: nat)
    requires j < |JoinedRows(CodeResults(db, siteId, varCode), CodeAggregates(db, siteId, varCode))|
    ensures var emitted := JoinedRows(CodeResults(db, siteId, varCode), CodeAggregates(db, siteId, varCode));
            var aff := JoinAffiliation(db.organizationAffiliation, emitted);
            var w := SeriesMap(NewSeries, emitted, aff)[j];
            && w == NewSeries(emitted[j], aff)
            && emitted[j] in db.specimenResults(siteId)
            && w.Variable.VariableCode == VariableKey(varCode, emitted[j].Units.UnitsID, emitted[j].SampledMediumCV)
            && (exists a :: a in db.specimenAggregates(siteId) && a.VariableCode == varCode && Joins(a, emitted[j]))
            && (w.Source.Set? <==> aff.Some?)
  {
    var results := CodeResults(db, siteId, varCode);
    var aggs := CodeAggregates(db, siteId, varCode);
    var emitted := JoinedRows(results, aggs);
    var x := emitted[j];
    SeriesMapAt(NewSeries, emitted, JoinAffiliation(db.organizationAffiliation, emitted), j);
    JoinedMembers(results, aggs, x);
    FilterMembers(db.specimenResults(siteId), (r: ResultRow) => r.Variable.VariableCode == varCode, x);
    var a :| a in aggs && Joins(a, x);
    FilterMembers(db.specimenAggregates(siteId), (g: AggregateRow) => g.VariableCode == varCode, a);
  }
}
