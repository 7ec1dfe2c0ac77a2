/**
 * The row mappers: each WaterML object is built from one ODM2 row and, for
 * some, an optional affiliation. A Python attribute that the constructor may
 * leave unassigned is an `Attr`.
 */
module Models {
  import opened Wrappers
  import opened Decimal
  import opened VariableCodes
  import opened Odm2Rows

  /** The exceptions the model lets escape. */
  datatype Fault = KeyError(key: string) | ValueError(text: string) | AttributeError(name: string)

  datatype Unit = Unit(UnitsID: int, UnitsName: string, UnitsType: string, UnitsAbbreviation: string,
                       UnitsTypeValidate: bool)

  datatype Method = Method(MethodID: int, MethodDescription: Option<string>, MethodLink: Option<string>,
                           MethodCode: string)

  datatype QualityControlLevel = QualityControlLevel(
    QualityControlLevelID: int, QualityControlLevelCode: string, Definition: Option<string>,
    Explanation: Option<string>)

  datatype Variable = Variable(
    VariableID: int, VariableCode: string, VariableName: string, VariableDescription: Option<string>,
    NoDataValue: real, SampleMedium: string, DataType: string, Speciation: Option<string>,
    VariableUnitsID: int, ValueType: string, GeneralCategory: string,
    GeneralCategoryValidate: bool, ValueTypeValidate: bool,
    VariableUnits: Unit, TimeUnits: Option<Unit>)

  datatype SpatialReference = SpatialReference(SpatialReferenceId: int, SRSID: Option<string>, SRSName: string,
                                               Notes: Option<string>)

  datatype Site = Site(
    SiteID: int, Latitude: real, Longitude: real, LatLongDatumID: int, SiteCode: string,
    SiteName: Option<string>, Elevation_m: Option<real>, Comments: Option<string>,
    LatLongDatum: SpatialReference, AgencyName: Attr<string>, AgencyCode: Attr<string>)

  datatype Source = Source(
    SourceID: int, Organization: Attr<string>, SourceCode: Attr<int>, SourceDescription: Attr<Option<string>>,
    SourceLink: Attr<Option<string>>, ContactName: string, Phone: Attr<string>, Email: string,
    Address: Attr<string>)

  datatype Series = Series(
    SeriesID: int, Variable: Variable, SampleMedium: string,
    QualityControlLevelID: int, QualityControlLevelCode: string, Definition: Option<string>,
    Explanation: Option<string>, Method: Method, EndDateTimeUTC: Attr<int>, BeginDateTimeUTC: Attr<int>,
    ValueCount: int, Organization: Attr<string>, Source: Attr<Source>)

  datatype DataValue = DataValue(
    ValueID: int, DataValue: real, DateTimeUTC: int, UTCOffset: int, SourceID: Attr<int>,
    CensorCode: string, MethodID: int, QualityControlLevelID: int, QualityControlLevel: string)

  /** `Unit(u_obj)`: a copy of the units row, with its type not validated. */
  function NewUnit(u: UnitRow): (w: Unit)
    ensures w.UnitsID == u.UnitsID && w.UnitsName == u.UnitsName
    ensures w.UnitsType == u.UnitsTypeCV && w.UnitsAbbreviation == u.UnitsAbbreviation
    ensures !w.UnitsTypeValidate
  {
    Unit(u.UnitsID, u.UnitsName, u.UnitsTypeCV, u.UnitsAbbreviation, false)
  }

  /** `Method(m_obj)`: a copy of the method row without its organization. */
  function NewMethod(m: MethodRow): (w: Method)
    ensures w.MethodID == m.MethodID && w.MethodCode == m.MethodCode
    ensures w.MethodDescription == m.MethodDescription && w.MethodLink == m.MethodLink
  {
    Method(m.MethodID, m.MethodDescription, m.MethodLink, m.MethodCode)
  }

  /** `QualityControlLevel(p_obj)`: a processing level seen as a quality-control level. */
  function NewQualityControlLevel(p: ProcessingLevelRow): (w: QualityControlLevel)
    ensures w.QualityControlLevelID == p.ProcessingLevelID && w.QualityControlLevelCode == p.ProcessingLevelCode
    ensures w.Definition == p.Definition && w.Explanation == p.Explanation
  {
    QualityControlLevel(p.ProcessingLevelID, p.ProcessingLevelCode, p.Definition, p.Explanation)
  }

  /**
   * `Variable(v, VarSampleMedium, v_unit, v_tunit, ..., aggregationstatisticCV, actiontypeCV)`.
   * The constructor first sets DataType to the variable type and later
   * overwrites it with the aggregation statistic, so only the latter remains.
   * The units row is dereferenced for the key before the constructor checks
   * it for None, so a missing units row never reaches that check; it is a
   * plain parameter here.
   */
  function NewVariable(v: VariableRow, sampleMedium: string, unit: UnitRow, timeUnit: Option<UnitRow>,
                       aggregationStatisticCV: string, actionTypeCV: string): (w: Variable)
    ensures w.VariableCode == VariableKey(v.VariableCode, unit.UnitsID, sampleMedium)
    ensures w.VariableID == v.VariableID && w.VariableUnitsID == unit.UnitsID && w.SampleMedium == sampleMedium
    ensures w.VariableName == v.VariableNameCV && w.VariableDescription == v.VariableDefinition
    ensures w.NoDataValue == v.NoDataValue && w.Speciation == v.SpeciationCV
    ensures !w.GeneralCategoryValidate && !w.ValueTypeValidate
    ensures w.DataType == aggregationStatisticCV && w.GeneralCategory == v.VariableTypeCV
    ensures w.ValueType == actionTypeCV
    ensures w.VariableUnits == NewUnit(unit)
    ensures w.TimeUnits.None? <==> timeUnit.None?
    ensures timeUnit.Some? ==> w.TimeUnits == Some(NewUnit(timeUnit.value))
  {
    Variable(
      v.VariableID, VariableKey(v.VariableCode, unit.UnitsID, sampleMedium), v.VariableNameCV,
      v.VariableDefinition, v.NoDataValue, sampleMedium, aggregationStatisticCV, v.SpeciationCV,
      unit.UnitsID, actionTypeCV, v.VariableTypeCV, false, false,
      NewUnit(unit),
      match timeUnit
      case None => None
      case Some(t) => Some(NewUnit(t)))
  }

  /** Organization types whose name and code a site reports as its agency. */
  const AgencyTypes: seq<string> := ["Government agency", "Research agency"]

  /**
   * `Site(s, aff)`. The agency is reported only for an affiliation whose
   * organization has an allowed type; an affiliation without an organization
   * raises AttributeError when its organization type is read.
   */
  function NewSite(s: SiteRow, aff: Option<AffiliationRow>): (r: Result<Site, Fault>)
    ensures r.Failure? <==> aff.Some? && aff.value.Organization.None?
    ensures r.Success? ==> r.value.SiteID == s.SamplingFeatureID && r.value.SiteCode == s.SamplingFeatureCode
    ensures r.Success? ==> r.value.Latitude == s.Latitude && r.value.Longitude == s.Longitude
    ensures r.Success? ==> r.value.LatLongDatumID == s.SpatialReferenceID
    ensures r.Success? ==> r.value.SiteName == s.SamplingFeatureName && r.value.Elevation_m == s.Elevation_m
    ensures r.Success? ==> r.value.Comments == s.SamplingFeatureDescription
    ensures r.Success? ==> r.value.LatLongDatum.SpatialReferenceId == s.SpatialReference.SpatialReferenceID
    ensures r.Success? ==> r.value.LatLongDatum.SRSID == s.SpatialReference.SRSCode
    ensures r.Success? ==> r.value.LatLongDatum.SRSName == s.SpatialReference.SRSName
    ensures r.Success? ==> r.value.LatLongDatum.Notes == s.SpatialReference.SRSDescription
    ensures r.Success? ==> (r.value.AgencyName.Set? <==>
      aff.Some? && aff.value.Organization.value.OrganizationTypeCV in AgencyTypes)
    ensures r.Success? && r.value.AgencyName.Set? ==>
      r.value.AgencyName.value == aff.value.Organization.value.OrganizationName &&
      r.value.AgencyCode == Set(aff.value.Organization.value.OrganizationCode)
    ensures r.Success? ==> (r.value.AgencyCode.Set? <==> r.value.AgencyName.Set?)
  {
    var sr := s.SpatialReference;
    var site := Site(
      s.SamplingFeatureID, s.Latitude, s.Longitude, s.SpatialReferenceID, s.SamplingFeatureCode,
      s.SamplingFeatureName, s.Elevation_m, s.SamplingFeatureDescription,
      SpatialReference(sr.SpatialReferenceID, sr.SRSCode, sr.SRSName, sr.SRSDescription),
      Unset, Unset);
    match aff
    case None => Success(site)
    case Some(a) =>
      match a.Organization
      case None => Failure(AttributeError("OrganizationTypeCV"))
      case Some(o) =>
        if o.OrganizationTypeCV in AgencyTypes
        then Success(site.(AgencyName := Set(o.OrganizationName), AgencyCode := Set(o.OrganizationCode)))
        else Success(site)
  }

  /**
   * `Source(aff_obj)`. The organization fields, including a SourceCode equal
   * to the SourceID, are set only when there is an organization; phone and
   * address only when they are not None; the email always.
   */
  function NewSource(a: AffiliationRow): (w: Source)
    ensures w.SourceID == a.AffiliationID
    ensures w.SourceCode.Set? <==> a.Organization.Some?
    ensures w.SourceCode.Set? ==> w.SourceCode.value == w.SourceID
    ensures w.Organization.Set? <==> w.SourceCode.Set?
    ensures a.Organization.Some? ==> w.Organization == Set(a.Organization.value.OrganizationName)
    ensures a.Organization.Some? ==>
      w.SourceDescription == Set(a.Organization.value.OrganizationDescription) &&
      w.SourceLink == Set(a.Organization.value.OrganizationLink)
    ensures a.Organization.None? ==> w.SourceDescription == Unset && w.SourceLink == Unset
    ensures w.ContactName == a.Person.PersonFirstName + " " + a.Person.PersonLastName
    ensures w.Phone.Set? <==> a.PrimaryPhone.Some?
    ensures w.Address.Set? <==> a.PrimaryAddress.Some?
    ensures a.PrimaryPhone.Some? ==> w.Phone.value == a.PrimaryPhone.value
    ensures a.PrimaryAddress.Some? ==> w.Address.value == a.PrimaryAddress.value
    ensures w.Email == a.PrimaryEmail
  {
    var (organization, code, description, link) :=
      match a.Organization
      case None => (Unset, Unset, Unset, Unset)
      case Some(o) => (Set(o.OrganizationName), Set(a.AffiliationID), Set(o.OrganizationDescription),
                       Set(o.OrganizationLink));
    Source(
      a.AffiliationID, organization, code, description, link,
      a.Person.PersonFirstName + " " + a.Person.PersonLastName,
      match a.PrimaryPhone case None => Unset case Some(p) => Set(p),
      a.PrimaryEmail,
      match a.PrimaryAddress case None => Unset case Some(d) => Set(d))
  }

  /** The quality-control fields a series carries. */
  function SeriesQualityControlLevel(w: Series): QualityControlLevel {
    QualityControlLevel(w.QualityControlLevelID, w.QualityControlLevelCode, w.Definition, w.Explanation)
  }

  /**
   * `Series(r, aff, bdate, edate)`. The bdate and edate arguments are never
   * read, so they are not parameters here. The end date is assigned before
   * the begin date inside one try block: a missing end date leaves both
   * unassigned, a missing begin date leaves only the end date.
   */
  function NewSeries(r: ResultRow, aff: Option<AffiliationRow>): (w: Series)
    ensures w.SeriesID == r.ResultID && w.SampleMedium == r.SampledMediumCV
    ensures w.Variable == NewVariable(r.Variable, r.SampledMediumCV, r.Units, r.TimeAggregationIntervalUnits,
                                      r.AggregationStatisticCV, r.FeatureAction.Action.ActionTypeCV)
    ensures SeriesQualityControlLevel(w) == NewQualityControlLevel(r.ProcessingLevel)
    ensures w.Method == NewMethod(r.FeatureAction.Action.Method)
    ensures w.EndDateTimeUTC.Set? <==> r.MsrvEndDateTime.Some?
    ensures w.BeginDateTimeUTC.Set? <==> r.MsrvEndDateTime.Some? && r.MsrvBeginDateTime.Some?
    ensures w.BeginDateTimeUTC.Set? ==> w.EndDateTimeUTC.Set?
    ensures w.EndDateTimeUTC.Set? ==> w.EndDateTimeUTC.value == r.MsrvEndDateTime.value
    ensures w.BeginDateTimeUTC.Set? ==> w.BeginDateTimeUTC.value == r.MsrvBeginDateTime.value
    ensures w.Source.Set? <==> aff.Some?
    ensures aff.Some? ==> w.Source.value == NewSource(aff.value)
    ensures w.Organization.Set? <==> aff.Some? && aff.value.Organization.Some?
    ensures w.Organization.Set? ==> w.Organization.value == aff.value.Organization.value.OrganizationName
    ensures w.ValueCount == r.ValueCount
  {
    var p := r.ProcessingLevel;
    var dates: (Attr<int>, Attr<int>) :=
      match r.MsrvEndDateTime
      case None => (Unset, Unset)
      case Some(e) =>
        match r.MsrvBeginDateTime
        case None => (Set(e), Unset)
        case Some(b) => (Set(e), Set(b));
    var (organization, source) :=
      match aff
      case None => (Unset, Unset)
      case Some(a) =>
        (match a.Organization case None => Unset case Some(o) => Set(o.OrganizationName), Set(NewSource(a)));
    Series(
      r.ResultID,
      NewVariable(r.Variable, r.SampledMediumCV, r.Units, r.TimeAggregationIntervalUnits,
                  r.AggregationStatisticCV, r.FeatureAction.Action.ActionTypeCV),
      r.SampledMediumCV, p.ProcessingLevelID, p.ProcessingLevelCode, p.Definition, p.Explanation,
      NewMethod(r.FeatureAction.Action.Method), dates.0, dates.1, r.ValueCount, organization, source)
  }

  /**
   * `DataValue(v, aff_obj)`. The source id is the affiliation's id when one
   * is given, and the quality-control level is the processing level's code,
   * not its id.
   */
  function NewDataValue(v: ValueRow, aff: Option<AffiliationRow>): (w: DataValue)
    ensures w.ValueID == v.ValueID && w.DataValue == v.DataValue && w.DateTimeUTC == v.ValueDateTime
    ensures w.UTCOffset == v.ValueDateTimeUTCOffset && w.CensorCode == v.Result.CensorCodeCV
    ensures w.SourceID.Set? <==> aff.Some?
    ensures aff.Some? ==> w.SourceID.value == aff.value.AffiliationID
    ensures w.MethodID == NewMethod(v.Result.FeatureAction.Action.Method).MethodID
    ensures w.QualityControlLevel == NewQualityControlLevel(v.Result.ProcessingLevel).QualityControlLevelCode
    ensures w.QualityControlLevelID == NewQualityControlLevel(v.Result.ProcessingLevel).QualityControlLevelID
  {
    DataValue(
      v.ValueID, v.DataValue, v.ValueDateTime, v.ValueDateTimeUTCOffset,
      match aff case None => Unset case Some(a) => Set(a.AffiliationID),
      v.Result.CensorCodeCV, v.Result.FeatureAction.Action.Method.MethodID,
      v.Result.ProcessingLevel.ProcessingLevelID, v.Result.ProcessingLevel.ProcessingLevelCode)
  }

  /**
   * The code a Variable publishes reads back, through `get_variable_params`,
   * as its own code, units id and sample medium, and the units id text
   * converts back to the units id, provided the code and medium hold no
   * separator and the units id is not negative.
   */
  lemma VariableCodeRoundTrip(v: VariableRow, sampleMedium: string, unit: UnitRow, timeUnit: Option<UnitRow>,
                              aggregationStatisticCV: string, actionTypeCV: string)
    requires Plain(v.VariableCode) && Plain(sampleMedium) && unit.UnitsID >= 0
    ensures var w := NewVariable(v, sampleMedium, unit, timeUnit, aggregationStatisticCV, actionTypeCV);
            var p := GetVariableParams(w.VariableCode);
            p.code == v.VariableCode && p.sampleMedium == Some(w.SampleMedium) &&
            p.unitId.Some? && ParseInt(p.unitId.value) == Some(w.VariableUnitsID)
  {
    KeyRoundTrip(v.VariableCode, unit.UnitsID, sampleMedium);
    ParseIntOfDecimal(unit.UnitsID);
  }
}
