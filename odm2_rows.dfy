/**
 * The ODM2 rows that the queries return, each with the related rows the
 * mappers follow (a result's variable, units, processing level and feature
 * action; an action's method; an affiliation's person and organization).
 * A relation that the schema makes mandatory is a plain field; one that may
 * be missing is an Option.
 */
module Odm2Rows {
  import opened Wrappers

  datatype UnitRow = UnitRow(UnitsID: int, UnitsTypeCV: string, UnitsAbbreviation: string, UnitsName: string)

  datatype VariableRow = VariableRow(
    VariableID: int, VariableTypeCV: string, VariableCode: string, VariableNameCV: string,
    VariableDefinition: Option<string>, SpeciationCV: Option<string>, NoDataValue: real)

  datatype MethodRow = MethodRow(
    MethodID: int, MethodCode: string, MethodDescription: Option<string>, MethodLink: Option<string>,
    OrganizationID: Option<int>)

  datatype ActionRow = ActionRow(ActionID: int, ActionTypeCV: string, Method: MethodRow)

  /** A feature action, with the code of the sampling feature it belongs to. */
  datatype FeatureActionRow = FeatureActionRow(FeatureActionID: int, SamplingFeatureCode: string, Action: ActionRow)

  datatype ProcessingLevelRow = ProcessingLevelRow(
    ProcessingLevelID: int, ProcessingLevelCode: string, Definition: Option<string>, Explanation: Option<string>)

  /**
   * A measurement result. `MsrvBeginDateTime` and `MsrvEndDateTime` are the
   * attributes that the series lookup attaches to the row object before
   * mapping it; None means the attribute was never attached.
   */
  datatype ResultRow = ResultRow(
    ResultID: int, FeatureAction: FeatureActionRow, Variable: VariableRow, Units: UnitRow,
    ProcessingLevel: ProcessingLevelRow, SampledMediumCV: string, AggregationStatisticCV: string,
    CensorCodeCV: string, TimeAggregationIntervalUnits: Option<UnitRow>, ValueCount: int,
    MsrvBeginDateTime: Option<int>, MsrvEndDateTime: Option<int>)
  {
    /** The VariableID foreign key, the id of the related variable. */
    function VariableID(): int { Variable.VariableID }
    /** The UnitsID foreign key, the id of the related units. */
    function UnitsID(): int { Units.UnitsID }
  }

  /** A measurement result value; `ValueDateTime` is a timestamp. */
  datatype ValueRow = ValueRow(
    ValueID: int, DataValue: real, ValueDateTime: int, ValueDateTimeUTCOffset: int, Result: ResultRow)

  datatype SpatialReferenceRow = SpatialReferenceRow(
    SpatialReferenceID: int, SRSCode: Option<string>, SRSName: string, SRSDescription: Option<string>)

  datatype SiteRow = SiteRow(
    SamplingFeatureID: int, SamplingFeatureCode: string, SamplingFeatureName: Option<string>,
    SamplingFeatureDescription: Option<string>, Elevation_m: Option<real>, Latitude: real, Longitude: real,
    SpatialReferenceID: int, SpatialReference: SpatialReferenceRow)

  datatype OrganizationRow = OrganizationRow(
    OrganizationID: int, OrganizationTypeCV: string, OrganizationCode: string, OrganizationName: string,
    OrganizationDescription: Option<string>, OrganizationLink: Option<string>)

  datatype PersonRow = PersonRow(PersonFirstName: string, PersonLastName: string)

  datatype AffiliationRow = AffiliationRow(
    AffiliationID: int, Person: PersonRow, Organization: Option<OrganizationRow>,
    PrimaryPhone: Option<string>, PrimaryEmail: string, PrimaryAddress: Option<string>)

  /**
   * A row of the grouped query of `get_series_by_sitecode_and_varcode`: the
   * variable, units and medium of a group of specimen results, the earliest
   * action begin and latest action end, and the code of the joined variable.
   */
  datatype AggregateRow = AggregateRow(
    vid: int, unitid: int, samplemedium: string, begindate: Option<int>, enddate: Option<int>,
    VariableCode: string)
}
