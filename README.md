# ODM2 measurement DAO of WOFpy, modelled in Dafny

WOFpy publishes hydrological observations as WaterOneFlow services. For an
ODM2 database of measurement results, a data-access object (DAO) answers the
service calls: it looks up sites, variables, series and data values, and
builds WaterML objects from the rows with a set of row mappers. This project
models the part of that DAO that runs after its SQL queries, and the mappers.

- **Database.** The store is given as the rows its queries return.
  - Sites, measurement results and result values are sequences; the values
    are in timestamp order.
  - Per site, the specimen results and their grouped rows are also given.
  - The three `.first()` affiliation lookups are functions: by site code, by
    action id and by organization id.
  - Each query's WHERE clause is a predicate over these rows (module `Odm2Dao`).
- **Mappers** (module `Models`). Each WaterML object is an immutable
  datatype built by a function: Variable, Site, Series, DataValue, Method,
  Unit, Source and QualityControlLevel.
  - A Python attribute the constructor may leave unassigned is an `Attr`
    (`Unset | Set(v)`).
  - A value that may be None is an `Option`.
- **Variable codes** (module `VariableCodes`).
  - The composite key `code::unitsid-medium` that the Variable mapper and the
    data-value grouping build.
  - `get_variable_params`, which splits a requested code with
    `re.split('::|-', …)`.
  - Python's `'%s' % n` and `int(s)` on integers (module `Decimal`).
- **Controlled vocabulary** (module `CvMapping`). The `get_match`
  normalisation of DataType and SampleMedium against the category map loaded
  from the mapping file.
- **Date bounds** (module `DateBounds`). The per-result MIN and MAX of value
  timestamps, as folds over the value rows.
- **Series join** (module `SeriesJoin`). The nested loop of
  `get_series_by_sitecode_and_varcode`. It is written for any row-to-series
  mapper; the DAO passes the Series mapper.

The DAO's loops are methods with loop invariants. Each is proved equal to a
specification function: a recursive definition, a sequence comprehension, or
(for `get_variable_by_code`) a case split on the query's rows. Lemmas prove
what those functions promise. Python exceptions that escape the DAO are `Failure(Fault)` results:
- `KeyError` for a category missing from the vocabulary map;
- `ValueError` for a unit id that `int()` rejects in `get_variable_by_code`;
- `AttributeError` for an affiliation without an organization in the Site
  mapper.

## Model

| member | source | states |
|---|---|---|
| `CvMapping.Canonical` | wof/examples/flask/odm2/measurement/odm2_measurement_dao.py:48-52 | the term comes back unchanged when no synonym list contains it; otherwise the result is the canonical term of the first entry, in the dictionary's iteration order, whose synonyms contain it |
| `CvMapping.GetMatch` | wof/examples/flask/odm2/measurement/odm2_measurement_dao.py:48-52 | a category missing from the map raises KeyError of that category; otherwise the early-return loop gives the canonical term |
| `CvMapping.SynonymResolves` | wof/examples/flask/odm2/measurement/odm2_measurement_dao.py:48-52 | when no two entries share a synonym, every synonym of an entry resolves to that entry's canonical term |
| `VariableCodes.SplitCode` | wof/examples/flask/odm2/measurement/odm2_measurement_dao.py:145 | the split always gives at least one piece, even of an empty code |
| `VariableCodes.GetVariableParams` | wof/examples/flask/odm2/measurement/odm2_measurement_dao.py:139-156 | with at most three pieces the code is the first piece, otherwise the whole text; a unit id is set exactly for two or three pieces, to the second; a medium exactly for three, to the third |
| `VariableCodes.VariableKey` | wof/examples/flask/odm2/measurement/sqlalch_odm2_models.py:11-13 | the key begins with the code and `::`, and its length is that of the code, the units id's decimal text, the medium and the three separator characters |
| `Decimal.IntToDecimal` | wof/examples/flask/odm2/measurement/odm2_measurement_dao.py:437-439 | the text of a non-negative integer is all digits; that of a negative one is `-` followed by digits |
| `Decimal.ParseInt` | wof/examples/flask/odm2/measurement/odm2_measurement_dao.py:187 | after trimming whitespace, `int()` accepts exactly digits with an optional sign; a text of digits only reads as its digits' value; a negative result needs a leading `-` |
| `VariableCodes.SplitPiecesHaveNoSeparator` | wof/examples/flask/odm2/measurement/odm2_measurement_dao.py:145 | no piece of the split starts a `-` or a `::` anywhere inside it |
| `VariableCodes.PlainCodeHasNoFilters` | wof/examples/flask/odm2/measurement/odm2_measurement_dao.py:139-156 | a code without separators is one piece: the code itself, no unit, no medium |
| `VariableCodes.CodeAndUnitParams` | wof/examples/flask/odm2/measurement/odm2_measurement_dao.py:139-156 | `code::unit` and `code-unit` are two pieces: the code and a unit id, with no medium |
| `VariableCodes.KeyRoundTrip` | wof/examples/flask/odm2/measurement/odm2_measurement_dao.py:139-156 | the key built from a code, a units id that is not negative and a medium, none holding a separator, splits back into exactly that code, the units id's decimal text and that medium |
| `VariableCodes.KeyInjective` | wof/examples/flask/odm2/measurement/odm2_measurement_dao.py:437-439 | under the same conditions, distinct (code, units id, medium) triples give distinct keys, so different variables never share a data-value bucket |
| `VariableCodes.ManyPiecesKeepCodeWhole` | wof/examples/flask/odm2/measurement/odm2_measurement_dao.py:139-156 | four pieces leave the requested code unsplit, with no unit and no medium filter |
| `Decimal.ParseIntOfDecimal` | wof/examples/flask/odm2/measurement/odm2_measurement_dao.py:187 | `int()` of the decimal text of any integer gives that integer back |
| `Models.NewUnit` | wof/examples/flask/odm2/measurement/sqlalch_odm2_models.py:159-165 | the Unit copies the units row's id, name, type and abbreviation and does not validate the type |
| `Models.NewMethod` | wof/examples/flask/odm2/measurement/sqlalch_odm2_models.py:152-157 | the Method copies the method row's id, code, description and link |
| `Models.NewQualityControlLevel` | wof/examples/flask/odm2/measurement/sqlalch_odm2_models.py:189-194 | the level's id, code, definition and explanation are those of the processing level |
| `Models.NewVariable` | wof/examples/flask/odm2/measurement/sqlalch_odm2_models.py:8-44 | VariableCode is the composite key of the variable code, the units id and the medium; VariableID, VariableName, VariableDescription, NoDataValue and Speciation copy the row; GeneralCategoryValidate and ValueTypeValidate are off; VariableUnitsID is the units id and VariableUnits its Unit; DataType is the aggregation statistic, not the overwritten variable type; GeneralCategory is the variable type; ValueType is the action type; TimeUnits is None exactly when no time unit is given, else a copy of it |
| `Models.NewSite` | wof/examples/flask/odm2/measurement/sqlalch_odm2_models.py:60-80 | an affiliation without an organization raises AttributeError; otherwise SiteID, Latitude, Longitude, LatLongDatumID, SiteCode, SiteName, Elevation_m and Comments copy the row, the datum's id, SRSID, SRSName and Notes copy its spatial reference, and AgencyName and AgencyCode are set together, exactly when the organization's type is on the allow-list, to its name and code |
| `Models.NewSource` | wof/examples/flask/odm2/measurement/sqlalch_odm2_models.py:167-187 | SourceID is the affiliation id; SourceCode (equal to SourceID), Organization, SourceDescription and SourceLink are set exactly when there is an organization, the last three to its name, description and link; ContactName is first name, space, last name; Phone and Address are set exactly when present; Email is always set |
| `Models.NewSeries` | wof/examples/flask/odm2/measurement/sqlalch_odm2_models.py:81-128 | SeriesID, SampleMedium, variable, quality-control fields and method come from the result row; the end date is set exactly when the row has one, the begin date exactly when both are, each to the row's value; Source is set exactly with an affiliation, to its Source; Organization exactly when that affiliation has an organization, to its name; ValueCount copies the row |
| `Models.NewDataValue` | wof/examples/flask/odm2/measurement/sqlalch_odm2_models.py:129-150 | id, value, time, UTCOffset and the result's CensorCode copy the row; SourceID is set exactly when an affiliation is given, to its id; MethodID is the result's method id; QualityControlLevel is the processing level's code and QualityControlLevelID its id |
| `Models.VariableCodeRoundTrip` | wof/examples/flask/odm2/measurement/sqlalch_odm2_models.py:11-15 | the code a Variable publishes splits back into its own code, a unit id text that `int()` reads as VariableUnitsID, and its own SampleMedium |
| `Odm2Dao.GetSiteByCode` | wof/examples/flask/odm2/measurement/odm2_measurement_dao.py:72-97 | the lookup gives None exactly when the code matches other than one row; with exactly one row, the lookup fails exactly when the Site mapper raises on that row and the code's affiliation, and only for an affiliation without an organization; a found site is the mapper's output for that row and affiliation, with the requested code and the row's id |
| `Odm2Dao.GetSitesByCodes` | wof/examples/flask/odm2/measurement/odm2_measurement_dao.py:99-111 | the loop gives the sites of the codes in order, skipping codes without a site; the first error stops it |
| `Odm2Dao.SitesByCodesAreMapped` | wof/examples/flask/odm2/measurement/odm2_measurement_dao.py:99-111 | each site returned for a list of codes is the Site mapper's output for the one Sites row with its code and that code's affiliation |
| `Odm2Dao.SitesByCodesKeepsFoundCodes` | wof/examples/flask/odm2/measurement/odm2_measurement_dao.py:99-111 | there are no more sites than codes, and the sites' codes are exactly the requested codes that have a site, in request order |
| `Odm2Dao.UnitFilter` | wof/examples/flask/odm2/measurement/odm2_measurement_dao.py:186-187 | no unit id means no unit filter; a unit id filters by its `int()` value, and fails with ValueError exactly when `int()` rejects it |
| `Odm2Dao.NormalizedVariable` | wof/examples/flask/odm2/measurement/odm2_measurement_dao.py:204-205 | DataType and SampleMedium become their canonical terms and every other field is unchanged |
| `Odm2Dao.NormalizeVariable` | wof/examples/flask/odm2/measurement/odm2_measurement_dao.py:204-205 | the two get_match calls give the normalised variable, or the KeyError of the first missing category |
| `Odm2Dao.LastVariable` | wof/examples/flask/odm2/measurement/odm2_measurement_dao.py:193-221 | no rows gives None, and only no rows; a missing category fails with the KeyError of the first missing one, exactly when there are rows; otherwise the normalised variable of the last row |
| `Odm2Dao.GetVariableByCode` | wof/examples/flask/odm2/measurement/odm2_measurement_dao.py:216-221 | a unit id that `int()` rejects raises ValueError; otherwise the result is None for no selected result, else the last selected result's normalised variable, or the KeyError of a missing category |
| `Odm2Dao.KeySelectsItsVariable` | wof/examples/flask/odm2/measurement/odm2_measurement_dao.py:175-190 | requesting a composite key selects exactly the results with its code, units id and medium, and the variable of any of them publishes that key |
| `Odm2Dao.QueryValues` | wof/examples/flask/odm2/measurement/odm2_measurement_dao.py:372-428 | a unit id that `int()` rejects gives no rows, because the query's try block catches the error; every row has the site code and variable code, the unit id's value and the medium when given, and a time within the range when both ends are given; no more rows than the value table |
| `Odm2Dao.QueryValuesComplete` | wof/examples/flask/odm2/measurement/odm2_measurement_dao.py:372-428 | when the unit id is accepted, a value row is returned exactly when it passes every filter, and the rows keep the value table's order |
| `Odm2Dao.ValuesAffiliation` | wof/examples/flask/odm2/measurement/odm2_measurement_dao.py:432-445 | the affiliation the value loops end with: None before any row, otherwise the lookup for the organization of the first row's method, made once under `first_flag`; GroupByKey and the flat loop of GetDatavalues are proved to end with it |
| `Odm2Dao.DataValuesOf` | wof/examples/flask/odm2/measurement/odm2_measurement_dao.py:454-463 | one DataValue per row, same length and order, all with the same affiliation |
| `Odm2Dao.GetDatavalues` | wof/examples/flask/odm2/measurement/odm2_measurement_dao.py:364-463 | a site lookup error escapes; no site or no matching row (a rejected unit id counts as none) gives None; with neither unit nor medium in the code, the values bucketed by composite key; otherwise the flat list in row order; either way every value carries the affiliation the first row looked up |
| `Odm2Dao.GroupByKey` | wof/examples/flask/odm2/measurement/odm2_measurement_dao.py:435-453 | the dictionary loop gives, for each distinct key (listed in order of first occurrence), the DataValues of that key's rows in row order, all carrying the affiliation that `first_flag` lets the first row look up |
| `Odm2Dao.DistinctKeysAreRowKeys` | wof/examples/flask/odm2/measurement/odm2_measurement_dao.py:435-453 | the dictionary's keys are exactly the rows' composite keys, each once |
| `Odm2Dao.EachRowInItsOwnBucket` | wof/examples/flask/odm2/measurement/odm2_measurement_dao.py:435-453 | every row lies in the bucket of its own key and in no other |
| `Odm2Dao.BucketSizesSumToRowCount` | wof/examples/flask/odm2/measurement/odm2_measurement_dao.py:435-453 | the bucket sizes add up to the number of rows |
| `Odm2Dao.ValuesInTimestampOrder` | wof/examples/flask/odm2/measurement/odm2_measurement_dao.py:413-417 | with the value table in timestamp order, the selected rows, every bucket and the flat list are in timestamp order |
| `Odm2Dao.ValuesShareOneSource` | wof/examples/flask/odm2/measurement/odm2_measurement_dao.py:440-445 | every value, bucketed or in the flat list, carries the source of the one affiliation looked up for the first row, and a bucketed value belongs to its bucket's key |
| `Odm2Dao.SeriesAffiliation` | wof/examples/flask/odm2/measurement/odm2_measurement_dao.py:283-287 | an affiliation is found only when the first result is kept; it is then the lookup for that result's action |
| `Odm2Dao.NormalizedSeries` | wof/examples/flask/odm2/measurement/odm2_measurement_dao.py:292-294 | the series' variable is normalised, the series' medium is the variable's new medium, and every other field is unchanged |
| `Odm2Dao.SeriesOfRow` | wof/examples/flask/odm2/measurement/odm2_measurement_dao.py:288-294 | a kept result gives its normalised Series, or the KeyError of a missing category |
| `Odm2Dao.SeriesOfResults` | wof/examples/flask/odm2/measurement/odm2_measurement_dao.py:266-303 | the indexed loop skips rows missing from either date dictionary; with rows kept, it gives their normalised series in input order, or the KeyError of a missing category; there are never more series than results |
| `Odm2Dao.GetSeriesBySiteCode` | wof/examples/flask/odm2/measurement/odm2_measurement_dao.py:231-303 | a site lookup error escapes; otherwise the dates are computed for the site's result ids and the result is that of the loop, with never more series than results |
| `Odm2Dao.KeptIffHasValues` | wof/examples/flask/odm2/measurement/odm2_measurement_dao.py:261-281 | a result of the site yields a series exactly when it has values |
| `Odm2Dao.SeriesDatesAreValueBounds` | wof/examples/flask/odm2/measurement/odm2_measurement_dao.py:266-278 | each series carries its result's id and both dates; the begin date is the earliest and the end date the latest of its values, so begin is not after end |
| `Odm2Dao.SeriesSourceFollowsFirstResult` | wof/examples/flask/odm2/measurement/odm2_measurement_dao.py:283-291 | every series has a Source exactly when the first result was kept and its action has an affiliation |
| `Odm2Dao.GetSeriesBySiteCodeAndVarCode` | wof/examples/flask/odm2/measurement/odm2_measurement_dao.py:305-354 | a site lookup error escapes; no site gives None; otherwise one Series per emitted row of the nested join, all with the affiliation of the first emitted row's organization |
| `Odm2Dao.SiteVarSeriesAt` | wof/examples/flask/odm2/measurement/odm2_measurement_dao.py:338-352 | each such series is the Series of a specimen result of the site with the requested code that joins a grouped row of that code; its variable code is the key of that code with the row's units and medium; it has a Source exactly when the shared affiliation exists |
| `SeriesJoin.JoinSeries` | wof/examples/flask/odm2/measurement/odm2_measurement_dao.py:341-352 | the nested loop gives a series per (result, grouped row) pair that joins, in loop order, all with the affiliation of the first emitted row |
| `SeriesJoin.JoinOneResult` | wof/examples/flask/odm2/measurement/odm2_measurement_dao.py:345-352 | the inner loop appends a series per joining grouped row; the flag is cleared and the affiliation looked up at the first join of the whole loop and kept after it |
| `SeriesJoin.JoinedMembers` | wof/examples/flask/odm2/measurement/odm2_measurement_dao.py:344-347 | a row is emitted exactly when it is one of the results and some grouped row has its VariableID and UnitsID |
| `SeriesJoin.SeriesMapConcat` | wof/examples/flask/odm2/measurement/odm2_measurement_dao.py:344-352 | the series of the rows emitted for successive results are concatenated in loop order |
| `DateBounds.EndDateTimes` | wof/examples/flask/odm2/measurement/odm2_measurement_dao.py:534-552 | the end-date dictionary has keys only among the requested ids |
| `DateBounds.StartDateTimes` | wof/examples/flask/odm2/measurement/odm2_measurement_dao.py:555-567 | the start-date dictionary has keys only among the requested ids |
| `DateBounds.EndDateTimesAreLatest` | wof/examples/flask/odm2/measurement/odm2_measurement_dao.py:534-552 | the end-date dictionary holds exactly the requested ids that have values, each mapped to the latest of its timestamps |
| `DateBounds.StartDateTimesAreEarliest` | wof/examples/flask/odm2/measurement/odm2_measurement_dao.py:555-567 | the start-date dictionary holds exactly the requested ids that have values, each mapped to the earliest of its timestamps |
| `DateBounds.StartNotAfterEnd` | wof/examples/flask/odm2/measurement/odm2_measurement_dao.py:534-567 | both dictionaries have the same keys, and no start date is after its end date |

## Left out

- The web layer (`wofpy_flask/views/rest.py`) and `OdmSqlAlchDao.py` are not part of this model. The first is Flask routes and WaterML export; the second is ORM one-liners with no logic of their own.
- SQLAlchemy engine and session plumbing, `db_check` and `__del__` are not modelled. Neither is the YAML loading of the vocabulary map, which is a parameter here.
- The SQL joins, `distinct`, `group_by` and `ORDER BY` are not modelled. Each query's output is given (the value table in timestamp order, the specimen results and grouped rows per site), and only the WHERE filters are stated as predicates.
- `get_all_sites`, `get_sites_by_box`, `get_all_variables`, `_get_variables_by_codes`, `get_specimen_data`, and the method, source and quality-control lookups by id are not modelled. Each is a single query followed by a mapper call per row, and the mappers are modelled.
- Dates are integer timestamps. `dateutil.parse`, `isoformat` and time zones are not modelled.
- Coordinates, elevations and data values are reals. The float-based collapse of an integral NoDataValue to an int is not modelled.
- `print` calls and the unused date literals passed to the Series mapper are not modelled.
- Models.NewSeries: the bdate and edate arguments are not parameters, because the mapper never reads them. The grouped rows' begin and end dates therefore play no part in the join's output.
- The DAO's `get_series_by_sitecode` stores the two dates on ORM row objects that other calls may share. The model attaches them to a copy of the row (`WithDates`), so the aliasing is not captured.
- Models.NewVariable: the units row is a plain parameter, not an Option. The constructor builds the key from `v_unit.UnitsID` before its own None check, so a missing units row raises before that check is reached and the None branch is dead code.
- `get_variables_from_results` is modelled only through its single-code call from `get_variable_by_code`. A list of codes and the no-code case only repeat the same per-row mapping.
- The `DISTINCT ON (VariableID, UnitsID, SampledMediumCV)` of the variable query is not modelled. `Odm2Dao.LastVariable` therefore takes the last matching results row, not the last distinct group.
- Python's `int()` also accepts underscores between digits, non-ASCII digits, and Unicode whitespace around the number (such as U+00A0 and U+001C to U+001F). The model's `int()` accepts ASCII digits and strips ASCII whitespace only, which covers every decimal key.
- Dictionary order is modelled as a sequence of keys next to the key-to-bucket map. The code targets Python 2 as well, where `dict` iteration order is arbitrary. CvMapping.Canonical takes the vocabulary entries in file order and Odm2Dao.GroupByKey lists the bucket keys in first-seen order; both orders hold only on Python 3.7 and later. With two entries sharing a synonym, another order can pick another canonical term.
- A variable code that contains `-` builds a key that splits into four pieces or more. Requesting that key therefore searches for the whole key as a code, and VariableCodes.ManyPiecesKeepCodeWhole states this case. The round trip holds only for codes and media without separators.
- When the vocabulary map stores a category's synonyms as a single string, Python's `in` tests for a substring. The model treats synonyms as a list of strings.
