# geodataset, modelled in Dafny

This project models the reading side of nansencenter/geodataset: the Python package that opens
sea-ice and ocean netCDF products and decides which reader class fits a file. A reader class
fits a file when it can build an area definition (the projected grid) from it. It then needs
the file's time axis and its variables.

The model covers the following:

- **Classes that pick files.** Each reader class decides from the file's name and contents
  whether it can open it. Refusals are `BadAreaDefinition` for the `GeoDataset` family and
  `InvalidDatasetError` for the `GeoDatasetRead` family. `open_netcdf` (in `tools.py` and
  `area_definition.py`) tries a list of classes and keeps the first that opens the file.
  The regridder's `classify` tries them all and keeps the last.
- **Moorings area definition.** It reads two corner pixels and projects them. Then it takes
  the grid shape from two dimensions, computes cell sizes, and derives the extent by moving
  each corner pixel centre half a cell: outward along x, inward along y. Then it names the
  area.
- **Time axis.** The axis is found among candidate dimension names. The units text is parsed
  the way `get_time_converter` does it: split, strip, replace, then six `strptime` templates
  tried in order. Every record goes through `num2date`, with a retry after rounding, and
  through a `strftime`/`strptime` round trip. The records give time offsets in hours or
  days, and the record nearest a date is found.
- **Variables.** Names are resolved through alias groups (`exchange_names`). `get_var` reads
  a variable by rank: time index, depth index, and `ij_range` windows. `var_object` builds
  its masked values and attributes.
- **The `GeoDatasetBase` family** (`geodataset.py`):
  - the file-name check;
  - discovery of the longitude and latitude names;
  - the list of data variables;
  - the area definition;
  - the variable arrays;
  - the attributes the writer computes for `set_variable` and for the time variables;
  - the custom classes of `custom_geodataset.py`.

Foreign code is passed in as parameters:

- `load_cf_area`;
- the area helpers other than `MooringsAreaDefinition`, which the repository does not define;
- the pyproj projection;
- `netcdftime`'s `num2date`;
- the numpy cast used by the writer.

A file's contents are a value (`NetCdf.NcFile`): dimensions, variables in order, their
attributes, data and mask. Python exceptions become `Fail(e)` of `Outcomes.Result`.

Behaviours of the code a reader might not expect, modelled as written:

- **The Moorings extent keeps the corners' order.** `area_definitions.py:66-77` moves the y
  edges inward and hands the corners over as they are, without sorting them.
  `Areas.ExtentSpans` states what the code gives: the y edges lie one cell less than the
  height apart. `Areas.CornerPlacement` states on which side of each pixel centre its edge
  falls.
- **`GeoDatasetRead._get_area_definition` never returns an area.** When `load_cf_area`
  fails, its `except [...]` clause is a list rather than a tuple of classes, so Python
  raises TypeError. This is in `geodataset.py:359-363`.

Other behaviours of the code that are modelled as written:

- `_check_valid_class` in `customized_geo_dataset.py` is never called. As a result the
  customized classes do not look at the file name, and they pass an IndexError on instead
  of translating it.
- Bathymetry's helper is the integer 0, so using it raises TypeError.
- The regridder's Moorings area definition has no `proj4_string`, so it raises
  AttributeError, and `classify` never returns an object.
- `GeoDatasetWrite.set_variable` logs through `self.logger`, which no constructor sets.
  The lookup falls through to netCDF4's attribute lookup and raises AttributeError.

## Model

| member | source | states |
|---|---|---|
| Outcomes.MapAll | geodataset/geo_dataset.py:130-142 | the record loop yields one result per value when it completes |
| Outcomes.MapAllPointwise | geodataset/geo_dataset.py:130-142 | element i of a completed loop is the conversion of value i |
| Outcomes.MapAllFirstFailure | geodataset/geo_dataset.py:134-140 | a failed loop fails with the error of the first value that fails, all earlier values converting |
| Outcomes.MapAllSucceeds | geodataset/geo_dataset.py:130-142 | the loop completes iff every value converts |
| Outcomes.MapAllStops | geodataset/geo_dataset.py:130-142 | a failing value ends the loop with its error whatever follows |
| Outcomes.MapAllSnoc | geodataset/geo_dataset.py:130-142 | a value that converts appends its record to the records so far |
| Outcomes.MapAllFailedPrefix | geodataset/geo_dataset.py:134-141 | once a prefix of the values fails, the values after it change nothing |
| Strings.ContainsAt | geodataset/topaz4_arc.py:10 | Python's substring test holds iff the part occurs at some offset |
| Strings.ContainsAppended | geodataset/topaz4_arc.py:10 | a string contains whatever was appended last |
| Strings.FirstPresent | geodataset/utils.py:65-76 | the name returned is a candidate that is present; None iff no candidate is present |
| Strings.FirstPresentIsFirst | geodataset/utils.py:66-74 | no candidate before the one returned is present |
| Strings.Basename | geodataset/custom_geodataset.py:14 | `os.path.basename` has no '/', ends the path and follows its last '/' |
| Strings.BasenameOfPlainName | geodataset/custom_geodataset.py:14 | a name without '/' is its own basename |
| Strings.BasenameIgnoresDirectory | geodataset/custom_geodataset.py:14 | a directory in front never changes the basename |
| Strings.WordLength | geodataset/utils.py:26 | the leading run of non-space characters ends at a space or at the end |
| Strings.Split | geodataset/utils.py:26 | `str.split()` yields non-empty words without whitespace |
| Strings.SplitWord | geodataset/utils.py:26 | a word followed by whitespace is split off whole |
| Strings.SplitJoin | geodataset/utils.py:26 | splitting words joined by single spaces gives the words back |
| Strings.JoinWordsAvoids | geodataset/utils.py:49 | a character other than the space that no word holds is absent from the joined words |
| Strings.Strip | geodataset/utils.py:30 | `strip(c)` leaves no `c` at either end, keeps only characters of the input and changes nothing when neither end is `c` |
| Strings.StripLeft | geodataset/utils.py:30 | `lstrip(c)` drops exactly the leading run of `c` |
| Strings.StripRight | geodataset/utils.py:30 | `rstrip(c)` keeps a prefix, drops only `c` characters and leaves no `c` at the end |
| Strings.StripAppended | geodataset/utils.py:30 | stripping 's' from a word with 's' appended gives the word back |
| Strings.ReplaceChar | geodataset/utils.py:35 | `replace(a, b)` keeps the length and changes exactly the `a` characters |
| Strings.RemoveChar | geodataset/utils.py:35 | `replace(c, '')` removes every `c` and keeps every other character |
| Strings.ReplaceAbsent | geodataset/utils.py:35 | replacing an absent character changes nothing |
| Strings.RemoveAbsent | geodataset/utils.py:35 | removing an absent character changes nothing |
| Strings.Lower | geodataset/geo_dataset.py:128 | `lower()` keeps the length |
| NdArrays.Select | geodataset/geodataset.py:370 | `take(i, axis)` has the shape with that axis removed |
| NdArrays.SelectAt | geodataset/geodataset.py:368-370 | each cell of the taken array is the original cell with `i` inserted at the axis |
| NdArrays.InsertInBounds | geodataset/geodataset.py:370 | inserting an in-range index on the axis gives an in-range index |
| NdArrays.SliceNd | geodataset/geo_dataset.py:59-63 | a slice `lo:hi` of an axis has `hi - lo` positions on it |
| NdArrays.SliceAt | geodataset/geo_dataset.py:59-63 | each cell of a slice is the original cell shifted by `lo` on the axis |
| NdArrays.PyIndex | geodataset/geo_dataset.py:76-78 | a Python index is in range iff `-n <= i < n`, negatives counting from the end |
| NdArrays.SliceBound | geodataset/geo_dataset.py:61 | a slice bound is clamped to `[0, n]` and counts negatives from the end |
| NdArrays.Index | geodataset/geodataset.py:370 | indexing an axis fails iff the index is out of range, else drops that axis |
| NdArrays.Slice | geodataset/geo_dataset.py:61 | slicing never fails, keeps every other axis and gives `hi - lo` positions for in-range bounds |
| NdArrays.MapShape | geodataset/variable.py:74 | an elementwise function keeps the shape |
| NdArrays.MapAt | geodataset/variable.py:74 | each cell of an elementwise result is the function of the cell |
| NdArrays.ZipNd | geodataset/variable.py:69 | `logical_or` of two arrays of one shape has that shape |
| NdArrays.ZipAt | geodataset/variable.py:69 | each cell of `logical_or` combines the two cells |
| NdArrays.TryMapKidsEach | geodataset/geodataset.py:60 | the rows convert iff each row converts, and each converted row is in place |
| NdArrays.TryMapAt | geodataset/geodataset.py:60-61 | a completed conversion keeps the shape and each cell is the conversion of its cell |
| NdArrays.TryMapFails | geodataset/geodataset.py:60 | one cell that cannot be converted fails the conversion |
| DateTemplates.Tag | geodataset/utils.py:40 | tagging the matches of the rest with a directive value keeps their order and remainders |
| DateTemplates.Strptime | geodataset/utils.py:40 | `strptime` only returns valid dates |
| DateTemplates.DigitChar | geodataset/utils.py:49 | a digit value is written as the digit character of that value |
| DateTemplates.FieldsOf | geodataset/utils.py:49 | one directive value per directive of the template |
| DateTemplates.SeparatorsAppend | geodataset/utils.py:40 | the separators of a concatenation are the concatenated separators |
| DateTemplates.NumericPrefix | geodataset/utils.py:40 | what a numeric directive reads holds no separator |
| DateTemplates.MatchesConsume | geodataset/utils.py:40 | every match consumes a prefix whose separators are exactly the template's literals |
| DateTemplates.FieldMatchesConsume | geodataset/utils.py:40 | the same for the matches that start with a directive |
| DateTemplates.StrptimeSeparators | geodataset/utils.py:40 | `strptime` succeeds only on strings whose separators are the template's literals |
| DateTemplates.DigitsPad2 | geodataset/utils.py:49 | a two-digit zero-padded field reads back as its value |
| DateTemplates.DigitsPad4 | geodataset/utils.py:49 | a four-digit zero-padded year reads back as its value |
| DateTemplates.FirstAlternative | geodataset/utils.py:40 | the first alternative of a directive that matches decides the first match |
| DateTemplates.FieldReadBack | geodataset/utils.py:40 | a directive written by `strftime` is read back whole by the first match |
| DateTemplates.AltChoice | geodataset/utils.py:40 | the first pattern of a directive that matches what `strftime` wrote for it takes all of that text |
| DateTemplates.LiteralReadBack | geodataset/utils.py:40 | a literal in front of a template read back keeps the first match reading back the directive values |
| DateTemplates.DirectiveReadBack | geodataset/utils.py:40 | a directive in front of a template read back adds its own value to the first match |
| DateTemplates.FieldsInOrder | geodataset/utils.py:40 | a template with every directive once, in order, lists the date's fields in the order Y m d H M S |
| DateTemplates.RenderReadBack | geodataset/utils.py:40 | the first match of a template against what it wrote reads back every directive value |
| DateTemplates.RenderParses | geodataset/utils.py:40 | `strptime(strftime(d, t), t) == d` for a template with every directive once, in order |
| DateTemplates.AssembleInOrder | geodataset/utils.py:40 | assembling the directive values of a date gives the date |
| DateTemplates.RenderAppend | geodataset/utils.py:49 | `strftime` of a concatenated template is the concatenation |
| DateTemplates.RenderChars | geodataset/utils.py:49 | `strftime` writes only digits and the template's literals |
| DateTemplates.TemplateShape | geodataset/utils.py:16-23 | each of the six templates lists Y m d H M S once, in order, with its own literals |
| DateTemplates.AtMostOneTemplate | geodataset/utils.py:16-44 | no string parses under two different templates, so their order never matters |
| DateTemplates.LiteralsDistinct | geodataset/utils.py:16-23 | the six templates have distinct literals |
| DateTemplates.TemplateRoundTrip | geodataset/utils.py:16-40 | a valid date written with any template parses back to the date under that template |
| TimeUtils.GetTimeName | geodataset/utils.py:59-76 | the time name is the first candidate that is a dimension; None iff none is |
| TimeUtils.NormaliseUnit | geodataset/utils.py:29-32 | the unit is the first word stripped of 's', or 'second' |
| TimeUtils.UnitWords | geodataset/utils.py:29-32 | 'seconds', 'hours', 'days' become 'second', 'hour', 'day' |
| TimeUtils.SecondsStrip | geodataset/utils.py:30-32 | stripping 's' from 'second(s)' leaves 'econd', hence the repair |
| TimeUtils.UnitIdempotent | geodataset/utils.py:29-49 | normalising the unit written back into the unit string gives the same unit |
| TimeUtils.ReferenceDate | geodataset/utils.py:35-36 | the reference date fails (IndexError) iff the units give fewer than four tokens |
| TimeUtils.FirstParse | geodataset/utils.py:37-44 | the date found is valid |
| TimeUtils.FirstParseSpec | geodataset/utils.py:37-47 | the date is the parse of the earliest accepting template; none iff no template accepts |
| TimeUtils.Calendar | geodataset/utils.py:51-54 | the calendar is passed iff the variable declares one, and is that value |
| TimeUtils.GetTimeConverter | geodataset/utils.py:6-56 | `get_time_converter` yields `TimeConverter(time)` |
| TimeUtils.ParseReference | geodataset/utils.py:37-44 | the loop over the templates yields what the first template that parses the date gives |
| TimeUtils.TimeConverter | geodataset/utils.py:6-56 | no `units` attribute gives AttributeError; a converter has a units text with at least one word, a valid origin, the calendar the variable declares, and the unit string written from its unit and origin |
| TimeUtils.UnitsText | geodataset/utils.py:25-26 | the units text exists iff the variable has a textual `units` attribute, and it is that text; a missing one gives AttributeError |
| TimeUtils.ConverterOrigin | geodataset/utils.py:38-47 | the origin is read by the first template that accepts the date, no earlier one accepting it |
| TimeUtils.ConverterRejects | geodataset/utils.py:46-47 | ValueError iff no template accepts the reference date |
| TimeUtils.HalfWord | geodataset/utils.py:49 | the written date and time are single words without 'T' or 'Z' |
| TimeUtils.DashedWord | geodataset/utils.py:49 | directives separated by dashes are written as one word without 'T' or 'Z' |
| TimeUtils.InitFormatHalves | geodataset/utils.py:49 | the reference date is written as its date part, a space and its time part |
| TimeUtils.InitStringWords | geodataset/utils.py:49 | the converter's unit string is the unit, 'since', the date and the time joined by spaces |
| TimeUtils.InitStringParts | geodataset/utils.py:49 | the converter's unit string splits into its four words and its reference date is the last template's |
| TimeUtils.InitStringSplit | geodataset/utils.py:49 | the converter's unit string splits into its four words and has no 'T' or 'Z' |
| TimeUtils.DashedHalves | geodataset/utils.py:22 | the last template writes the date part, 'T', the time part |
| TimeUtils.DashedFirstParse | geodataset/utils.py:22 | a date the last template writes is read back by that template, no earlier one accepting it |
| TimeUtils.ConverterUnitWord | geodataset/utils.py:29-32 | the unit a converter keeps is a word |
| TimeUtils.UnitChars | geodataset/utils.py:29-32 | normalising a word yields no whitespace |
| TimeUtils.ConverterIdempotent | geodataset/utils.py:6-56 | reading a converter's own unit string again gives the same converter |
| TimeUtils.TemplateUnits | geodataset/utils.py:25-56 | four-word units whose date and time a template writes for `d` give a converter with origin `d` |
| TimeUtils.FourWords | geodataset/utils.py:26 | four words joined by spaces split back into the four words |
| TimeUtils.TemplateFirstParse | geodataset/utils.py:38-44 | a date written by template k is read back as the same date by the template loop |
| TimeUtils.CompactUnits | geodataset/tests/test_utils.py:22-30 | 'hours since 19500101 000000' gives origin 1950-01-01, unit string 'hours since 1950-01-01 00-00-00' and units 'hours' |
| TimeUtils.InitStringHalves | geodataset/utils.py:49 | the unit string is '<unit>s since <date> <time>' |
| TimeUtils.NoTemplateReads | geodataset/utils.py:38-44 | a date whose separators are no template's literals parses under no template |
| TimeUtils.UnknownFormatUnits | geodataset/utils.py:46-47 | such units are refused with 'Unknown format of time in' and the units |
| TimeUtils.NoDateUnits | geodataset/tests/test_utils.py:31-33 | 'bla bla bla bla' raises ValueError |
| Timeline.OrdinalWithinYear | geodataset/geo_dataset.py:147 | a date's day ordinal lies within its year |
| Timeline.SecondsMonotone | geodataset/geo_dataset.py:147 | seconds since the epoch increase strictly in date order |
| Timeline.YearStep | geodataset/geo_dataset.py:147 | each year adds its own length, 365 or 366 days, to the day count |
| Timeline.YearsIncrease | geodataset/geo_dataset.py:147 | later years start at least 365 days per year later |
| Timeline.MonthsIncrease | geodataset/geo_dataset.py:147 | later months start at least 28 days per month later |
| Timeline.YearsApart | geodataset/geo_dataset.py:147 | a date in an earlier year has a smaller day ordinal |
| Timeline.MonthsApart | geodataset/geo_dataset.py:147 | a date in an earlier month of the same year has a smaller day ordinal |
| Timeline.EarlierDay | geodataset/geo_dataset.py:147 | a date on an earlier day is fewer seconds from the origin, whatever its time of day |
| Timeline.SecondsInjective | geodataset/geo_dataset.py:167 | two valid dates with the same second count are equal |
| Timeline.FirstClosest | geodataset/geo_dataset.py:167 | `min(key=...)` returns an element with the least key, before which every key is larger |
| Timeline.IndexOf | geodataset/geo_dataset.py:168 | `list.index(x)` is the first position holding `x` |
| Timeline.Nearest | geodataset/geo_dataset.py:160-169 | fails (ValueError from `min`) iff there are no records |
| Timeline.NearestIsFirstClosest | geodataset/geo_dataset.py:167-168 | the index holds the date returned, no record is closer, and every earlier record is farther |
| Timeline.NearestInSeconds | geodataset/geo_dataset.py:160-169 | with the distance in seconds: the record returned is at the index returned, no record is closer and every earlier one is farther |
| Variables.SearchGroups | geodataset/variable.py:29-33 | a name found through the alias groups is a variable of the file |
| Variables.ExchangeNames | geodataset/variable.py:4-35 | the name returned is a variable; failure is ValueError '<name> not in variable list' |
| Variables.SearchGroupsPresent | geodataset/variable.py:29-33 | the search fails iff no group of the name has a present member, and otherwise answers from the first such group |
| Variables.ExchangePresent | geodataset/variable.py:6-7 | a name that is a variable is its own answer |
| Variables.GroupsDisjoint | geodataset/variable.py:9-27 | no name lies in two alias groups |
| Variables.ExchangeAlias | geodataset/variable.py:29-35 | an absent name resolves to the first present name of its group, or fails when none is present |
| Variables.ExchangeFails | geodataset/variable.py:4-35 | ValueError iff the name is absent and no name of its group is present |
| Variables.SameGroupSameAnswer | geodataset/variable.py:29-33 | two absent names of one group resolve alike |
| Variables.IceConcAliases | geodataset/variable.py:12-15 | with 'ice_conc' present and 'ficem', 'fice' absent, every absent ice-concentration alias resolves to 'ice_conc' |
| Variables.ExtremeBounds | geodataset/variable.py:87-91 | NaN propagates; otherwise min/max is an element bounding every element |
| Variables.Unmasked | geodataset/variable.py:87-91 | the visible values are values of the array |
| Variables.UnmaskedAll | geodataset/variable.py:87-91 | with nothing masked every value is visible |
| Variables.CombinedMask | geodataset/variable.py:60-81 | the mask has the values' shape |
| Variables.MaskRule | geodataset/variable.py:60-81 | a cell is masked iff already masked (or non-finite for plain input) or masked by `mask_in` |
| Variables.AssignedKeys | geodataset/variable.py:52-55 | the attributes set after n steps are exactly the first n names |
| Variables.AssignedLast | geodataset/variable.py:52-55 | a name not listed again keeps the value paired with it |
| Variables.AssignedValues | geodataset/variable.py:52-55 | every listed attribute is set, to the value of its last occurrence, and nothing else |
| Variables.VarObject.Empty | geodataset/variable.py:50 | a new object has no attributes |
| Variables.VarObject.SetExtraAttributes | geodataset/variable.py:52-55 | the attributes are set in order; IndexError iff the values run out; nothing else changes |
| Variables.VarObject.Create | geodataset/variable.py:50-81 | shape, values, combined mask and attributes of the object; fails iff the attribute values run out |
| Variables.VarObject.Min | geodataset/variable.py:87-88 | None iff every cell is masked; otherwise NaN exactly when a visible value is NaN, and else the least visible value |
| Variables.VarObject.Max | geodataset/variable.py:90-91 | None iff every cell is masked; otherwise NaN exactly when a visible value is NaN, and else the greatest visible value |
| Variables.FlattenLength | geodataset/variable.py:69 | arrays of one shape flatten to equal lengths |
| Areas.CellAt | geodataset/area_definitions.py:26-27 | reading a corner cell fails only with IndexError |
| Areas.CornersOf | geodataset/area_definitions.py:21-34 | the corners exist iff the four corner cells can be read and are finite; they are the projections of the lower-left and upper-right cells; failure is IndexError or NonFinite |
| Areas.HalfCellExtent | geodataset/area_definitions.py:66-77 | the extent fails (NonFinite) exactly when an axis has one cell |
| Areas.Build | geodataset/area_definitions.py:10-77 | no `proj4_string` gives AttributeError; an area is built only by the half-cell rule, from readable corners and shape, with the id 'id for <class> object', the class's projection and the grid shape (y size, x size) |
| Areas.GridShape | geodataset/area_definitions.py:36-41 | the shape is (y size, x size); it fails iff a dimension is missing |
| Areas.CustomAreaDefinition.Init | geodataset/area_definitions.py:10-11 | the object holds its class settings and path, no step run yet |
| Areas.CustomAreaDefinition.SetCornerCoordinates | geodataset/area_definitions.py:21-34 | the corners become the projected corner cells, or the step fails with their error and nothing else changes |
| Areas.CustomAreaDefinition.SetShape | geodataset/area_definitions.py:36-41 | the shape and cell counts become the grid's, or the step fails with KeyError |
| Areas.CustomAreaDefinition.HalfCell | geodataset/area_definitions.py:66-77 | the extent becomes the half-cell extent of the corners; a one-cell axis fails |
| Areas.CustomAreaDefinition.SetExtentStep | geodataset/area_definitions.py:49-77 | `_set_extent` as the class defines it: NotImplementedError, the half-cell extent, or AttributeError |
| Areas.CustomAreaDefinition.CalculateCornerAndExtent | regridder/formats/mooring.py:26-37 | the regridder's extent computation gives the same extent as Moorings' `_set_extent` |
| Areas.CustomAreaDefinition.SetAreaIdStep | geodataset/area_definitions.py:43-44 | the id is 'id for <class> object' and nothing else changes |
| Areas.CustomAreaDefinition.CreateArea | geodataset/area_definitions.py:15-19 | the four steps run in order and stop at the first that raises; the area is `Build`'s |
| Areas.CustomAreaDefinition.Create | geodataset/area_definitions.py:10-13 | construction succeeds iff `Build` does, and `get_area()` is then `Build`'s area |
| Areas.ExtentSpans | geodataset/area_definitions.py:66-77 | spans are whole multiples of the cell sizes; the x edges lie n cells apart, the y edges a cell less than the height |
| Areas.ExtentFails | geodataset/area_definitions.py:70-71 | the extent fails iff an axis has one cell |
| Areas.CornerPlacement | geodataset/area_definitions.py:66-77 | the x edges lie outside the corner pixel centres, the y edges inside them (towards the other corner) whichever way y runs |
| Areas.MooringsCorners | geodataset/area_definitions.py:58-63 | Moorings' corners are the last row's first cell and the first row's last cell |
| Areas.MooringsCornersProjected | geodataset/area_definitions.py:21-34 | with finite corner cells the corners are the projected cells, lower left first |
| Areas.MooringsBuild | geodataset/area_definitions.py:10-77 | a Moorings area is built iff corners and shape are readable and neither axis has one cell, with the grid's shape, id and extent |
| Areas.MooringsIndexError | geodataset/area_definitions.py:21-34 | building raises IndexError iff the corner cells cannot be read |
| Areas.BaseNeverBuilds | geodataset/area_definitions.py:49-50 | a class keeping the base `_set_extent` never yields an area |
| Areas.RegridderMooringsNeverBuilds | regridder/formats/mooring.py:11-23 | the regridder's Moorings area definition always raises AttributeError for `proj4_string` |
| GeoDatasets.CfLoadArea | geodataset/geo_dataset.py:17-22 | ValueError from `load_cf_area` becomes BadAreaDefinition; other outcomes pass through |
| GeoDatasets.RoundHalfEven | geodataset/geo_dataset.py:139 | `round` is within a half, ties going to even |
| GeoDatasets.Rounded | geodataset/geo_dataset.py:139 | `round(float(tval))` succeeds iff the value is finite, giving the rounded value |
| GeoDatasets.ConvertValue | geodataset/geo_dataset.py:130-141 | a converted record is a valid date |
| GeoDatasets.Datetimes | geodataset/geo_dataset.py:130-142 | one valid record per value |
| GeoDatasets.DatetimesMapAll | geodataset/geo_dataset.py:130-142 | the record loop applies the one-value conversion to each value in order, stopping at the first failure |
| GeoDatasets.DatetimesPointwise | geodataset/geo_dataset.py:130-142 | record i of a completed loop is the conversion of value i |
| GeoDatasets.DatetimesFirstFailure | geodataset/geo_dataset.py:134-141 | a failed loop fails with the error of the first value that cannot be converted, every earlier value converting |
| GeoDatasets.DatetimesSucceeds | geodataset/geo_dataset.py:130-142 | the loop completes iff every value converts |
| GeoDatasets.DatetimesFailedPrefix | geodataset/geo_dataset.py:130-142 | once a prefix of the values fails, the values after it change nothing |
| GeoDatasets.FormatRoundTrip | geodataset/geo_dataset.py:135-141 | a valid date written by `strftime(fmt)` is read back by `strptime(cdate, fmt)` as the same date |
| GeoDatasets.Strftime | geodataset/geo_dataset.py:135 | `strftime` writes exactly the dates whose fields fit their widths, and every valid date among them |
| GeoDatasets.TimeValuesSnoc | geodataset/geo_dataset.py:147-156 | one more record extends the offsets by its own offset when its unit is known |
| GeoDatasets.ConvertValid | geodataset/geo_dataset.py:135-141 | a valid date survives the strftime/strptime round trip |
| GeoDatasets.ConvertRetry | geodataset/geo_dataset.py:134-140 | on ValueError the value is rounded half to even and converted again |
| GeoDatasets.ConvertPropagates | geodataset/geo_dataset.py:134-136 | other errors are not retried |
| GeoDatasets.ConvertNaN | geodataset/geo_dataset.py:139 | a NaN that fails is not rescued by the retry (ValueError) |
| GeoDatasets.TimeValuesOffsets | geodataset/geo_dataset.py:147-156 | for seconds, hours, days: one offset per record, in hours or days from the first record |
| GeoDatasets.TimeValuesUnknownUnit | geodataset/geo_dataset.py:148-156 | other units give no offsets |
| GeoDatasets.TimeAxis | geodataset/geo_dataset.py:104-158 | no records iff no time dimension; otherwise one record per row of the time variable's first axis, `reftime` the first and the count their number |
| GeoDatasets.HourOffsets | geodataset/geo_dataset.py:147-153 | with hours or seconds the offsets are hours from the first record, the first being 0 and the unit 'hour' |
| GeoDatasets.DayOffsets | geodataset/geo_dataset.py:154-156 | with days the offsets are days from the first record and the unit 'day' |
| GeoDatasets.Unpack | geodataset/geo_dataset.py:52-53 | unpacking `ij_range` fails (ValueError) iff it does not hold four bounds |
| GeoDatasets.Window | geodataset/geo_dataset.py:59-63 | a window keeps the rank, and without `ij_range` it is the whole array |
| GeoDatasets.Selected | geodataset/geo_dataset.py:56-97 | what `get_var` reads is a regular array |
| GeoDatasets.ReadVar | geodataset/geo_dataset.py:24-102 | a read resolves the name and unpacks `ij_range`, needs rank 1 to 4, and gives regular arrays of values and mask |
| GeoDatasets.EffectiveTimeIndex | geodataset/geo_dataset.py:65-68 | a given time index is kept; without one, only a rank 3 or 4 variable with a single record reads record 0 |
| GeoDatasets.ReportedDims | geodataset/geo_dataset.py:79-97 | the reported dimensions are the variable's own, always keep the last two, and drop one axis per index applied |
| GeoDatasets.RankBranches | geodataset/geo_dataset.py:65-97 | the rank branches of `get_var` yield the effective time index and the reported dimensions |
| GeoDatasets.WindowSameShape | geodataset/geo_dataset.py:59-63 | a window depends only on the array's shape |
| GeoDatasets.SelectedSameShape | geodataset/geo_dataset.py:56-97 | data and mask of one shape are selected alike |
| GeoDatasets.SelectedShape | geodataset/geo_dataset.py:56-97 | without `ij_range` the values keep the axes that are not indexed |
| GeoDatasets.DimsMatchValues | geodataset/geo_dataset.py:48-101 | the reported dimensions name the axes of the values read, with the axes' lengths |
| GeoDatasets.SingleRecordDefault | geodataset/geo_dataset.py:65-97 | rank 3 and 4 variables with one record read record 0 and drop the time axis from `dimensions` |
| GeoDatasets.NoTimeIndexDims | geodataset/geo_dataset.py:65-97 | with several records and no index, rank 3 keeps every dimension and rank 4 drops only depth |
| GeoDatasets.DimensionsAttribute | geodataset/geo_dataset.py:100-102 | the `dimensions` attribute is the reported dimensions, whatever the variable's own attributes |
| GeoDatasets.GatherAttributes | geodataset/geo_dataset.py:99 | the attribute values are `getattr` of each attribute name, in order |
| GeoDatasets.SelectedRank | geodataset/geo_dataset.py:56-97 | one reported dimension per axis of what is selected |
| GeoDatasets.ReportedLengths | geodataset/geo_dataset.py:56-97 | without `ij_range` each reported dimension is declared with the length of its axis in what is selected |
| GeoDatasets.AppendOffset | geodataset/geo_dataset.py:147-156 | the offset is appended in hours for 'seconds' and 'hours', in days for 'days', with the matching unit; other units append nothing |
| GeoDatasets.ConvertedNone | geodataset/geo_dataset.py:125-127 | before the loop there are no records, offsets, unit or reference record |
| GeoDatasets.ConvertedStep | geodataset/geo_dataset.py:130-156 | a value that converts appends its record; the first becomes `reftime`; its offset from `reftime` is appended when the unit is known |
| GeoDatasets.ConvertedStops | geodataset/geo_dataset.py:134-141 | a value that cannot be converted ends the loop with its error |
| GeoDatasets.ConvertedAll | geodataset/geo_dataset.py:125-158 | after the last value the loop holds `Records(arr)`: every record, the offsets from the first, their unit and the first |
| GeoDatasets.ConvertNext | geodataset/geo_dataset.py:130-156 | one pass either fails with the loop's error or keeps the loop's invariant for one more value |
| GeoDatasets.ConvertRecords | geodataset/geo_dataset.py:125-158 | the record loop yields `Records(arr)`: the error of the first value that cannot be converted, or every record with its offset from the first, the offsets' unit and the first record |
| GeoDatasets.Records | geodataset/geo_dataset.py:125-158 | the loop completes iff every value converts; it gives one record per value, and a reference record exactly when there are values |
| GeoDatasets.TimeRows | geodataset/geo_dataset.py:124-131 | iterating the time array succeeds iff it is at least one-dimensional and its rows are scalars; the rows are then its values in order |
| GeoDatasets.TimeRowsByRank | geodataset/geo_dataset.py:124-140 | a scalar time variable gives TypeError; rank 1 gives one row per value; rank two or more gives no rows when the first axis is empty and AttributeError otherwise |
| GeoDatasets.TimeInfoOf | geodataset/geo_dataset.py:104-158 | every record of the time attributes is a valid date |
| GeoDatasets.TimeInfoOfAxis | geodataset/geo_dataset.py:111-158 | the time attributes of a file are those of the records converted from its time variable's rows |
| GeoDatasets.GeoDataset.Init | geodataset/geo_dataset.py:12-13 | a new object has its path and area and no time axis |
| GeoDatasets.GeoDataset.SetTimeInfo | geodataset/geo_dataset.py:104-158 | the time attributes become `TimeInfoOf(file)` and `datetimes` exists from then on, or the error is its error |
| GeoDatasets.GeoDataset.Open | geodataset/geo_dataset.py:12-15 | `_load_area` first, then `_set_time_info`; the object holds both results; the regridder's copy (`regridder/formats/geodataset.py:12-15`) loads the area only, so its object has no `datetimes` |
| GeoDatasets.GeoDataset.GetVar | geodataset/geo_dataset.py:24-102 | `get_var` fails iff `ReadVar` does; the object holds the values, mask and `dimensions` read |
| GeoDatasets.GeoDataset.NearestDate | geodataset/geo_dataset.py:160-169 | AttributeError('datetimes') when `_set_time_info` never ran (the regridder's copy, regridder/formats/geodataset.py:160-169); TypeError without a time axis; ValueError for no records; otherwise the first closest record and its index |
| Datasets.IsLonLatDim | geodataset/geodataset.py:63-71 | TypeError without lon/lat names; otherwise whether the longitude name is a dimension |
| Datasets.ConvertTimeData | geodataset/geodataset.py:44-61 | KeyError without units; otherwise the shape is kept and each cell is `num2date` of its cell with the calendar or 'standard' |
| Datasets.ConvertTimeDataFails | geodataset/geodataset.py:60 | a value `num2date` rejects fails the conversion |
| Datasets.DatetimesOf | geodataset/geodataset.py:100-110 | [] without a time name; KeyError when the time variable is missing |
| Datasets.DatetimesOfRecords | geodataset/geodataset.py:100-110 | a one-dimensional time variable gives its values converted one by one, in order |
| Datasets.GetNearestDateIsClosest | geodataset/geodataset.py:112-130 | the index holds the date returned, no record is closer, and every earlier record is farther |
| Datasets.GetNearestDate | geodataset/geodataset.py:112-130 | the records' error is passed on; otherwise it fails iff there are no records |
| Datasets.NearestDateWithoutTime | geodataset/geodataset.py:128 | without a time name `min` of the empty list raises ValueError |
| Datasets.CheckInputFile | geodataset/custom_geodataset.py:13-17 | the basename must start with the prefix and end with the suffix, else InvalidDatasetError; a None prefix gives TypeError |
| Datasets.CheckIgnoresDirectory | geodataset/custom_geodataset.py:14 | the directory never changes the check's outcome |
| Datasets.LastNamed | geodataset/geodataset.py:331-336 | the name kept is the last variable so far with that standard name; None iff there is none |
| Datasets.LonLatFromSound | geodataset/geodataset.py:326-339 | names returned are variables with standard names 'longitude' and 'latitude'; failure is InvalidDatasetError |
| Datasets.LonLatFromFinds | geodataset/geodataset.py:337-338 | once both names are set the scan returns |
| Datasets.LonLatFromMisses | geodataset/geodataset.py:339 | the scan fails while one standard name is missing from the file |
| Datasets.LonLatNamesComplete | geodataset/geodataset.py:326-339 | with non-empty names: found iff some variable is 'longitude' and some is 'latitude' |
| Datasets.LonLatNames | geodataset/geodataset.py:326-339 | the names found are variables with standard names 'longitude' and 'latitude'; failure is InvalidDatasetError |
| Datasets.Without | geodataset/geodataset.py:341-357 | the names kept are exactly the listed names that are not excluded |
| Datasets.RemoveFirst | geodataset/geodataset.py:356 | `list.remove` drops one element |
| Datasets.WithoutAbsent | geodataset/geodataset.py:355 | excluding a name not in the list changes nothing |
| Datasets.RemoveWithout | geodataset/geodataset.py:354-356 | removing a remaining name from a duplicate-free list excludes it |
| Datasets.RemoveStep | geodataset/geodataset.py:354-356 | one step of the removal loop, removing a present name or skipping an absent one, excludes that name |
| Datasets.RemoveAll | geodataset/geodataset.py:354-357 | the removal loop over the bad names leaves exactly the names not among them, in order |
| Datasets.ListKeys | geodataset/geodataset.py:350-351 | `list(d.keys())` lists exactly the keys |
| Datasets.AreaDefinitionOf | geodataset/geodataset.py:359-363 | success leaves no area (no return); any failure is TypeError |
| Datasets.VariableArray | geodataset/geodataset.py:365-371 | IndexError iff the variable is missing or the time index is out of range; without a time axis the data unchanged |
| Datasets.VariableArrayAxes | geodataset/geodataset.py:368-370 | each axis of the result is the variable's axis of that name, with only the time axis taken out |
| Datasets.VariableArrayCells | geodataset/geodataset.py:368-370 | with a time axis, cell idx of the result is the variable's cell with the time position inserted, a negative index counting from the end |
| Datasets.LonLatArrays | geodataset/geodataset.py:373-375 | IndexError when a lon/lat variable is missing; without a time axis the data itself |
| Datasets.TypeConverter | geodataset/geodataset.py:274 | only 'f4' and 'f8' are known; any other dtype is KeyError |
| Datasets.GeoDatasetWrite.Init | geodataset/geodataset.py:136-164 | the writer's neXtSIM Moorings defaults |
| Datasets.GeoDatasetWrite.ArcMfc | geodataset/custom_geodataset.py:77-94 | the writer defaults with the ArcMFC projection names |
| Datasets.GeoDatasetWrite.VariableAttributes | geodataset/geodataset.py:256-286 | AttributeError without a logger, KeyError for dtype, cast errors in order; else `_FillValue` moved to the fill value, `missing_value` cast, `grid_mapping` added, other attributes kept |
| Datasets.GeoDatasetWrite.TimeAttributes | geodataset/geodataset.py:182-212 | KeyError iff no units; the time attributes plus a calendar defaulting to 'standard'; `time_bnds` gets only the units |
| Datasets.ArcMfcGridMapping | geodataset/custom_geodataset.py:74-94 | the ArcMFC writer names 'stereographic' as grid mapping of every variable written |
| Datasets.FreshWriterCannotSetVariable | geodataset/geodataset.py:273 | a writer as constructed cannot write a variable: AttributeError |
| Datasets.GeoDatasetRead.Init | geodataset/geodataset.py:315-324 | the reader's defaults and the names and area looked up |
| Datasets.GeoDatasetRead.FindLonLatNames | geodataset/geodataset.py:326-339 | the scanning loop returns `LonLatNames(file)` |
| Datasets.GeoDatasetRead.FindVariableNames | geodataset/geodataset.py:341-357 | the variables in order less the dimension names, projection names and 'time_bnds' |
| Datasets.GeoDatasetRead.Open | geodataset/geodataset.py:292-324 | the file check first; then InvalidDatasetError without lon/lat names, TypeError from the area; on success every field set |
| CustomDatasets.AbstractClassesOpenNothing | geodataset/custom_geodataset.py:10-17 | classes without a prefix reject every file with TypeError |
| CustomDatasets.ConcreteCheck | geodataset/custom_geodataset.py:13-17 | a concrete class accepts exactly the basenames with its prefix and suffix, anywhere |
| CustomDatasets.PrefixesAgree | geodataset/custom_geodataset.py:15 | two prefixes of one name agree where both are defined |
| CustomDatasets.Mismatch | geodataset/custom_geodataset.py:20-63 | two different concrete classes' prefixes differ at a common position |
| CustomDatasets.AtMostOneClassAccepts | geodataset/custom_geodataset.py:20-63 | no file name passes the checks of two different concrete classes |
| CustomDatasets.JaxaAcceptsItsFiles | geodataset/custom_geodataset.py:48-51 | 'Arc_<date>_res3.125_pyres.nc' is accepted in any directory |
| CustomDatasets.Dist2CoastAcceptsItsFile | geodataset/custom_geodataset.py:20-21 | 'dist2coast_4deg.nc' is accepted in any directory |
| CustomDatasets.PlainNameAccepted | geodataset/custom_geodataset.py:13-17 | a name without '/' that has the class's prefix and suffix is accepted in any directory |
| CustomDatasets.OpenCustom | geodataset/custom_geodataset.py:10-71 | abstract classes give TypeError, a wrong name InvalidDatasetError; SmosIceThickness has no area and opens iff lon/lat names are found |
| Readers.Translated | geodataset/nextsim_moorings.py:12-15 | IndexError becomes BadAreaDefinition; anything else passes |
| Readers.HelperArea | geodataset/nextsim_moorings.py:13-16 | other helpers are foreign; the Moorings helper's area has its id, its projection and the (y, x) grid shape |
| Readers.LoadArea | geodataset/nextsim_moorings.py:9-17 | `_load_area` for each kind of class: CF loader, guarded helper, customized helper, regridder Moorings |
| Readers.LoadAreaRegridderMoorings | regridder/formats/mooring.py:5-8 | the regridder's Moorings loader yields exactly what its area configuration builds to |
| Readers.Outcome | geodataset/geo_dataset.py:12-15 | construction fails with the area's error, then with the time axis's, else succeeds |
| Readers.Construct | geodataset/geo_dataset.py:12-15 | `Class(file_path)` succeeds iff `Outcome` does, holding the area and the time axis; `datetimes` exists iff the class sets its time axis |
| Readers.GuardedLoadArea | geodataset/nextsim_moorings.py:9-17 | the guard on the file's own name, then the helper with IndexError translated |
| Readers.MooringsLoadArea | geodataset/nextsim_moorings.py:9-17 | names not starting with 'Moorings' are refused; unreadable corners give BadAreaDefinition |
| Readers.Topaz4ArcLoadArea | geodataset/topaz4_arc.py:9-17 | 'topaz4-ARC' anywhere in the name reaches the helper |
| Readers.Amsr2IceConcLoadArea | geodataset/amsr2_ice_conc.py:9-17 | only names starting with 'Arc_20' reach the helper |
| Readers.AsrFinalLoadArea | geodataset/asrfinal.py:9-17 | only names starting with 'asr30km' reach the helper |
| Readers.MetnoArcSvalbardLoadArea | geodataset/metno_arc_l4.py:9-17 | only names starting with 'ice_conc_svalbard_' reach the helper |
| Readers.ContainsPrefix | geodataset/topaz4_arc.py:10 | a substring stays a substring of any extension |
| Readers.CheckValidClass | geodataset/customized_geo_dataset.py:20-26 | Ok iff each truthy setting holds of the basename, else BadAreaDefinition |
| Readers.CheckValidClassIgnoresDirectory | geodataset/customized_geo_dataset.py:23-25 | only the file's own name is checked |
| Readers.BathymetryAcceptsAll | geodataset/customized_geo_dataset.py:66-69 | Bathymetry's falsy settings accept every file |
| Readers.CustomizedIgnoresName | geodataset/customized_geo_dataset.py:14-18 | customized classes never consult the file name |
| Readers.CustomizedMooringsKeepsIndexError | geodataset/customized_geo_dataset.py:51-55 | the customized Moorings passes IndexError on where nextsim_moorings' class turns it into BadAreaDefinition |
| Dispatch.MessageNamesFile | geodataset/tools.py:19 | the final ValueError names the file |
| Dispatch.Attempts | geodataset/tools.py:10-16 | one outcome per class, in order |
| Dispatch.FirstFrom | geodataset/tools.py:11-19 | the class returned is among those not yet tried |
| Dispatch.FirstSuccess | geodataset/tools.py:11-19 | the class returned is one of the list |
| Dispatch.FirstFromSpec | geodataset/tools.py:9-19 | the class returned succeeded after only BadAreaDefinition; otherwise the final ValueError, or the first other exception |
| Dispatch.OpenNetcdf | geodataset/tools.py:9-19 | the loop returns the first object constructed, having tried no later class (`area_definition.py:5-15` runs the same loop over GeoDataset and Moorings) |
| Dispatch.LastFrom | regridder/selector.py:15-23 | the class kept is one of the list |
| Dispatch.LastSuccess | regridder/selector.py:13-23 | the class kept is one of the list |
| Dispatch.LastFromSpec | regridder/selector.py:13-23 | an object only when nothing but BadAreaDefinition was raised, and then the last that succeeded |
| Dispatch.LastFromEscapes | regridder/selector.py:15-23 | an exception other than BadAreaDefinition ends the loop with the first such exception |
| Dispatch.Classify | regridder/selector.py:13-23 | the loop keeps the last object constructed; any other exception escapes |
| Dispatch.FirstAndLastDiverge | regridder/selector.py:15-21 | with two classes that succeed, `open_netcdf` keeps the first and `classify` the second |
| Dispatch.SameVerdict | regridder/selector.py:13-23 | with only BadAreaDefinition raised both dispatchers find an object on the same files, `classify`'s no earlier |
| Dispatch.FirstFoundOk | geodataset/tools.py:11-16 | a success reached through BadAreaDefinition only is found |
| Dispatch.GeoDatasetComesFirst | geodataset/tools.py:10 | a file GeoDataset reads is always opened as a GeoDataset |
| Dispatch.IndexErrorStopsTools | geodataset/tools.py:10-15 | a Moorings file with unreadable corners stops tools.py with IndexError; area_definition.py ends with ValueError |
| Dispatch.ToolsStopAtMoorings | geodataset/tools.py:10-15 | after GeoDataset refuses, the Moorings class's IndexError escapes `open_netcdf` |
| Dispatch.AreaDefinitionsSkipMoorings | geodataset/area_definition.py:5-15 | both classes refusing, `area_definition.py` ends with the ValueError naming the file |
| Dispatch.ClassifyAlwaysRaises | regridder/selector.py:14-23 | `classify` never returns an object |

## Left out

- **I/O and foreign calls are parameters.** Opening, reading and writing netCDF files, and
  netCDF4's own masking, are outside the model. A file is the value `NcFile`. `load_cf_area`,
  pyproj, `netcdftime.num2date` and the numpy casts are parameters. The area helpers
  other than `MooringsAreaDefinition` are `World.helpers`: `area_definitions.py` does not
  define them.
- **Names that do not resolve are modelled as if they did.** `nextsim_moorings.py` imports
  `GeoDataset` from `geodataset.geodataset`, which does not define it. `tools.py` imports
  `ETOPOArctic` and `Dist2Coast` from `customized_geo_dataset.py`, which does not define them
  either. `geodataset.py:11` and `custom_geodataset.py:8` import `InvalidDatasetError` from
  `geodataset.utils`, which defines only `get_time_converter`, `get_time_name` and
  `BadAreaDefinition`. The model treats these names as if they resolve, so the loaders of
  `ETOPOArctic` and `Dist2Coast` are foreign, and `InvalidDatasetError` is one of the errors
  of `Outcomes.Error`. Without that, these modules would raise ImportError.
- **Writer methods.** `GeoDatasetWrite.set_projection_variable`, `set_xy_dims` and
  `set_lonlat` write to the file with no logic of their own. `set_variable` and
  `set_time_variables_dimensions` are modelled only up to the attributes they compute.
- **Methods that need pyproj.** `get_xy_dims_from_lonlat` needs pyproj. So do the
  `get_lonlat_arrays` overrides (meshgrid, inverse projection) in `custom_geodataset.py`.
- **`projection_info.ProjectionInfo`** is not part of this model.
- **Class attributes that are never read.** The `lonlat_names` class attributes of the custom
  classes are overwritten by `_get_lonlat_names` in `__init__`, so they are not modelled.
- **Numbers and calendars.**
  - Floats are reals plus NaN and infinities, with no rounding.
  - Dates are proleptic Gregorian with whole seconds. `netcdftime`'s other calendars and its
    microseconds are not modelled.
  - The model's `strftime` pads `%Y` to four digits. Where the C library leaves `%Y`
    unpadded, a year below 1000 renders with fewer digits and the read-back `strptime`
    (`geo_dataset.py:141`) raises ValueError; the model does not cover that.
  - `strptime` covers only the directives the core uses, on ASCII digits.
- **`str.lower`** is modelled on ASCII letters only.
- **Moorings extent on a one-cell axis.** numpy divides by zero there and continues with
  inf/nan. The model reports it as the error `NonFinite` instead.
- **utime validation.** netcdftime's checks on the unit string handed to `utime` are not
  modelled.
- Datasets.ConvertTimeData: iterating `tdata` walks its first axis only, and the model
  converts every cell. The two agree for the one-dimensional time variables the readers pass.
  (`GeoDatasets.TimeInfoOf` does walk the first axis; see `GeoDatasets.TimeRows`.)
- GeoDatasets.TimeRows: for a time variable of rank two or more, the first row is handed to
  `num2date` whole. The model takes the AttributeError of the `strftime` that follows. An
  error that `num2date` itself raises on such a row, and the retry it would trigger, are not
  modelled.
- Datasets.VariableArray: returns the data only; the mask netCDF4 applies on read is not
  carried.
- Datasets.LonLatArrays: the same.
- Variables.VarObject.SetExtraAttributes: `setattr` writes the extra attributes onto the
  object itself. The model keeps them in a separate `attributes` map, so two name clashes
  are not modelled. First, an attribute named `shape`, `ndim` or `values` is overwritten by
  the object's own field (`variable.py:57-81`); the model keeps the attribute's value.
  Second, one named `min` or `max` hides the method, so that `vbl.min()` raises TypeError;
  the model's `Min` and `Max` are unaffected.
- Variables.VarObject.Create: the same two name clashes, for the attributes it is given.
- Variables.VarObject.Min: a fully masked array gives None (numpy's `masked`), and the
  masked array's fill value and dtype are not modelled.
- Variables.VarObject.Max: the same.
- Areas.CustomAreaDefinition.GetArea: `AreaDefinition.from_extent` is modelled as a record
  of id, projection string, shape and extent. pyresample's own checks are not modelled.
- Areas.CornersOf: a NaN or infinite longitude or latitude at a corner gives the error
  `NonFinite`. The code hands it to pyproj and carries on with a non-finite extent.
  Arithmetic on non-finite floats is not modelled.
- Areas.CustomAreaDefinition.SetCornerCoordinates: the same, since it reads the corners
  through `Areas.CornersOf`.
- Areas.CellAt: a longitude or latitude variable whose rank is not 2 gives IndexError. For
  rank 3 or more, netCDF4's `[[ll_row, ur_row], [ll_col, ur_col]]` indexing returns a block
  instead, and any failure happens later, in pyproj or pyresample. That path is not
  modelled.
- TimeUtils.TimeConverter: the code builds the unit string (`TimeUtils.InitString`) with
  `strftime`, using a format that contains the unit word, so a `%` in the unit would be
  expanded as a directive. The model inserts the word as it is.
- TimeUtils.GetTimeConverter: the converter is a record of unit, unit string, origin and
  calendar. The conversion itself is the `num2date` parameter.
- Dispatch.OpenNetcdf: the ghost out-parameter `tried` counts the classes constructed; no
  class is constructed twice.
