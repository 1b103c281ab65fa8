/**
 * `geodataset/geodataset.py`: the netCDF4.Dataset wrappers.  `GeoDatasetBase`
 * converts the time variable and finds the nearest date; `GeoDatasetWrite`
 * derives the attribute dictionaries it writes for a variable and for the
 * time axis; `GeoDatasetRead` checks the file name, discovers the longitude,
 * latitude and data variable names, and reads one time record of a variable.
 * The writes themselves, the projection object and `load_cf_area` are
 * outside the model: `load_cf_area`'s outcome and netcdftime's `num2date`
 * are parameters.
 */
module Datasets {
  import opened Outcomes
  import opened Strings
  import opened NdArrays
  import opened NetCdf
  import opened DateTemplates
  import opened Timeline
  import opened Areas

  /** `(grid_mapping, grid_mapping_name)` the reader and the writer start with. */
  const DefaultProjectionNames := ("Polar_Stereographic_Grid", "polar_stereographic")

  const DefaultSpatialDimNames := ("x", "y")

  /** The writer's `lonlat_names`. */
  const DefaultLonLatNames := ("longitude", "latitude")

  // ---------------------------------------------------------------- GeoDatasetBase

  /** `is_lonlat_dim`: whether the longitude name is a dimension; the base class has no names, and subscripting None is a TypeError. */
  function IsLonLatDim(lonlatNames: Option<(string, string)>, dimensions: map<string, nat>): (r: Result<bool>)
    ensures r.Fail? <==> lonlatNames.None?
    ensures r.Fail? ==> r.error == TypeError
    ensures r.Ok? ==> (r.value <==> lonlatNames.value.0 in dimensions)
  {
    match lonlatNames
    case None => Fail(TypeError)
    case Some((lon, _)) => Ok(lon in dimensions)
  }

  /** netcdftime's `num2date(t, units, calendar=cal)`. */
  type Num2Date = (AttValue, AttValue, Float) -> Result<DateTime>

  function ConvertWith(num2date: Num2Date, units: AttValue, calendar: AttValue): Float -> Result<DateTime> {
    t => num2date(units, calendar, t)
  }

  /** The calendar `convert_time_data` passes: the variable's own, else 'standard'. */
  function CalendarOf(atts: map<string, AttValue>): AttValue {
    if "calendar" in atts then atts["calendar"] else Text("standard")
  }

  /** `convert_time_data(tdata)`: every value converted with the time variable's units and calendar, in the input's shape. */
  function ConvertTimeData(atts: map<string, AttValue>, tdata: NdArray<Float>, num2date: Num2Date): (r: Result<NdArray<DateTime>>)
    requires tdata.Valid()
    ensures "units" !in atts ==> r == Fail(KeyError("units"))
    ensures r.Ok? ==> r.value.Valid() && r.value.shape == tdata.shape
    ensures r.Ok? ==> forall idx :: InBounds(tdata.shape, idx) ==>
      num2date(atts["units"], CalendarOf(atts), At(tdata.cells, tdata.shape, idx)) == Ok(At(r.value.cells, tdata.shape, idx))
  {
    var cal := CalendarOf(atts);
    if "units" !in atts then Fail(KeyError("units"))
    else
      var f := ConvertWith(num2date, atts["units"], cal);
      var cells :- TryMapNd(tdata.cells, f);
      TryMapAt(tdata.cells, tdata.shape, f);
      Ok(NdArray(tdata.shape, cells))
  }

  /** A value the converter rejects fails the whole conversion. */
  lemma ConvertTimeDataFails(atts: map<string, AttValue>, tdata: NdArray<Float>, num2date: Num2Date, idx: seq<nat>)
    requires tdata.Valid() && "units" in atts && InBounds(tdata.shape, idx)
    requires num2date(atts["units"], CalendarOf(atts), At(tdata.cells, tdata.shape, idx)).Fail?
    ensures ConvertTimeData(atts, tdata, num2date).Fail?
  {
    TryMapFails(tdata.cells, tdata.shape, ConvertWith(num2date, atts["units"], CalendarOf(atts)), idx);
  }

  /** `datetimes`: [] without a time name, else the converted time variable as a list. */
  function DatetimesOf(timeName: Option<string>, file: NcFile, num2date: Num2Date): (r: Result<seq<DateTime>>)
    requires file.Valid()
    ensures timeName.None? ==> r == Ok([])
    ensures timeName.Some? && timeName.value !in file.variables ==> r == Fail(KeyError(timeName.value))
  {
    if timeName.None? then Ok([])
    else if timeName.value !in file.variables then Fail(KeyError(timeName.value))
    else
      var v := file.variables[timeName.value];
      var arr :- ConvertTimeData(v.attributes, v.data, num2date);
      Ok(Flatten(arr.cells))
  }

  /** The records of a one-dimensional time variable are its values converted one by one, in order. */
  lemma DatetimesOfRecords(timeName: string, file: NcFile, num2date: Num2Date)
    requires file.Valid() && timeName in file.variables && file.variables[timeName].Rank() == 1
    requires DatetimesOf(Some(timeName), file, num2date).Ok?
    ensures var v := file.variables[timeName];
      var dts := DatetimesOf(Some(timeName), file, num2date).value;
      (|dts| == v.data.shape[0]
       && forall i :: 0 <= i < |dts| ==>
         num2date(v.attributes["units"], CalendarOf(v.attributes), At(v.data.cells, v.data.shape, [i])) == Ok(dts[i]))
  {
    var v := file.variables[timeName];
    var arr := ConvertTimeData(v.attributes, v.data, num2date).value;
    FlattenLeaves(arr.cells, arr.shape);
  }

  /** `get_nearest_date(pivot)`: the closest record and the index of its first occurrence. */
  function GetNearestDate(timeName: Option<string>, file: NcFile, num2date: Num2Date, pivot: DateTime): (r: Result<(DateTime, nat)>)
    requires file.Valid() && ValidDateTime(pivot)
    ensures DatetimesOf(timeName, file, num2date).Fail? ==> r == Fail(DatetimesOf(timeName, file, num2date).error)
    ensures DatetimesOf(timeName, file, num2date).Ok? ==> (r.Fail? <==> DatetimesOf(timeName, file, num2date).value == [])
  {
    var dts :- DatetimesOf(timeName, file, num2date);
    Nearest(dts, DistanceTo(pivot))
  }

  /** The index holds the date returned, no record is closer to the pivot, and every earlier record is farther. */
  lemma GetNearestDateIsClosest(timeName: Option<string>, file: NcFile, num2date: Num2Date, pivot: DateTime)
    requires file.Valid() && ValidDateTime(pivot) && GetNearestDate(timeName, file, num2date, pivot).Ok?
    ensures var dts := DatetimesOf(timeName, file, num2date).value;
      var (dto, i) := GetNearestDate(timeName, file, num2date, pivot).value;
      (i < |dts| && dts[i] == dto
       && (forall j :: 0 <= j < |dts| ==> DistanceTo(pivot)(dto) <= DistanceTo(pivot)(dts[j]))
       && (forall j :: 0 <= j < i ==> DistanceTo(pivot)(dts[j]) > DistanceTo(pivot)(dto)))
  {
    NearestIsFirstClosest(DatetimesOf(timeName, file, num2date).value, DistanceTo(pivot));
  }

  /** Without a time name there are no records, and `min` of the empty list raises ValueError. */
  lemma NearestDateWithoutTime(file: NcFile, num2date: Num2Date, pivot: DateTime)
    requires file.Valid() && ValidDateTime(pivot)
    ensures GetNearestDate(None, file, num2date, pivot).Fail?
    ensures GetNearestDate(None, file, num2date, pivot).error.ValueError?
  { }

  // ---------------------------------------------------------------- GeoDatasetRead helpers

  /** The settings a reader class checks the file name against; the base check accepts every file. */
  datatype FileCheck = AnyFile | PrefixSuffix(prefix: Option<string>, suffix: string)

  /**
   * `_check_input_file`: the basename must start with the prefix and end with the suffix,
   * else InvalidDatasetError; a class that leaves the prefix None fails `startswith(None)`.
   */
  function CheckInputFile(check: FileCheck, filename: string): (r: Result<()>)
    ensures check.AnyFile? ==> r.Ok?
    ensures check.PrefixSuffix? && check.prefix.None? ==> r == Fail(TypeError)
    ensures check.PrefixSuffix? && check.prefix.Some? ==>
      (r.Ok? <==> StartsWith(Basename(filename), check.prefix.value) && EndsWith(Basename(filename), check.suffix))
    ensures check.PrefixSuffix? && check.prefix.Some? && r.Fail? ==> r.error == InvalidDatasetError
  {
    match check
    case AnyFile => Ok(())
    case PrefixSuffix(prefix, suffix) =>
      var n := Basename(filename);
      if prefix.None? then Fail(TypeError)
      else if StartsWith(n, prefix.value) && EndsWith(n, suffix) then Ok(())
      else Fail(InvalidDatasetError)
  }

  /** Only the basename is checked: a directory in front of the name never changes the outcome. */
  lemma CheckIgnoresDirectory(check: FileCheck, dir: string, name: string)
    ensures CheckInputFile(check, dir + "/" + name) == CheckInputFile(check, name)
  {
    BasenameIgnoresDirectory(dir, name);
  }

  /** Python truthiness of a name that may be unset. */
  predicate Truthy(name: Option<string>) {
    name.Some? && name.value != ""
  }

  /** Whether variable `name` has a `standard_name` attribute equal to `std`. */
  predicate HasStandardName(file: NcFile, name: string, std: string) {
    name in file.variables && "standard_name" in file.variables[name].attributes
    && file.variables[name].attributes["standard_name"] == Text(std)
  }

  /** The last of the first `k` variables whose standard name is `std`. */
  function LastNamed(file: NcFile, k: nat, std: string): (r: Option<string>)
    requires k <= |file.variableNames|
    ensures r.Some? ==> r.value in file.variableNames[..k] && HasStandardName(file, r.value, std)
    ensures r.None? <==> forall i :: 0 <= i < k ==> !HasStandardName(file, file.variableNames[i], std)
  {
    if k == 0 then None
    else if HasStandardName(file, file.variableNames[k - 1], std) then Some(file.variableNames[k - 1])
    else LastNamed(file, k - 1, std)
  }

  /** What `_get_lonlat_names` returns when it has already scanned the first `k` variables without returning. */
  function LonLatFrom(file: NcFile, k: nat): Result<(string, string)>
    requires k <= |file.variableNames|
    decreases |file.variableNames| - k
  {
    if k == |file.variableNames| then Fail(InvalidDatasetError)
    else
      var lon := LastNamed(file, k + 1, "longitude");
      var lat := LastNamed(file, k + 1, "latitude");
      if Truthy(lon) && Truthy(lat) then Ok((lon.value, lat.value))
      else LonLatFrom(file, k + 1)
  }

  /** `_get_lonlat_names`. */
  function LonLatNames(file: NcFile): (r: Result<(string, string)>)
    ensures r.Ok? ==>
      && r.value.0 in file.variableNames && HasStandardName(file, r.value.0, "longitude")
      && r.value.1 in file.variableNames && HasStandardName(file, r.value.1, "latitude")
    ensures r.Fail? ==> r.error == InvalidDatasetError
  {
    LonLatFromSound(file, 0);
    LonLatFrom(file, 0)
  }

  /** Success names a variable with standard name 'longitude' and one with 'latitude'; failure is InvalidDatasetError. */
  lemma {:induction false} LonLatFromSound(file: NcFile, k: nat)
    requires k <= |file.variableNames|
    ensures var r := LonLatFrom(file, k);
      (r.Ok? ==> (r.value.0 in file.variableNames && HasStandardName(file, r.value.0, "longitude")
                  && r.value.1 in file.variableNames && HasStandardName(file, r.value.1, "latitude")
                  && r.value.0 != "" && r.value.1 != ""))
    ensures LonLatFrom(file, k).Fail? ==> LonLatFrom(file, k).error == InvalidDatasetError
    decreases |file.variableNames| - k
  {
    if k < |file.variableNames| {
      LonLatFromSound(file, k + 1);
    }
  }

  /** Once both names are set at variable `m`, the scan from any earlier point returns. */
  lemma {:induction false} LonLatFromFinds(file: NcFile, k: nat, m: nat)
    requires k <= m < |file.variableNames|
    requires Truthy(LastNamed(file, m + 1, "longitude")) && Truthy(LastNamed(file, m + 1, "latitude"))
    ensures LonLatFrom(file, k).Ok?
    decreases m - k
  {
    if k < m {
      LonLatFromFinds(file, k + 1, m);
    }
  }

  /** The scan never returns while one of the two standard names is missing from the file. */
  lemma {:induction false} LonLatFromMisses(file: NcFile, k: nat, std: string)
    requires k <= |file.variableNames| && (std == "longitude" || std == "latitude")
    requires forall i :: 0 <= i < |file.variableNames| ==> !HasStandardName(file, file.variableNames[i], std)
    ensures LonLatFrom(file, k).Fail?
    decreases |file.variableNames| - k
  {
    if k < |file.variableNames| {
      assert LastNamed(file, k + 1, std).None?;
      LonLatFromMisses(file, k + 1, std);
    }
  }

  /** With non-empty variable names, the names are found exactly when some variable is 'longitude' and some is 'latitude'. */
  lemma LonLatNamesComplete(file: NcFile)
    requires forall i :: 0 <= i < |file.variableNames| ==> file.variableNames[i] != ""
    ensures LonLatNames(file).Ok? <==>
      ((exists i :: 0 <= i < |file.variableNames| && HasStandardName(file, file.variableNames[i], "longitude"))
       && (exists i :: 0 <= i < |file.variableNames| && HasStandardName(file, file.variableNames[i], "latitude")))
  {
    var n := |file.variableNames|;
    if (exists i :: 0 <= i < n && HasStandardName(file, file.variableNames[i], "longitude"))
       && (exists i :: 0 <= i < n && HasStandardName(file, file.variableNames[i], "latitude")) {
      var lon := LastNamed(file, n, "longitude");
      var lat := LastNamed(file, n, "latitude");
      assert lon.value in file.variableNames[..n];
      assert lat.value in file.variableNames[..n];
      LonLatFromFinds(file, 0, n - 1);
    } else if !(exists i :: 0 <= i < n && HasStandardName(file, file.variableNames[i], "longitude")) {
      LonLatFromMisses(file, 0, "longitude");
    } else {
      LonLatFromMisses(file, 0, "latitude");
    }
  }

  /** The elements of `s` that are not in `bad`, in their order. */
  function Without(s: seq<string>, bad: set<string>): (r: seq<string>)
    ensures forall x :: x in r <==> x in s && x !in bad
    ensures |r| <= |s|
  {
    if s == [] then []
    else (if s[0] in bad then [] else [s[0]]) + Without(s[1..], bad)
  }

  /** `list.remove(x)`: drops the first occurrence of `x`. */
  function RemoveFirst(s: seq<string>, x: string): (r: seq<string>)
    requires x in s
    ensures |r| == |s| - 1
  {
    if s[0] == x then s[1..] else [s[0]] + RemoveFirst(s[1..], x)
  }

  /** Removing a name that is not there, or already excluded, changes nothing. */
  lemma {:induction false} WithoutAbsent(s: seq<string>, bad: set<string>, x: string)
    requires x !in Without(s, bad)
    ensures Without(s, bad + {x}) == Without(s, bad)
  {
    if s != [] {
      WithoutAbsent(s[1..], bad, x);
    }
  }

  /** In a list without duplicates, removing the first occurrence of a remaining name excludes it. */
  lemma {:induction false} RemoveWithout(s: seq<string>, bad: set<string>, x: string)
    requires NoDuplicates(s) && x in Without(s, bad)
    ensures RemoveFirst(Without(s, bad), x) == Without(s, bad + {x})
  {
    NoDuplicatesTail(s);
    var w := Without(s, bad);
    var w1 := Without(s[1..], bad);
    if s[0] in bad {
      assert w == w1;
      assert Without(s, bad + {x}) == Without(s[1..], bad + {x});
      RemoveWithout(s[1..], bad, x);
    } else if s[0] != x {
      assert w == [s[0]] + w1;
      assert w[0] == s[0] && w[1..] == w1;
      assert Without(s, bad + {x}) == [s[0]] + Without(s[1..], bad + {x});
      RemoveWithout(s[1..], bad, x);
    } else {
      assert w == [s[0]] + w1 && w[1..] == w1;
      assert x !in s[1..] by {
        forall k | 0 <= k < |s[1..]| ensures s[1..][k] != x {
          assert s[1..][k] == s[k + 1];
        }
      }
      WithoutAbsent(s[1..], bad, x);
      assert Without(s, bad + {x}) == Without(s[1..], bad + {x});
    }
  }

  lemma NoDuplicatesTail(s: seq<string>)
    requires NoDuplicates(s) && s != []
    ensures NoDuplicates(s[1..])
  {
    forall i, j | 0 <= i < j < |s[1..]| ensures s[1..][i] != s[1..][j] {
      assert s[1..][i] == s[i + 1] && s[1..][j] == s[j + 1];
    }
  }

  /** `_get_area_definition`: a load that succeeds sets nothing (there is no return); any failure meets `except [...]`, which raises TypeError. */
  function AreaDefinitionOf(loaded: Result<Area>): (r: Result<Option<Area>>)
    ensures r.Ok? <==> loaded.Ok?
    ensures r.Ok? ==> r.value.None?
    ensures r.Fail? ==> r.error == TypeError
  {
    if loaded.Ok? then Ok(None) else Fail(TypeError)
  }

  /** The variable's dimension names with the first 'time' removed. */
  function DimsWithoutTime(dims: seq<string>): seq<string> {
    if "time" in dims then Drop'(dims, IndexOf(dims, "time")) else dims
  }

  function Drop'(s: seq<string>, k: nat): seq<string>
    requires k < |s|
  {
    s[..k] + s[k + 1..]
  }

  /** `get_variable_array(var_name, time_index)`: the record `time_index` along the variable's 'time' axis, or all of it without one. */
  function VariableArray(file: NcFile, varName: string, timeIndex: int): (r: Result<NdArray<Float>>)
    requires file.Valid()
    ensures r.Fail? <==> (varName !in file.variables ||
      (var v := file.variables[varName];
       "time" in v.dimensions && !(-(v.data.shape[IndexOf(v.dimensions, "time")] as int) <= timeIndex < v.data.shape[IndexOf(v.dimensions, "time")])))
    ensures r.Fail? ==> r.error == IndexError
    ensures r.Ok? && "time" !in file.variables[varName].dimensions ==> r.value == file.variables[varName].data
  {
    if varName !in file.variables then Fail(IndexError)
    else
      var v := file.variables[varName];
      if "time" in v.dimensions then Index(v.data, IndexOf(v.dimensions, "time"), timeIndex)
      else Ok(v.data)
  }

  /** Each axis of the array returned is the variable's axis of the same name, with only the time axis taken out. */
  lemma VariableArrayAxes(file: NcFile, varName: string, timeIndex: int)
    requires file.Valid() && VariableArray(file, varName, timeIndex).Ok?
    ensures var a := VariableArray(file, varName, timeIndex).value;
      var dims := DimsWithoutTime(file.variables[varName].dimensions);
      (|a.shape| == |dims| && forall k :: 0 <= k < |dims| ==> dims[k] in file.dimensions && file.dimensions[dims[k]] == a.shape[k])
  {
    var v := file.variables[varName];
    assert file.Conforms(v);
    var a := VariableArray(file, varName, timeIndex).value;
    if "time" in v.dimensions {
      var t := IndexOf(v.dimensions, "time");
      var dims := DimsWithoutTime(v.dimensions);
      forall k | 0 <= k < |dims|
        ensures dims[k] in file.dimensions && file.dimensions[dims[k]] == a.shape[k]
      {
        if k < t {
          assert dims[k] == v.dimensions[k] && a.shape[k] == v.data.shape[k];
        } else {
          assert dims[k] == v.dimensions[k + 1] && a.shape[k] == v.data.shape[k + 1];
        }
      }
    }
  }

  /**
   * The cells returned along a 'time' axis: cell `idx` of the array is the variable's cell with the
   * time position inserted, a negative `timeIndex` counting from the end of the axis.
   */
  lemma VariableArrayCells(file: NcFile, varName: string, timeIndex: int, idx: seq<nat>)
    requires file.Valid() && VariableArray(file, varName, timeIndex).Ok?
    requires "time" in file.variables[varName].dimensions
    requires InBounds(VariableArray(file, varName, timeIndex).value.shape, idx)
    ensures var v := file.variables[varName];
      var t := IndexOf(v.dimensions, "time");
      var a := VariableArray(file, varName, timeIndex).value;
      && PyIndex(v.data.shape[t], timeIndex).Ok?
      && InBounds(v.data.shape, Insert(idx, t, PyIndex(v.data.shape[t], timeIndex).value))
      && At(a.cells, a.shape, idx) == At(v.data.cells, v.data.shape, Insert(idx, t, PyIndex(v.data.shape[t], timeIndex).value))
  {
    var v := file.variables[varName];
    var t := IndexOf(v.dimensions, "time");
    SelectAt(v.data.cells, v.data.shape, t, PyIndex(v.data.shape[t], timeIndex).value, idx);
  }

  /** `get_lonlat_arrays`: the first time record of the longitude and of the latitude variable. */
  function LonLatArrays(file: NcFile, lonlatNames: (string, string)): (r: Result<(NdArray<Float>, NdArray<Float>)>)
    requires file.Valid()
    ensures r.Ok? ==> lonlatNames.0 in file.variables && lonlatNames.1 in file.variables
    ensures lonlatNames.0 !in file.variables || lonlatNames.1 !in file.variables ==> r == Fail(IndexError)
    ensures r.Ok? && "time" !in file.variables[lonlatNames.0].dimensions ==> r.value.0 == file.variables[lonlatNames.0].data
  {
    var lon :- VariableArray(file, lonlatNames.0, 0);
    var lat :- VariableArray(file, lonlatNames.1, 0);
    Ok((lon, lat))
  }

  // ---------------------------------------------------------------- GeoDatasetWrite

  /** The numpy types `set_variable` accepts. */
  datatype NumpyType = Float32 | Float64

  /** `dict(f4=np.float32, f8=np.double)[dtype]`. */
  function TypeConverter(dtype: string): (r: Result<NumpyType>)
    ensures r.Ok? <==> dtype == "f4" || dtype == "f8"
    ensures r.Fail? ==> r.error == KeyError(dtype)
  {
    if dtype == "f4" then Ok(Float32)
    else if dtype == "f8" then Ok(Float64)
    else Fail(KeyError(dtype))
  }

  /** numpy's conversion of an attribute value to a type, which can raise. */
  type Cast = (NumpyType, AttValue) -> Result<AttValue>

  /** A writer, with the names it writes under. */
  class GeoDatasetWrite {
    const filename: string
    var projectionNames: (string, string)
    var spatialDimNames: (string, string)
    var timeName: string
    var lonlatNames: (string, string)
    /** Whether a caller has set a `logger` attribute; no constructor does. */
    var logger: bool

    /** `GeoDatasetWrite(filename)`: the neXtSIM Moorings defaults. */
    constructor Init(filename: string)
      ensures this.filename == filename && projectionNames == DefaultProjectionNames
      ensures spatialDimNames == DefaultSpatialDimNames && timeName == "time" && lonlatNames == DefaultLonLatNames && !logger
    {
      this.filename := filename;
      projectionNames := DefaultProjectionNames;
      spatialDimNames := DefaultSpatialDimNames;
      timeName := "time";
      lonlatNames := DefaultLonLatNames;
      logger := false;
    }

    /** `NetcdfArcMFC(filename)`: the writer defaults, then the ArcMFC projection names. */
    constructor ArcMfc(filename: string)
      ensures this.filename == filename && projectionNames == ("stereographic", "polar_stereographic")
      ensures spatialDimNames == DefaultSpatialDimNames && timeName == "time" && lonlatNames == DefaultLonLatNames && !logger
    {
      this.filename := filename;
      projectionNames := DefaultProjectionNames;
      spatialDimNames := DefaultSpatialDimNames;
      timeName := "time";
      lonlatNames := DefaultLonLatNames;
      logger := false;
      projectionNames := ("stereographic", "polar_stereographic");
    }

    /**
     * The attributes `set_variable` writes and the `fill_value` it passes to `createVariable`:
     * `_FillValue` moves out of the attributes, `missing_value` is converted to the
     * variable's type, and `grid_mapping` names the projection variable.  The debug
     * message comes first: without a `logger`, netCDF4 looks the name up among the
     * file's attributes and raises AttributeError.
     */
    method VariableAttributes(atts: map<string, AttValue>, dtype: string, cast: Cast)
      returns (r: Result<(map<string, AttValue>, Option<AttValue>)>)
      ensures !logger ==> r == Fail(AttributeError("logger"))
      ensures logger && TypeConverter(dtype).Fail? ==> r == Fail(KeyError(dtype))
      ensures logger && TypeConverter(dtype).Ok? ==>
        var t := TypeConverter(dtype).value;
        var fillFails := "_FillValue" in atts && cast(t, atts["_FillValue"]).Fail?;
        var missingFails := "missing_value" in atts && cast(t, atts["missing_value"]).Fail?;
        && (r.Fail? <==> fillFails || missingFails)
        && (fillFails ==> r.error == cast(t, atts["_FillValue"]).error)
        && (!fillFails && missingFails ==> r.error == cast(t, atts["missing_value"]).error)
        && (r.Ok? ==>
          var (ncatts, fill) := r.value;
          && ncatts.Keys == atts.Keys - {"_FillValue"} + {"grid_mapping"}
          && ncatts["grid_mapping"] == Text(projectionNames.0)
          && (forall k :: k in atts && k !in {"_FillValue", "missing_value", "grid_mapping"} ==> ncatts[k] == atts[k])
          && ("missing_value" in atts ==> ncatts["missing_value"] == cast(t, atts["missing_value"]).value)
          && (fill.Some? <==> "_FillValue" in atts)
          && (fill.Some? ==> fill.value == cast(t, atts["_FillValue"]).value))
    {
      if !logger {
        return Fail(AttributeError("logger"));
      }
      var t :- TypeConverter(dtype);
      var ncatts := map k | k in atts && k != "_FillValue" :: atts[k];
      var fill: Option<AttValue> := None;
      if "_FillValue" in atts {
        var f :- cast(t, atts["_FillValue"]);
        fill := Some(f);
      }
      if "missing_value" in atts {
        var m :- cast(t, atts["missing_value"]);
        ncatts := ncatts["missing_value" := m];
      }
      ncatts := ncatts["grid_mapping" := Text(projectionNames.0)];
      return Ok((ncatts, fill));
    }

    /**
     * The attributes `set_time_variables_dimensions` writes: the time variable keeps the
     * given ones plus a default 'standard' calendar; `time_bnds` gets only the units.
     */
    static method TimeAttributes(timeAtts: map<string, AttValue>)
      returns (r: Result<(map<string, AttValue>, map<string, AttValue>)>)
      ensures r.Fail? <==> "units" !in timeAtts
      ensures r.Fail? ==> r.error == KeyError("units")
      ensures r.Ok? ==>
        var (timeVar, timeBnds) := r.value;
        && timeVar.Keys == timeAtts.Keys + {"calendar"}
        && (forall k :: k in timeAtts ==> timeVar[k] == timeAtts[k])
        && timeVar["calendar"] == CalendarOf(timeAtts)
        && timeBnds == map["units" := timeAtts["units"]]
    {
      var ncatts := timeAtts;
      ncatts := ncatts["calendar" := CalendarOf(timeAtts)];
      if "units" !in timeAtts {
        return Fail(KeyError("units"));
      }
      var units := timeAtts["units"];
      return Ok((ncatts, map["units" := units]));
    }
  }

  /** Once given a logger, the ArcMFC writer names the projection variable 'stereographic' in every variable it writes. */
  method ArcMfcGridMapping(filename: string, atts: map<string, AttValue>, cast: Cast)
    returns (r: Result<(map<string, AttValue>, Option<AttValue>)>)
    ensures r.Ok? ==> "grid_mapping" in r.value.0 && r.value.0["grid_mapping"] == Text("stereographic")
    ensures r.Ok? <==> !("_FillValue" in atts && cast(Float32, atts["_FillValue"]).Fail?) && !("missing_value" in atts && cast(Float32, atts["missing_value"]).Fail?)
  {
    var w := new GeoDatasetWrite.ArcMfc(filename);
    w.logger := true;
    r := w.VariableAttributes(atts, "f4", cast);
  }

  /** A writer as its constructor leaves it cannot write a variable: the log call fails first. */
  method FreshWriterCannotSetVariable(filename: string, atts: map<string, AttValue>, dtype: string, cast: Cast)
    returns (r: Result<(map<string, AttValue>, Option<AttValue>)>)
    ensures r == Fail(AttributeError("logger"))
  {
    var w := new GeoDatasetWrite.Init(filename);
    r := w.VariableAttributes(atts, dtype, cast);
  }

  // ---------------------------------------------------------------- GeoDatasetRead

  /** A reader: the file it read, the names it discovered and the settings it starts with. */
  class GeoDatasetRead {
    const filename: string
    const file: NcFile
    var projectionNames: (string, string)
    var spatialDimNames: (string, string)
    var timeName: Option<string>
    var lonlatNames: (string, string)
    var variableNames: seq<string>
    var areaDefinition: Option<Area>

    /** The reader's defaults, with the names and the area definition `__init__` looked up. */
    constructor Init(filename: string, file: NcFile, lonlatNames: (string, string), variableNames: seq<string>, areaDefinition: Option<Area>)
      ensures this.filename == filename && this.file == file
      ensures projectionNames == DefaultProjectionNames && spatialDimNames == DefaultSpatialDimNames && timeName == Some("time")
      ensures this.lonlatNames == lonlatNames && this.variableNames == variableNames && this.areaDefinition == areaDefinition
    {
      this.filename := filename;
      this.file := file;
      projectionNames := DefaultProjectionNames;
      spatialDimNames := DefaultSpatialDimNames;
      timeName := Some("time");
      this.lonlatNames := lonlatNames;
      this.variableNames := variableNames;
      this.areaDefinition := areaDefinition;
    }

    /** `_get_lonlat_names`: scans the variables in order and returns as soon as both names are set. */
    static method FindLonLatNames(file: NcFile) returns (r: Result<(string, string)>)
      ensures r == LonLatNames(file)
    {
      var lon: Option<string> := None;
      var lat: Option<string> := None;
      var i := 0;
      while i < |file.variableNames|
        invariant 0 <= i <= |file.variableNames|
        invariant lon == LastNamed(file, i, "longitude") && lat == LastNamed(file, i, "latitude")
        invariant LonLatFrom(file, i) == LonLatNames(file)
      {
        var name := file.variableNames[i];
        if name in file.variables && "standard_name" in file.variables[name].attributes {
          var std := file.variables[name].attributes["standard_name"];
          if std == Text("longitude") {
            lon := Some(name);
          }
          if std == Text("latitude") {
            lat := Some(name);
          }
        }
        if Truthy(lon) && Truthy(lat) {
          return Ok((lon.value, lat.value));
        }
        i := i + 1;
      }
      return Fail(InvalidDatasetError);
    }

    /** `_get_variable_names`: the variables, in order, less the dimension names, the projection names and 'time_bnds'. */
    static method FindVariableNames(file: NcFile, projectionNames: (string, string)) returns (names: seq<string>)
      requires file.Valid()
      ensures names == Without(file.variableNames, file.dimensions.Keys + {projectionNames.0, projectionNames.1, "time_bnds"})
    {
      var dimNames := ListKeys(file.dimensions.Keys);
      var badNames := dimNames + [projectionNames.0, projectionNames.1] + ["time_bnds"];
      assert ToSet(badNames) == ToSet(dimNames) + {projectionNames.0, projectionNames.1, "time_bnds"} by {
        ToSetSnoc(dimNames, projectionNames.0);
        ToSetSnoc(dimNames + [projectionNames.0], projectionNames.1);
        ToSetSnoc(dimNames + [projectionNames.0] + [projectionNames.1], "time_bnds");
        assert badNames == dimNames + [projectionNames.0] + [projectionNames.1] + ["time_bnds"];
      }
      names := RemoveAll(file.variableNames, badNames);
    }

    /**
     * `GeoDatasetRead(filename)`: the class's file-name check first, then the default
     * names, the longitude and latitude names, the variable names and the area definition
     * (`areaOverridden` for a class whose `_get_area_definition` does nothing).
     */
    static method Open(filename: string, file: NcFile, check: FileCheck, areaOverridden: bool, loadCfArea: Result<Area>)
      returns (r: Result<GeoDatasetRead>)
      requires file.Valid()
      ensures CheckInputFile(check, filename).Fail? ==> r == Fail(CheckInputFile(check, filename).error)
      ensures CheckInputFile(check, filename).Ok? ==>
        && (r.Ok? <==> LonLatNames(file).Ok? && (areaOverridden || loadCfArea.Ok?))
        && (LonLatNames(file).Fail? ==> r == Fail(InvalidDatasetError))
        && (LonLatNames(file).Ok? && !areaOverridden && loadCfArea.Fail? ==> r == Fail(TypeError))
      ensures r.Ok? ==>
        && fresh(r.value) && r.value.filename == filename && r.value.file == file
        && r.value.projectionNames == DefaultProjectionNames && r.value.timeName == Some("time")
        && r.value.lonlatNames == LonLatNames(file).value
        && r.value.variableNames == Without(file.variableNames, file.dimensions.Keys + {DefaultProjectionNames.0, DefaultProjectionNames.1, "time_bnds"})
        && r.value.areaDefinition.None?
    {
      var checked := CheckInputFile(check, filename);
      if checked.Fail? {
        return Fail(checked.error);
      }
      LonLatFromSound(file, 0);
      var lonlat := FindLonLatNames(file);
      if lonlat.Fail? {
        return Fail(lonlat.error);
      }
      var names := FindVariableNames(file, DefaultProjectionNames);
      // a class that overrides `_get_area_definition` with a bare `pass` never calls load_cf_area
      var area := if areaOverridden then Ok(None) else AreaDefinitionOf(loadCfArea);
      if area.Fail? {
        return Fail(area.error);
      }
      var g := new GeoDatasetRead.Init(filename, file, lonlat.value, names, area.value);
      return Ok(g);
    }
  }

  /** The elements of a list, as a set. */
  function ToSet(s: seq<string>): set<string> {
    set x | x in s
  }

  lemma ToSetSnoc(s: seq<string>, x: string)
    ensures ToSet(s + [x]) == ToSet(s) + {x}
  {
    assert forall y :: y in s + [x] <==> y in s || y == x;
  }

  /** The keys of a dictionary, in some order. */
  method ListKeys(keys: set<string>) returns (s: seq<string>)
    ensures ToSet(s) == keys
  {
    s := [];
    var rest := keys;
    while rest != {}
      invariant rest + ToSet(s) == keys
      decreases rest
    {
      var d :| d in rest;
      ToSetSnoc(s, d);
      s := s + [d];
      rest := rest - {d};
    }
  }

  /** `for name in bad: if name in names: names.remove(name)`, on a list without duplicates. */
  method RemoveAll(s: seq<string>, bad: seq<string>) returns (names: seq<string>)
    requires NoDuplicates(s)
    ensures names == Without(s, ToSet(bad))
  {
    names := s;
    WithoutNothing(s);
    assert ToSet(bad[..0]) == {};
    for i := 0 to |bad|
      invariant names == Without(s, ToSet(bad[..i]))
    {
      RemoveStep(s, bad[..i], bad[i]);
      assert bad[..i + 1] == bad[..i] + [bad[i]];
      if bad[i] in names {
        names := RemoveFirst(names, bad[i]);
      }
    }
    assert bad[..|bad|] == bad;
  }

  /** One step of `list.remove` over the names to drop: removing a present name, or skipping an absent one, drops it. */
  lemma RemoveStep(s: seq<string>, done: seq<string>, x: string)
    requires NoDuplicates(s)
    ensures (if x in Without(s, ToSet(done)) then RemoveFirst(Without(s, ToSet(done)), x) else Without(s, ToSet(done)))
      == Without(s, ToSet(done + [x]))
  {
    ToSetSnoc(done, x);
    if x in Without(s, ToSet(done)) {
      RemoveWithout(s, ToSet(done), x);
    } else {
      WithoutAbsent(s, ToSet(done), x);
    }
  }

  lemma {:induction false} WithoutNothing(s: seq<string>)
    ensures Without(s, {}) == s
  {
    if s != [] {
      WithoutNothing(s[1..]);
    }
  }
}
