/**
 * geodataset/geo_dataset.py, and its copy in regridder/formats/geodataset.py:
 * a reader whose constructor loads the area definition and (in the
 * geodataset copy) derives the time axis, which reads one variable with
 * rank-dependent default time index and dimension bookkeeping, and which
 * finds the record nearest to a date.  The file's contents are a parameter
 * of each operation (netCDF4's `Dataset(self.file_path)`); netcdftime's
 * `num2date` is a function parameter.
 */
module GeoDatasets {
  import opened Outcomes
  import opened Strings
  import opened NdArrays
  import opened NetCdf
  import opened DateTemplates
  import opened TimeUtils
  import opened Variables
  import opened Timeline
  import opened Areas

  // ---------------------------------------------------------------- area

  /** `_load_area`: a ValueError from `load_cf_area` means "not this reader"; any other error passes through. */
  function CfLoadArea(loaded: Result<Area>): (r: Result<Area>)
    ensures loaded.Ok? ==> r == loaded
    ensures loaded.Fail? && loaded.error.ValueError? ==> r == Fail(BadAreaDefinition)
    ensures loaded.Fail? && !loaded.error.ValueError? ==> r == loaded
  {
    match loaded
    case Ok(_) => loaded
    case Fail(ValueError(_)) => Fail(BadAreaDefinition)
    case Fail(_) => loaded
  }

  // ---------------------------------------------------------------- time axis

  /** The format `_set_time_info` writes and reads back: '%Y-%m-%d %H:%M:%S'. */
  const TimeFormat: seq<Piece> :=
    [Fld(Year), Lit('-'), Fld(Month), Lit('-'), Fld(Day), Lit(' '), Fld(Hour), Lit(':'), Fld(Minute), Lit(':'), Fld(Second)]

  /** `d.strftime(fmt)`: ValueError for a year `strftime` cannot write. */
  function Strftime(d: DateTime): (r: Result<string>)
    ensures r.Ok? <==> Printable(d)
    ensures ValidDateTime(d) ==> r.Ok?
  {
    if Printable(d) then Ok(Render(d, TimeFormat)) else Fail(ValueError("year is out of range"))
  }

  /** Python's `round(x)` for a finite float: nearest integer, ties to even. */
  function RoundHalfEven(x: real): (n: int)
    ensures -0.5 <= x - n as real <= 0.5
    ensures (x - n as real == 0.5 || x - n as real == -0.5) ==> n % 2 == 0
  {
    var f := x.Floor;
    var frac := x - f as real;
    if frac < 0.5 then f
    else if frac > 0.5 then f + 1
    else if f % 2 == 0 then f
    else f + 1
  }

  /** `round(float(tval))`: NaN raises ValueError, an infinity OverflowError. */
  function Rounded(tval: Float): (r: Result<Float>)
    ensures r.Ok? <==> tval.Finite?
    ensures r.Ok? ==> r.value == Finite(RoundHalfEven(tval.x) as real)
  {
    match tval
    case Finite(x) => Ok(Finite(RoundHalfEven(x) as real))
    case NaN => Fail(ValueError("cannot convert float NaN to integer"))
    case _ => Fail(Foreign("OverflowError"))
  }

  /** `time_converter.num2date(tval).strftime(fmt)`. */
  function Attempt(c: Converter, num2date: (Converter, Float) -> Result<DateTime>, tval: Float): Result<string> {
    var d :- num2date(c, tval);
    Strftime(d)
  }

  /** One record: convert, retry once with the rounded value on ValueError, then `datetime.strptime(cdate, fmt)`. */
  function ConvertValue(c: Converter, num2date: (Converter, Float) -> Result<DateTime>, tval: Float): (r: Result<DateTime>)
    ensures r.Ok? ==> ValidDateTime(r.value)
  {
    var first := Attempt(c, num2date, tval);
    var cdate :- if first.Fail? && first.error.ValueError? then
        (var t :- Rounded(tval); Attempt(c, num2date, t))
      else first;
    match Strptime(cdate, TimeFormat)
    case Some(dto) => Ok(dto)
    case None => Fail(ValueError("time data does not match format '%Y-%m-%d %H:%M:%S'"))
  }

  /**
   * The records in order: the loop over the raw values appends one record per value,
   * and the first value that cannot be converted ends it with that value's error.
   */
  function Datetimes(c: Converter, num2date: (Converter, Float) -> Result<DateTime>, vals: seq<Float>): (r: Result<seq<DateTime>>)
    ensures r.Ok? ==> |r.value| == |vals| && forall i :: 0 <= i < |r.value| ==> ValidDateTime(r.value[i])
    decreases |vals|
  {
    if vals == [] then Ok([])
    else
      var init :- Datetimes(c, num2date, vals[..|vals| - 1]);
      var d :- ConvertValue(c, num2date, vals[|vals| - 1]);
      Ok(init + [d])
  }

  /** `ConvertValue` as a function value. */
  function Convert(c: Converter, num2date: (Converter, Float) -> Result<DateTime>): Float -> Result<DateTime> {
    tval => ConvertValue(c, num2date, tval)
  }

  /** The record loop is `MapAll` of the one-value conversion. */
  lemma {:induction false} DatetimesMapAll(c: Converter, num2date: (Converter, Float) -> Result<DateTime>, vals: seq<Float>)
    ensures Datetimes(c, num2date, vals) == MapAll(Convert(c, num2date), vals)
    decreases |vals|
  {
    if vals != [] {
      DatetimesMapAll(c, num2date, vals[..|vals| - 1]);
      assert Convert(c, num2date)(vals[|vals| - 1]) == ConvertValue(c, num2date, vals[|vals| - 1]);
    }
  }

  /** Record `i` of a completed loop is the conversion of value `i`. */
  lemma DatetimesPointwise(c: Converter, num2date: (Converter, Float) -> Result<DateTime>, vals: seq<Float>)
    ensures var r := Datetimes(c, num2date, vals);
      r.Ok? ==> forall i :: 0 <= i < |vals| ==> ConvertValue(c, num2date, vals[i]) == Ok(r.value[i])
  {
    DatetimesMapAll(c, num2date, vals);
    MapAllPointwise(Convert(c, num2date), vals);
    forall i | 0 <= i < |vals|
      ensures ConvertValue(c, num2date, vals[i]) == Convert(c, num2date)(vals[i])
    { }
  }

  /** A failed loop fails with the error of the first value that cannot be converted, every earlier value converting. */
  lemma DatetimesFirstFailure(c: Converter, num2date: (Converter, Float) -> Result<DateTime>, vals: seq<Float>)
    ensures var r := Datetimes(c, num2date, vals);
      (r.Fail? ==>
        exists i :: (0 <= i < |vals| && ConvertValue(c, num2date, vals[i]) == Fail(r.error)
          && forall j :: 0 <= j < i ==> ConvertValue(c, num2date, vals[j]).Ok?))
  {
    DatetimesMapAll(c, num2date, vals);
    MapAllFirstFailure(Convert(c, num2date), vals);
    forall i | 0 <= i < |vals|
      ensures ConvertValue(c, num2date, vals[i]) == Convert(c, num2date)(vals[i])
    { }
  }

  /** The loop completes exactly when every value converts. */
  lemma DatetimesSucceeds(c: Converter, num2date: (Converter, Float) -> Result<DateTime>, vals: seq<Float>)
    ensures Datetimes(c, num2date, vals).Ok? <==> forall i :: 0 <= i < |vals| ==> ConvertValue(c, num2date, vals[i]).Ok?
  {
    DatetimesMapAll(c, num2date, vals);
    MapAllSucceeds(Convert(c, num2date), vals);
    forall i | 0 <= i < |vals|
      ensures ConvertValue(c, num2date, vals[i]) == Convert(c, num2date)(vals[i])
    { }
  }

  /** Once a prefix of the values has failed, the values after it change nothing. */
  lemma {:induction false} DatetimesFailedPrefix(c: Converter, num2date: (Converter, Float) -> Result<DateTime>, vals: seq<Float>, m: nat)
    requires m <= |vals| && Datetimes(c, num2date, vals[..m]).Fail?
    ensures Datetimes(c, num2date, vals) == Datetimes(c, num2date, vals[..m])
    decreases |vals| - m
  {
    if m < |vals| {
      assert vals[..m + 1][..m] == vals[..m];
      DatetimesFailedPrefix(c, num2date, vals, m + 1);
    } else {
      assert vals[..m] == vals;
    }
  }

  /** The offset of `dto` from `reftime` in the reader's time unit, for the three units it knows. */
  function Offset(unit: string, dto: DateTime, reftime: DateTime): Option<real>
    requires ValidDateTime(dto) && ValidDateTime(reftime)
  {
    var tdiff := (Seconds(dto) - Seconds(reftime)) as real;
    if unit == "seconds" then Some(tdiff / 3600.0)
    else if unit == "hours" then Some(tdiff / 3600.0)
    else if unit == "days" then Some(tdiff / 3600.0 / 24.0)
    else None
  }

  /** `timevalues`: the offsets from `reftime` of the records, in order. */
  function TimeValues(unit: string, reftime: DateTime, dts: seq<DateTime>): seq<real>
    requires ValidDateTime(reftime) && forall i :: 0 <= i < |dts| ==> ValidDateTime(dts[i])
    decreases |dts|
  {
    if dts == [] then []
    else
      var init := TimeValues(unit, reftime, dts[..|dts| - 1]);
      match Offset(unit, dts[|dts| - 1], reftime)
      case Some(x) => init + [x]
      case None => init
  }

  /** `timeunits`: set by the first record whose unit is known. */
  function TimeUnits(unit: string, n: nat): Option<string> {
    if n == 0 then None
    else if unit == "seconds" || unit == "hours" then Some("hour")
    else if unit == "days" then Some("day")
    else None
  }

  /** The loop's results: the records, their offsets from the first record, the offsets' unit and the first record. */
  function Records(c: Converter, num2date: (Converter, Float) -> Result<DateTime>, arr: seq<Float>)
    : (r: Result<(seq<DateTime>, seq<real>, Option<string>, Option<DateTime>)>)
    ensures r.Ok? <==> Datetimes(c, num2date, arr).Ok?
    ensures r.Ok? ==> |r.value.0| == |arr| && (r.value.3.Some? <==> arr != [])
  {
    var dts :- Datetimes(c, num2date, arr);
    if dts == [] then Ok(([], [], None, None))
    else Ok((dts, TimeValues(c.Units(), dts[0], dts), TimeUnits(c.Units(), |arr|), Some(dts[0])))
  }

  /** The time attributes of a reader: all None when the file has no time dimension. */
  datatype TimeInfo = TimeInfo(
    timeName: Option<string>,
    timeConverter: Option<Converter>,
    datetimes: Option<seq<DateTime>>,
    timevalues: Option<seq<real>>,
    timeunits: Option<string>,
    reftime: Option<DateTime>,
    numberOfTimeRecords: Option<nat>)

  const NoTimeInfo := TimeInfo(None, None, None, None, None, None, None)

  /** The time attributes derived from the records of time variable `timeName`. */
  function AxisInfo(timeName: string, c: Converter, dts: seq<DateTime>): TimeInfo
    requires forall i :: 0 <= i < |dts| ==> ValidDateTime(dts[i])
  {
    if dts == [] then TimeInfo(Some(timeName), Some(c), Some([]), Some([]), None, None, Some(0))
    else TimeInfo(Some(timeName), Some(c), Some(dts), Some(TimeValues(c.Units(), dts[0], dts)), TimeUnits(c.Units(), |dts|), Some(dts[0]), Some(|dts|))
  }

  /**
   * `for tval in arr`: the loop walks the time array along its first axis.  A 0-d array
   * cannot be iterated (TypeError).  A row that is itself an array is handed to
   * `num2date` whole, and the array that comes back has no `strftime` (AttributeError).
   */
  function TimeRows(cells: Nd<Float>): (r: Result<seq<Float>>)
    ensures r.Ok? <==> cells.Node? && forall k :: 0 <= k < |cells.kids| ==> cells.kids[k].Leaf?
    ensures r.Ok? ==> |r.value| == |cells.kids| && r.value == Flatten(cells)
  {
    match cells
    case Leaf(_) => Fail(TypeError)
    case Node(kids) =>
      if forall k :: 0 <= k < |kids| ==> kids[k].Leaf? then
        LeavesInOrder(kids);
        Ok(seq(|kids|, k requires 0 <= k < |kids| => kids[k].v))
      else Fail(AttributeError("strftime"))
  }

  /** `_set_time_info`, as a function of the file. */
  function TimeInfoOf(file: NcFile, num2date: (Converter, Float) -> Result<DateTime>): (r: Result<TimeInfo>)
    ensures r.Ok? && r.value.datetimes.Some? ==> forall i :: 0 <= i < |r.value.datetimes.value| ==> ValidDateTime(r.value.datetimes.value[i])
  {
    var timeName := FirstPresent(TimeNameCandidates, file.dimensions.Keys);
    if timeName.None? then Ok(NoTimeInfo)
    else if timeName.value !in file.variables then Fail(KeyError(timeName.value))
    else
      var time := file.variables[timeName.value];
      var c :- TimeConverter(time);
      var arr :- TimeRows(time.data.cells);
      var dts :- Datetimes(c, num2date, arr);
      Ok(AxisInfo(timeName.value, c, dts))
  }

  /**
   * By the rank of the time variable: a scalar cannot be iterated, a one-dimensional variable gives
   * one record per value, and a variable of rank two or more fails on its first row, or gives no
   * records when its first axis is empty.
   */
  lemma TimeRowsByRank(v: NcVariable)
    requires v.Valid()
    ensures v.Rank() == 0 ==> TimeRows(v.data.cells) == Fail(TypeError)
    ensures v.Rank() == 1 ==> TimeRows(v.data.cells).Ok? && |TimeRows(v.data.cells).value| == v.data.shape[0]
    ensures v.Rank() >= 2 && v.data.shape[0] == 0 ==> TimeRows(v.data.cells) == Ok([])
    ensures v.Rank() >= 2 && v.data.shape[0] > 0 ==> TimeRows(v.data.cells) == Fail(AttributeError("strftime"))
  {
    var shape := v.data.shape;
    if |shape| == 1 {
      assert forall k :: 0 <= k < |v.data.cells.kids| ==> HasShape(v.data.cells.kids[k], []);
    } else if |shape| >= 2 && shape[0] > 0 {
      assert HasShape(v.data.cells.kids[0], shape[1..]);
    }
  }

  /** One more record extends the offsets by its own offset, if its unit is known. */
  lemma TimeValuesSnoc(unit: string, reftime: DateTime, dts: seq<DateTime>, d: DateTime)
    requires ValidDateTime(reftime) && ValidDateTime(d) && forall i :: 0 <= i < |dts| ==> ValidDateTime(dts[i])
    ensures TimeValues(unit, reftime, dts + [d]) ==
      TimeValues(unit, reftime, dts) + (if Offset(unit, d, reftime).Some? then [Offset(unit, d, reftime).value] else [])
  {
    assert (dts + [d])[..|dts|] == dts;
  }

  lemma TimeFormatDirectives()
    ensures Directives(TimeFormat) == AllFields
  { }

  /** `strptime` reads back what is rendered with `fmt`. */
  lemma RenderTimeFormat(d: DateTime)
    requires ValidDateTime(d)
    ensures Strptime(Render(d, TimeFormat), TimeFormat) == Some(d)
  {
    TimeFormatDirectives();
    RenderParses(d, TimeFormat);
  }

  /** A valid date written with `fmt` by `strftime` is read back by `strptime` as the same date. */
  lemma FormatRoundTrip(d: DateTime)
    requires ValidDateTime(d)
    ensures Strftime(d).Ok? && Strptime(Strftime(d).value, TimeFormat) == Some(d)
  {
    RenderTimeFormat(d);
    assert Strftime(d) == Ok(Render(d, TimeFormat));
  }

  /** A valid date from `num2date` survives the strftime/strptime round trip unchanged. */
  lemma ConvertValid(c: Converter, num2date: (Converter, Float) -> Result<DateTime>, tval: Float)
    requires num2date(c, tval).Ok? && ValidDateTime(num2date(c, tval).value)
    ensures ConvertValue(c, num2date, tval) == num2date(c, tval)
  {
    FormatRoundTrip(num2date(c, tval).value);
  }

  /** On a ValueError the value is rounded half to even and converted again; a valid date from the retry is the record. */
  lemma ConvertRetry(c: Converter, num2date: (Converter, Float) -> Result<DateTime>, x: real)
    requires num2date(c, Finite(x)).Fail? && num2date(c, Finite(x)).error.ValueError?
    requires var retry := num2date(c, Finite(RoundHalfEven(x) as real)); retry.Ok? && ValidDateTime(retry.value)
    ensures ConvertValue(c, num2date, Finite(x)) == num2date(c, Finite(RoundHalfEven(x) as real))
  {
    FormatRoundTrip(num2date(c, Finite(RoundHalfEven(x) as real)).value);
  }

  /** An error other than ValueError from `num2date` is not retried and fails the record. */
  lemma ConvertPropagates(c: Converter, num2date: (Converter, Float) -> Result<DateTime>, tval: Float)
    requires num2date(c, tval).Fail? && !num2date(c, tval).error.ValueError?
    ensures ConvertValue(c, num2date, tval) == Fail(num2date(c, tval).error)
  { }

  /** A date `strftime` cannot write is retried, and a NaN then fails with ValueError. */
  lemma ConvertNaN(c: Converter, num2date: (Converter, Float) -> Result<DateTime>)
    requires num2date(c, NaN).Fail? && num2date(c, NaN).error.ValueError?
    ensures ConvertValue(c, num2date, NaN) == Fail(ValueError("cannot convert float NaN to integer"))
  { }

  /** For the units the reader knows, there is one offset per record, in hours (seconds, hours) or days, from the first record. */
  lemma {:induction false} TimeValuesOffsets(unit: string, reftime: DateTime, dts: seq<DateTime>)
    requires ValidDateTime(reftime) && forall i :: 0 <= i < |dts| ==> ValidDateTime(dts[i])
    requires unit == "seconds" || unit == "hours" || unit == "days"
    ensures |TimeValues(unit, reftime, dts)| == |dts|
    ensures forall i :: 0 <= i < |dts| ==>
      (TimeValues(unit, reftime, dts)[i] == (Seconds(dts[i]) - Seconds(reftime)) as real / (if unit == "days" then 86400.0 else 3600.0))
    decreases |dts|
  {
    if dts != [] {
      var init := dts[..|dts| - 1];
      TimeValuesOffsets(unit, reftime, init);
      assert forall i :: 0 <= i < |init| ==> init[i] == dts[i];
      var tdiff := (Seconds(dts[|dts| - 1]) - Seconds(reftime)) as real;
      assert tdiff / 3600.0 / 24.0 == tdiff / 86400.0;
    }
  }

  /** For any other unit there are no offsets. */
  lemma {:induction false} TimeValuesUnknownUnit(unit: string, reftime: DateTime, dts: seq<DateTime>)
    requires ValidDateTime(reftime) && forall i :: 0 <= i < |dts| ==> ValidDateTime(dts[i])
    requires unit != "seconds" && unit != "hours" && unit != "days"
    ensures TimeValues(unit, reftime, dts) == []
    decreases |dts|
  {
    if dts != [] {
      TimeValuesUnknownUnit(unit, reftime, dts[..|dts| - 1]);
    }
  }

  /** The time axis: None without a time dimension; otherwise one record per row of the time variable's first axis, `reftime` the first and the count their number. */
  lemma TimeAxis(file: NcFile, num2date: (Converter, Float) -> Result<DateTime>)
    requires TimeInfoOf(file, num2date).Ok?
    ensures var info := TimeInfoOf(file, num2date).value;
      && (info.datetimes.None? <==> forall k :: 0 <= k < |TimeNameCandidates| ==> TimeNameCandidates[k] !in file.dimensions)
      && (info.datetimes.Some? ==>
        && info.timeName.Some? && info.timeName.value in file.variables
        && file.variables[info.timeName.value].data.cells.Node?
        && |info.datetimes.value| == |file.variables[info.timeName.value].data.cells.kids|
        && info.numberOfTimeRecords == Some(|info.datetimes.value|)
        && (info.datetimes.value != [] ==> info.reftime == Some(info.datetimes.value[0]))
        && (info.datetimes.value == [] ==> info.reftime.None? && info.timeunits.None?))
  { }

  /** With hours (or seconds) since an origin, every record's offset is its distance from the first record in hours, and the first is 0. */
  lemma HourOffsets(file: NcFile, num2date: (Converter, Float) -> Result<DateTime>)
    requires TimeInfoOf(file, num2date).Ok?
    requires var info := TimeInfoOf(file, num2date).value;
      info.timeConverter.Some? && (info.timeConverter.value.Units() == "hours" || info.timeConverter.value.Units() == "seconds")
    ensures var info := TimeInfoOf(file, num2date).value;
      var dts := info.datetimes.value;
      && info.timevalues.Some? && |info.timevalues.value| == |dts|
      && (dts != [] ==> info.timeunits == Some("hour") && info.timevalues.value[0] == 0.0)
      && forall i :: 0 <= i < |dts| ==> info.timevalues.value[i] == (Seconds(dts[i]) - Seconds(dts[0])) as real / 3600.0
  {
    var info := TimeInfoOf(file, num2date).value;
    var dts := info.datetimes.value;
    if dts != [] {
      TimeValuesOffsets(info.timeConverter.value.Units(), dts[0], dts);
    }
  }

  /** With days since an origin, offsets are in days and `timeunits` is 'day'. */
  lemma DayOffsets(file: NcFile, num2date: (Converter, Float) -> Result<DateTime>)
    requires TimeInfoOf(file, num2date).Ok?
    requires var info := TimeInfoOf(file, num2date).value;
      info.timeConverter.Some? && info.timeConverter.value.Units() == "days"
    ensures var info := TimeInfoOf(file, num2date).value;
      var dts := info.datetimes.value;
      && info.timevalues.Some? && |info.timevalues.value| == |dts|
      && (dts != [] ==> info.timeunits == Some("day"))
      && forall i :: 0 <= i < |dts| ==> info.timevalues.value[i] == (Seconds(dts[i]) - Seconds(dts[0])) as real / 86400.0
  {
    var info := TimeInfoOf(file, num2date).value;
    var dts := info.datetimes.value;
    if dts != [] {
      TimeValuesOffsets("days", dts[0], dts);
    }
  }

  // ---------------------------------------------------------------- get_var

  /** `i0, i1, j0, j1 = ij_range`: ValueError unless there are exactly four bounds. */
  function Unpack(ijRange: Option<seq<int>>): (r: Result<Option<(int, int, int, int)>>)
    ensures r.Fail? <==> ijRange.Some? && |ijRange.value| != 4
    ensures r.Fail? ==> r.error.ValueError?
    ensures r.Ok? && ijRange.Some? ==> r.value == Some((ijRange.value[0], ijRange.value[1], ijRange.value[2], ijRange.value[3]))
    ensures r.Ok? && ijRange.None? ==> r.value.None?
  {
    match ijRange
    case None => Ok(None)
    case Some(s) =>
      if |s| > 4 then Fail(ValueError("too many values to unpack"))
      else if |s| < 4 then Fail(ValueError("not enough values to unpack"))
      else Ok(Some((s[0], s[1], s[2], s[3])))
  }

  /** The time index `get_var` uses: a rank-3 or rank-4 variable with one record defaults to record 0. */
  function EffectiveTimeIndex(rank: nat, shape: seq<nat>, timeIndex: Option<int>): (t: Option<int>)
    requires |shape| == rank
    ensures timeIndex.Some? ==> t == timeIndex
    ensures timeIndex.None? ==> (t.Some? <==> (rank == 3 || rank == 4) && shape[0] == 1) && (t.Some? ==> t.value == 0)
  {
    if (rank == 3 || rank == 4) && timeIndex.None? && shape[0] == 1 then Some(0) else timeIndex
  }

  /** The `dimensions` `get_var` reports: the axes left after the time and depth indices are applied. */
  function ReportedDims(dims: seq<string>, timeIndex: Option<int>): (r: seq<string>)
    ensures forall x :: x in r ==> x in dims
    ensures |dims| >= 2 ==> |r| >= 2 && r[|r| - 2..] == dims[|dims| - 2..]
    ensures |r| == |dims| - (if |dims| == 3 && timeIndex.Some? then 1 else if |dims| == 4 && timeIndex.None? then 1 else if |dims| == 4 then 2 else 0)
  {
    if |dims| == 3 && timeIndex.Some? then dims[1..]
    else if |dims| == 4 && timeIndex.None? then [dims[0], dims[2], dims[3]]
    else if |dims| == 4 then dims[2..]
    else dims
  }

  /**
   * The rank branches of `get_var`: a rank 3 or 4 variable with a single record and no time index
   * reads record 0, and the time and depth indices applied drop their axes from `dimensions`.
   */
  method RankBranches(dimensions: seq<string>, shape: seq<nat>, timeIndex: Option<int>) returns (t: Option<int>, dims: seq<string>)
    requires |dimensions| == |shape|
    ensures t == EffectiveTimeIndex(|shape|, shape, timeIndex)
    ensures dims == ReportedDims(dimensions, t)
  {
    var rank := |dimensions|;
    dims := dimensions;
    t := timeIndex;
    if (rank == 3 || rank == 4) && t.None? && shape[0] == 1 {
      t := Some(0);
    }
    if rank == 3 && t.Some? {
      dims := dims[1..];
    } else if rank == 4 && t.None? {
      dims := [dims[0], dims[2], dims[3]];
    } else if rank == 4 {
      dims := dims[2..];
    }
  }

  /** `[i0:i1, j0:j1]` on the two axes from `axis`, or the whole array without `ij_range`. */
  function Window<T>(a: NdArray<T>, axis: nat, range: Option<(int, int, int, int)>): (r: NdArray<T>)
    requires a.Valid() && axis + 1 < a.Rank()
    ensures r.Valid() && |r.shape| == |a.shape|
    ensures range.None? ==> r == a
  {
    match range
    case None => a
    case Some((i0, i1, j0, j1)) => Slice(Slice(a, axis, i0, i1), axis + 1, j0, j1)
  }

  /** The part of the variable `get_var` reads for its rank; other ranks never assign `vals` (UnboundLocalError). */
  function Selected<T>(a: NdArray<T>, timeIndex: Option<int>, depthIndex: int, range: Option<(int, int, int, int)>): (r: Result<NdArray<T>>)
    requires a.Valid()
    ensures r.Ok? ==> r.value.Valid()
  {
    if a.Rank() == 1 then Ok(a)
    else if a.Rank() == 2 then Ok(Window(a, 0, range))
    else if a.Rank() == 3 then
      if timeIndex.None? then Ok(Window(a, 1, range))
      else
        var b :- Index(a, 0, timeIndex.value);
        Ok(Window(b, 0, range))
    else if a.Rank() == 4 then
      if timeIndex.None? then
        var b :- Index(a, 1, depthIndex);
        Ok(Window(b, 1, range))
      else
        var b :- Index(a, 0, timeIndex.value);
        var c :- Index(b, 0, depthIndex);
        Ok(Window(c, 0, range))
    else Fail(Foreign("UnboundLocalError"))
  }

  /** What `get_var` reads: values, their mask and the reported dimensions. */
  datatype VarRead = VarRead(values: NdArray<Float>, mask: NdArray<bool>, dims: seq<string>)

  /** `get_var(vblname, time_index, depth_index, ij_range)` up to building the `var_object`. */
  function ReadVar(file: NcFile, vblname: string, timeIndex: Option<int>, depthIndex: int, ijRange: Option<seq<int>>): (r: Result<VarRead>)
    requires file.Valid()
    ensures r.Ok? ==> ExchangeNames(vblname, file.variables.Keys).Ok? && Unpack(ijRange).Ok?
    ensures r.Ok? ==> 1 <= file.variables[ExchangeNames(vblname, file.variables.Keys).value].Rank() <= 4
    ensures r.Ok? ==> r.value.values.Valid() && r.value.mask.Valid()
  {
    var name :- ExchangeNames(vblname, file.variables.Keys);
    var v := file.variables[name];
    var range :- Unpack(ijRange);
    var t := EffectiveTimeIndex(v.Rank(), v.data.shape, timeIndex);
    var vals :- Selected(v.data, t, depthIndex, range);
    var mask :- Selected(NdArray(v.data.shape, v.mask), t, depthIndex, range);
    Ok(VarRead(vals, mask, ReportedDims(v.dimensions, t)))
  }

  /** A window depends on the shape of the array only. */
  lemma WindowSameShape<T, U>(a: NdArray<T>, b: NdArray<U>, axis: nat, range: Option<(int, int, int, int)>)
    requires a.Valid() && b.Valid() && a.shape == b.shape && axis + 1 < a.Rank()
    ensures Window(a, axis, range).shape == Window(b, axis, range).shape
  {
    if range.Some? {
      var (i0, i1, j0, j1) := range.value;
      assert Slice(a, axis, i0, i1).shape == Slice(b, axis, i0, i1).shape;
    }
  }

  /** Data and mask of one shape are selected alike. */
  lemma SelectedSameShape<T, U>(a: NdArray<T>, b: NdArray<U>, timeIndex: Option<int>, depthIndex: int, range: Option<(int, int, int, int)>)
    requires a.Valid() && b.Valid() && a.shape == b.shape
    ensures Selected(a, timeIndex, depthIndex, range).Ok? == Selected(b, timeIndex, depthIndex, range).Ok?
    ensures Selected(a, timeIndex, depthIndex, range).Ok? ==>
      Selected(a, timeIndex, depthIndex, range).value.shape == Selected(b, timeIndex, depthIndex, range).value.shape
  {
    if a.Rank() == 2 {
      WindowSameShape(a, b, 0, range);
    } else if a.Rank() == 3 {
      if timeIndex.None? {
        WindowSameShape(a, b, 1, range);
      } else if Index(a, 0, timeIndex.value).Ok? {
        WindowSameShape(Index(a, 0, timeIndex.value).value, Index(b, 0, timeIndex.value).value, 0, range);
      }
    } else if a.Rank() == 4 {
      if timeIndex.None? {
        if Index(a, 1, depthIndex).Ok? {
          WindowSameShape(Index(a, 1, depthIndex).value, Index(b, 1, depthIndex).value, 1, range);
        }
      } else if Index(a, 0, timeIndex.value).Ok? {
        var a1 := Index(a, 0, timeIndex.value).value;
        var b1 := Index(b, 0, timeIndex.value).value;
        if Index(a1, 0, depthIndex).Ok? {
          WindowSameShape(Index(a1, 0, depthIndex).value, Index(b1, 0, depthIndex).value, 0, range);
        }
      }
    }
  }

  /** The shape of what `Selected` returns without `ij_range`: the variable's axes minus the indexed ones. */
  lemma SelectedShape<T>(a: NdArray<T>, timeIndex: Option<int>, depthIndex: int)
    requires a.Valid() && Selected(a, timeIndex, depthIndex, None).Ok?
    ensures var s := Selected(a, timeIndex, depthIndex, None).value.shape;
      && (a.Rank() == 3 && timeIndex.Some? ==> s == a.shape[1..])
      && (a.Rank() == 4 && timeIndex.None? ==> s == [a.shape[0], a.shape[2], a.shape[3]])
      && (a.Rank() == 4 && timeIndex.Some? ==> s == a.shape[2..])
      && (a.Rank() <= 2 || (a.Rank() == 3 && timeIndex.None?) ==> s == a.shape)
  {
    if a.Rank() == 3 && timeIndex.Some? {
      assert Drop(a.shape, 0) == a.shape[1..];
    } else if a.Rank() == 4 && timeIndex.None? {
      assert Drop(a.shape, 1) == [a.shape[0], a.shape[2], a.shape[3]];
    } else if a.Rank() == 4 {
      var b := Index(a, 0, timeIndex.value).value;
      assert b.shape == a.shape[1..];
      assert Drop(b.shape, 0) == a.shape[2..];
    }
  }

  /** One reported dimension per axis of what is selected from a variable. */
  lemma SelectedRank(v: NcVariable, t: Option<int>, depthIndex: int, range: Option<(int, int, int, int)>)
    requires v.Valid() && Selected(v.data, t, depthIndex, range).Ok?
    ensures |ReportedDims(v.dimensions, t)| == |Selected(v.data, t, depthIndex, range).value.shape|
  {
    if v.Rank() == 3 && t.Some? {
      assert |Index(v.data, 0, t.value).value.shape| == 2;
    } else if v.Rank() == 4 && t.None? {
      assert |Index(v.data, 1, depthIndex).value.shape| == 3;
    } else if v.Rank() == 4 {
      var b := Index(v.data, 0, t.value).value;
      assert |Index(b, 0, depthIndex).value.shape| == 2;
    }
  }

  /** Without `ij_range`, each reported dimension is declared with the length of its axis in what is selected. */
  lemma ReportedLengths(file: NcFile, v: NcVariable, t: Option<int>, depthIndex: int)
    requires v.Valid() && file.Conforms(v) && Selected(v.data, t, depthIndex, None).Ok?
    ensures var dims := ReportedDims(v.dimensions, t);
      forall k :: 0 <= k < |dims| ==> dims[k] in file.dimensions && file.dimensions[dims[k]] == Selected(v.data, t, depthIndex, None).value.shape[k]
  {
    SelectedShape(v.data, t, depthIndex);
  }

  /** The reported dimensions name the axes of the values read: one per axis, each with the axis's length when there is no `ij_range`. */
  lemma DimsMatchValues(file: NcFile, vblname: string, timeIndex: Option<int>, depthIndex: int, ijRange: Option<seq<int>>)
    requires file.Valid() && ReadVar(file, vblname, timeIndex, depthIndex, ijRange).Ok?
    ensures var r := ReadVar(file, vblname, timeIndex, depthIndex, ijRange).value;
      |r.dims| == |r.values.shape| && r.mask.shape == r.values.shape
    ensures var r := ReadVar(file, vblname, timeIndex, depthIndex, ijRange).value;
      ijRange.None? ==> forall k :: 0 <= k < |r.dims| ==> r.dims[k] in file.dimensions && file.dimensions[r.dims[k]] == r.values.shape[k]
  {
    var name := ExchangeNames(vblname, file.variables.Keys).value;
    var v := file.variables[name];
    var range := Unpack(ijRange).value;
    var t := EffectiveTimeIndex(v.Rank(), v.data.shape, timeIndex);
    SelectedSameShape(v.data, NdArray(v.data.shape, v.mask), t, depthIndex, range);
    SelectedRank(v, t, depthIndex, range);
    if ijRange.None? {
      assert file.Conforms(v);
      ReportedLengths(file, v, t, depthIndex);
    }
  }

  /** The time index and dimensions rule: rank 3 and 4 variables with one record read record 0 and drop the time axis from `dimensions`. */
  lemma SingleRecordDefault(dims: seq<string>, shape: seq<nat>)
    requires |dims| == |shape| && (|shape| == 3 || |shape| == 4) && shape[0] == 1
    ensures EffectiveTimeIndex(|shape|, shape, None) == Some(0)
    ensures |shape| == 3 ==> ReportedDims(dims, Some(0)) == dims[1..]
    ensures |shape| == 4 ==> ReportedDims(dims, Some(0)) == dims[2..]
  { }

  /** With several records and no time index, rank 3 keeps every dimension and rank 4 drops only the depth axis. */
  lemma NoTimeIndexDims(dims: seq<string>, shape: seq<nat>)
    requires |dims| == |shape| && (|shape| == 3 || |shape| == 4) && shape[0] != 1
    ensures EffectiveTimeIndex(|shape|, shape, None).None?
    ensures |shape| == 3 ==> ReportedDims(dims, None) == dims
    ensures |shape| == 4 ==> ReportedDims(dims, None) == [dims[0], dims[2], dims[3]]
  { }

  /** The attribute names and values `get_var` collects, with 'dimensions' appended last. */
  function ExtraAtts(v: NcVariable, dims: seq<string>): (seq<string>, seq<AttValue>)
    requires v.Valid()
  {
    (v.attributeNames + ["dimensions"], AttValues(v) + [Names(dims)])
  }

  /** `getattr(vbl0, att)` for each attribute name of the variable, in order. */
  function AttValues(v: NcVariable): seq<AttValue>
    requires v.Valid()
  {
    seq(|v.attributeNames|, i requires 0 <= i < |v.attributeNames| => v.attributes[v.attributeNames[i]])
  }

  /** The loop of `get_var` gathering the attribute values, one `getattr` per name. */
  method GatherAttributes(v: NcVariable) returns (attvals: seq<AttValue>)
    requires v.Valid()
    ensures |attvals| == |v.attributeNames|
    ensures forall i :: 0 <= i < |attvals| ==> attvals[i] == v.attributes[v.attributeNames[i]]
    ensures attvals == AttValues(v)
  {
    attvals := [];
    for k := 0 to |v.attributeNames|
      invariant |attvals| == k && forall i :: 0 <= i < k ==> attvals[i] == v.attributes[v.attributeNames[i]]
    {
      attvals := attvals + [v.attributes[v.attributeNames[k]]];
    }
  }

  /** The `dimensions` attribute of the result is the reported dimensions, whatever the variable's own attributes are. */
  lemma DimensionsAttribute(v: NcVariable, dims: seq<string>)
    requires v.Valid()
    ensures var (names, values) := ExtraAtts(v, dims);
      |names| == |values| && Assigned(names, values, |names|)["dimensions"] == Names(dims)
  {
    var (names, values) := ExtraAtts(v, dims);
    AssignedValues(names, values, |names|);
    assert names[|names| - 1] == "dimensions";
  }

  // ---------------------------------------------------------------- the reader

  /** One record's offset in the reader's unit: hours for "seconds" and "hours", days for "days"; other units add nothing. */
  method AppendOffset(unit: string, d: DateTime, ref: DateTime, tvs: seq<real>, units: Option<string>)
    returns (tvs': seq<real>, units': Option<string>)
    requires ValidDateTime(d) && ValidDateTime(ref)
    ensures tvs' == tvs + (if Offset(unit, d, ref).Some? then [Offset(unit, d, ref).value] else [])
    ensures units' == if Offset(unit, d, ref).Some? then TimeUnits(unit, 1) else units
  {
    tvs', units' := tvs, units;
    var offset := Offset(unit, d, ref);
    if unit == "seconds" || unit == "hours" {
      tvs' := tvs + [offset.value];
      units' := Some("hour");
    } else if unit == "days" {
      tvs' := tvs + [offset.value];
      units' := Some("day");
    }
  }

  /**
   * What the loop of `_set_time_info` holds after `i` raw values: the records so far,
   * their offsets from the first record, the offsets' unit and the first record.
   */
  ghost predicate Converted(c: Converter, num2date: (Converter, Float) -> Result<DateTime>, arr: seq<Float>, i: nat,
                            dts: seq<DateTime>, tvs: seq<real>, units: Option<string>, ref: Option<DateTime>)
    requires i <= |arr|
  {
    && Datetimes(c, num2date, arr[..i]) == Ok(dts)
    && (i == 0 ==> ref.None? && units.None? && tvs == [])
    && (i > 0 ==> ref == Some(dts[0]) && tvs == TimeValues(c.Units(), dts[0], dts) && units == TimeUnits(c.Units(), i))
  }

  /** Before the first value there are no records, offsets, unit or first record. */
  lemma ConvertedNone(c: Converter, num2date: (Converter, Float) -> Result<DateTime>, arr: seq<Float>)
    ensures Converted(c, num2date, arr, 0, [], [], None, None)
  {
    assert arr[..0] == [];
  }

  /** One more convertible value extends the records, and its offset (if its unit has one) extends the offsets. */
  lemma ConvertedStep(c: Converter, num2date: (Converter, Float) -> Result<DateTime>, arr: seq<Float>, i: nat,
                      dts: seq<DateTime>, tvs: seq<real>, units: Option<string>, ref: Option<DateTime>, d: DateTime)
    requires i < |arr| && Converted(c, num2date, arr, i, dts, tvs, units, ref)
    requires ConvertValue(c, num2date, arr[i]) == Ok(d)
    ensures var ref' := if i == 0 then Some(d) else ref;
      && ref'.Some? && ValidDateTime(ref'.value) && ValidDateTime(d)
      && var o := Offset(c.Units(), d, ref'.value);
      Converted(c, num2date, arr, i + 1, dts + [d],
                tvs + (if o.Some? then [o.value] else []),
                if o.Some? then TimeUnits(c.Units(), 1) else units, ref')
  {
    assert arr[..i + 1][..i] == arr[..i];
    var ref' := if i == 0 then Some(d) else ref;
    TimeValuesSnoc(c.Units(), ref'.value, dts, d);
  }

  /** A value that cannot be converted ends the records with its own error. */
  lemma ConvertedStops(c: Converter, num2date: (Converter, Float) -> Result<DateTime>, arr: seq<Float>, i: nat,
                       dts: seq<DateTime>, tvs: seq<real>, units: Option<string>, ref: Option<DateTime>)
    requires i < |arr| && Converted(c, num2date, arr, i, dts, tvs, units, ref)
    requires ConvertValue(c, num2date, arr[i]).Fail?
    ensures Records(c, num2date, arr) == Fail(ConvertValue(c, num2date, arr[i]).error)
  {
    var prefix := arr[..i + 1];
    assert prefix[..i] == arr[..i] && prefix[i] == arr[i];
    assert Datetimes(c, num2date, prefix) == Fail(ConvertValue(c, num2date, arr[i]).error);
    DatetimesFailedPrefix(c, num2date, arr, i + 1);
  }

  /** After the last value, the records are all of them and the offsets are taken from the first. */
  lemma ConvertedAll(c: Converter, num2date: (Converter, Float) -> Result<DateTime>, arr: seq<Float>,
                     dts: seq<DateTime>, tvs: seq<real>, units: Option<string>, ref: Option<DateTime>)
    requires Converted(c, num2date, arr, |arr|, dts, tvs, units, ref)
    ensures Records(c, num2date, arr) == Ok((dts, tvs, units, ref))
  {
    assert arr[..|arr|] == arr;
  }

  /** One pass of that loop: convert value `i`, then record it and its offset, or stop with its error. */
  method ConvertNext(c: Converter, num2date: (Converter, Float) -> Result<DateTime>, arr: seq<Float>, i: nat,
                     dts: seq<DateTime>, tvs: seq<real>, units: Option<string>, ref: Option<DateTime>)
    returns (r: Result<(seq<DateTime>, seq<real>, Option<string>, Option<DateTime>)>)
    requires i < |arr| && Converted(c, num2date, arr, i, dts, tvs, units, ref)
    ensures r.Fail? ==> Records(c, num2date, arr) == r
    ensures r.Ok? ==> Converted(c, num2date, arr, i + 1, r.value.0, r.value.1, r.value.2, r.value.3)
  {
    var dto := ConvertValue(c, num2date, arr[i]);
    if dto.Fail? {
      ConvertedStops(c, num2date, arr, i, dts, tvs, units, ref);
      return Fail(dto.error);
    }
    ConvertedStep(c, num2date, arr, i, dts, tvs, units, ref, dto.value);
    var ref' := if i == 0 then Some(dto.value) else ref;
    var tvs', units' := AppendOffset(c.Units(), dto.value, ref'.value, tvs, units);
    return Ok((dts + [dto.value], tvs', units', ref'));
  }

  /**
   * The loop of `_set_time_info` over the raw time values: the records, their offsets
   * from the first record, the offsets' unit and the first record.
   */
  method ConvertRecords(c: Converter, num2date: (Converter, Float) -> Result<DateTime>, arr: seq<Float>)
    returns (r: Result<(seq<DateTime>, seq<real>, Option<string>, Option<DateTime>)>)
    ensures r == Records(c, num2date, arr)
  {
    var dts: seq<DateTime> := [];
    var tvs: seq<real> := [];
    var units: Option<string> := None;
    var ref: Option<DateTime> := None;
    var i := 0;
    ConvertedNone(c, num2date, arr);
    while i < |arr|
      invariant 0 <= i <= |arr|
      invariant Converted(c, num2date, arr, i, dts, tvs, units, ref)
    {
      var next := ConvertNext(c, num2date, arr, i, dts, tvs, units, ref);
      if next.Fail? {
        return next;
      }
      dts, tvs, units, ref := next.value.0, next.value.1, next.value.2, next.value.3;
      i := i + 1;
    }
    ConvertedAll(c, num2date, arr, dts, tvs, units, ref);
    return Ok((dts, tvs, units, ref));
  }

  class GeoDataset {
    const filePath: string
    const area: Area
    var timeName: Option<string>
    var timeDim: bool
    var timeConverter: Option<Converter>
    var datetimes: Option<seq<DateTime>>
    var timevalues: Option<seq<real>>
    var timeunits: Option<string>
    var reftime: Option<DateTime>
    var numberOfTimeRecords: Option<nat>
    /** Whether the object has a `datetimes` attribute at all: only `_set_time_info` gives it one. */
    var datetimesSet: bool

    /** Every record is a proper date, and there are none before `_set_time_info` runs. */
    predicate Valid()
      reads this
    {
      && (datetimes.Some? ==> forall i :: 0 <= i < |datetimes.value| ==> ValidDateTime(datetimes.value[i]))
      && (!datetimesSet ==> datetimes.None?)
    }

    function Info(): TimeInfo
      reads this
    {
      TimeInfo(timeName, timeConverter, datetimes, timevalues, timeunits, reftime, numberOfTimeRecords)
    }

    constructor Init(filePath: string, area: Area)
      ensures this.filePath == filePath && this.area == area && Info() == NoTimeInfo && !timeDim && !datetimesSet
    {
      this.filePath := filePath;
      this.area := area;
      datetimesSet := false;
      timeName, timeDim, timeConverter, datetimes := None, false, None, None;
      timevalues, timeunits, reftime, numberOfTimeRecords := None, None, None, None;
    }

    /** `_set_time_info`. */
    method SetTimeInfo(file: NcFile, num2date: (Converter, Float) -> Result<DateTime>) returns (r: Result<()>)
      modifies this
      ensures r.Ok? <==> TimeInfoOf(file, num2date).Ok?
      ensures r.Fail? ==> r.error == TimeInfoOf(file, num2date).error
      ensures r.Ok? ==> Info() == TimeInfoOf(file, num2date).value && timeDim == timeName.Some? && datetimesSet && Valid()
    {
      timeName := GetTimeName(file.dimensions.Keys);
      timeDim := timeName.Some?;
      if !timeDim {
        datetimes, datetimesSet := None, true;
        timeConverter, timevalues, timeunits, reftime, numberOfTimeRecords := None, None, None, None, None;
        return Ok(());
      }
      var name := timeName.value;
      if name !in file.variables {
        return Fail(KeyError(name));
      }
      var time := file.variables[name];
      var converter := GetTimeConverter(time);
      if converter.Fail? {
        return Fail(converter.error);
      }
      var c := converter.value;
      var rows := TimeRows(time.data.cells);
      if rows.Fail? {
        return Fail(rows.error);
      }
      var arr := rows.value;
      var records := ConvertRecords(c, num2date, arr);
      if records.Fail? {
        return Fail(records.error);
      }
      var (dts, tvs, units, ref) := records.value;
      TimeInfoOfAxis(file, num2date, name, c, dts);
      timeConverter := Some(c);
      datetimes, datetimesSet := Some(dts), true;
      timevalues := Some(tvs);
      timeunits := units;
      reftime := ref;
      numberOfTimeRecords := Some(|dts|);
      return Ok(());
    }

    /** `GeoDataset(file_path)`: `_load_area`, then (in the geodataset copy, not the regridder's) `_set_time_info`. */
    static method Open(filePath: string, file: NcFile, loadArea: Result<Area>, num2date: (Converter, Float) -> Result<DateTime>, setTimeInfo: bool)
      returns (r: Result<GeoDataset>)
      ensures loadArea.Fail? ==> r == Fail(loadArea.error)
      ensures loadArea.Ok? && !setTimeInfo ==> r.Ok? && r.value.Info() == NoTimeInfo && !r.value.datetimesSet && r.value.Valid()
      ensures loadArea.Ok? && setTimeInfo ==>
        (r.Ok? <==> TimeInfoOf(file, num2date).Ok?)
        && (r.Fail? ==> r.error == TimeInfoOf(file, num2date).error)
        && (r.Ok? ==> r.value.Info() == TimeInfoOf(file, num2date).value && r.value.datetimesSet && r.value.Valid())
      ensures r.Ok? ==> fresh(r.value) && r.value.filePath == filePath && r.value.area == loadArea.value
    {
      if loadArea.Fail? {
        return Fail(loadArea.error);
      }
      var g := new GeoDataset.Init(filePath, loadArea.value);
      if setTimeInfo {
        var t := g.SetTimeInfo(file, num2date);
        if t.Fail? {
          return Fail(t.error);
        }
      }
      return Ok(g);
    }

    /** `get_var(vblname, time_index, depth_index, ij_range)`. */
    method GetVar(file: NcFile, vblname: string, timeIndex: Option<int>, depthIndex: int, ijRange: Option<seq<int>>)
      returns (r: Result<VarObject>)
      requires file.Valid()
      ensures r.Ok? <==> ReadVar(file, vblname, timeIndex, depthIndex, ijRange).Ok?
      ensures r.Fail? ==> r.error == ReadVar(file, vblname, timeIndex, depthIndex, ijRange).error
      ensures r.Ok? ==> var read := ReadVar(file, vblname, timeIndex, depthIndex, ijRange).value;
        && fresh(r.value) && r.value.Valid()
        && r.value.shape == read.values.shape && r.value.values == read.values.cells
        && r.value.mask == read.mask.cells
        && "dimensions" in r.value.attributes && r.value.attributes["dimensions"] == Names(read.dims)
    {
      var name :- ExchangeNames(vblname, file.variables.Keys);
      var vbl0 := file.variables[name];
      var attlist := vbl0.attributeNames;
      var attvals := GatherAttributes(vbl0);
      var range :- Unpack(ijRange);
      var t, dims := RankBranches(vbl0.dimensions, vbl0.data.shape, timeIndex);
      var vals :- Selected(vbl0.data, t, depthIndex, range);
      var mask :- Selected(NdArray(vbl0.data.shape, vbl0.mask), t, depthIndex, range);
      assert ReadVar(file, vblname, timeIndex, depthIndex, ijRange) == Ok(VarRead(vals, mask, dims));
      DimsMatchValues(file, vblname, timeIndex, depthIndex, ijRange);
      var names := attlist + ["dimensions"];
      var values := attvals + [Names(dims)];
      DimensionsAttribute(vbl0, dims);
      r := VarObject.Create(Values(vals, Some(mask.cells)), None, Some((names, values)));
    }

    /**
     * `nearestDate(pivot)`: the record closest to `pivot` and its index; AttributeError when
     * `_set_time_info` never ran, TypeError when it found no time axis.
     */
    function NearestDate(pivot: DateTime): (r: Result<(DateTime, nat)>)
      reads this
      requires Valid() && ValidDateTime(pivot)
      ensures !datetimesSet ==> r == Fail(AttributeError("datetimes"))
      ensures datetimesSet && datetimes.None? ==> r == Fail(TypeError)
      ensures datetimes.Some? ==> (r.Fail? <==> datetimes.value == [])
      ensures r.Ok? ==> var (dto, i) := r.value;
        && i < |datetimes.value| && datetimes.value[i] == dto
        && (forall j :: 0 <= j < |datetimes.value| ==> Abs(Seconds(dto) - Seconds(pivot)) <= Abs(Seconds(datetimes.value[j]) - Seconds(pivot)))
        && (forall j :: 0 <= j < i ==> Abs(Seconds(datetimes.value[j]) - Seconds(pivot)) > Abs(Seconds(dto) - Seconds(pivot)))
    {
      if !datetimesSet then Fail(AttributeError("datetimes"))
      else match datetimes
      case None => Fail(TypeError)
      case Some(dts) =>
        if dts == [] then Nearest(dts, DistanceTo(pivot))
        else
          NearestInSeconds(dts, pivot);
          Nearest(dts, DistanceTo(pivot))
    }
  }

  /** The time attributes of a file whose time variable converts to records `dts`. */
  lemma TimeInfoOfAxis(file: NcFile, num2date: (Converter, Float) -> Result<DateTime>, name: string, c: Converter, dts: seq<DateTime>)
    requires FirstPresent(TimeNameCandidates, file.dimensions.Keys) == Some(name) && name in file.variables
    requires TimeConverter(file.variables[name]) == Ok(c)
    requires TimeRows(file.variables[name].data.cells).Ok?
    requires Datetimes(c, num2date, TimeRows(file.variables[name].data.cells).value) == Ok(dts)
    ensures TimeInfoOf(file, num2date) == Ok(AxisInfo(name, c, dts))
  { }

}
