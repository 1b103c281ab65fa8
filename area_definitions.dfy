/**
 * geodataset/area_definitions.py and the regridder's copy of
 * `CustomAreaDefinitionBase` with its `MooringAreaDefinition`: a grid's
 * area definition built from two corner pixels of its longitude/latitude
 * variables.  The corners are projected (the projection is a parameter),
 * the grid size is read from two dimensions, the extent is derived by
 * moving the corner pixel centres half a cell, and the result is handed
 * to pyresample's `AreaDefinition.from_extent` (here the `Area` record).
 */
module Areas {
  import opened Outcomes
  import opened NdArrays
  import opened NetCdf

  /** pyresample's `AreaDefinition`: id, projection string, shape (rows, columns) and extent (x_ll, y_ll, x_ur, y_ur). */
  datatype Area = Area(areaId: string, projection: string, shape: (nat, nat), extent: (real, real, real, real))

  /** What a class does in `_set_extent`: the base raises, Moorings computes, the regridder's copy has no such method. */
  datatype ExtentRule = NotImplemented | HalfCellShift | Missing

  /** The class-level settings a `CustomAreaDefinitionBase` subclass supplies. */
  datatype Config = Config(
    className: string,
    lonName: string, latName: string,
    xDim: string, yDim: string,
    llRow: int, llCol: int, urRow: int, urCol: int,
    proj4: Option<string>,
    extentRule: ExtentRule)

  /** `MooringsAreaDefinition`: lower left is the last row's first column, upper right the first row's last column. */
  const MooringsConfig := Config(
    "MooringsAreaDefinition", "longitude", "latitude", "x", "y", -1, 0, 0, -1,
    Some("+proj=stere +a=6378273.0 +b=6356889.448910593 +lat_0=90 +lat_ts=60 +lon_0=-45"),
    HalfCellShift)

  /** The regridder's `MooringAreaDefinition`: the same corners, but neither a `proj4_string` nor a `_set_extent`. */
  const RegridderMooringsConfig := Config(
    "MooringAreaDefinition", "longitude", "latitude", "x", "y", -1, 0, 0, -1, None, Missing)

  /** The projected centres of the lower-left and upper-right corner pixels. */
  datatype Corners = Corners(xLl: real, yLl: real, xUr: real, yUr: real)

  /** What `_set_extent` derives from the corners and the grid size. */
  datatype Extent = Extent(
    width: real, height: real, cellSizeX: real, cellSizeY: real,
    xCornerLl: real, xCornerUr: real, yCornerLl: real, yCornerUr: real)
  {
    /** `area_extent`: (x_corner_ll, y_corner_ll, x_corner_ur, y_corner_ur), in that order and never reordered. */
    function Tuple(): (real, real, real, real) {
      (xCornerLl, yCornerLl, xCornerUr, yCornerUr)
    }
  }

  /** One cell `nc[name][row, col]` of a two-dimensional variable; IndexError for a missing variable, another rank or an index out of range. */
  function CellAt(file: NcFile, name: string, row: int, col: int): (r: Result<Float>)
    requires file.Valid()
    ensures r.Fail? ==> r.error == IndexError
  {
    if name !in file.variables then Fail(IndexError)
    else
      var v := file.variables[name];
      if v.Rank() != 2 then Fail(IndexError)
      else
        var i :- PyIndex(v.data.shape[0], row);
        var j :- PyIndex(v.data.shape[1], col);
        Ok(At(v.data.cells, v.data.shape, [i, j]))
  }

  /** `_set_corner_coordinates`: the projections of the pixels at (ll_row, ll_col) and (ur_row, ur_col). */
  function CornersOf(config: Config, file: NcFile, project: (real, real) -> (real, real)): (r: Result<Corners>)
    requires file.Valid()
    ensures var lonLl, lonUr := CellAt(file, config.lonName, config.llRow, config.llCol), CellAt(file, config.lonName, config.urRow, config.urCol);
      var latLl, latUr := CellAt(file, config.latName, config.llRow, config.llCol), CellAt(file, config.latName, config.urRow, config.urCol);
      && (r.Ok? <==> lonLl.Ok? && lonUr.Ok? && latLl.Ok? && latUr.Ok?
                     && lonLl.value.Finite? && lonUr.value.Finite? && latLl.value.Finite? && latUr.value.Finite?)
      && (r.Ok? ==> (r.value.xLl, r.value.yLl) == project(lonLl.value.x, latLl.value.x)
                    && (r.value.xUr, r.value.yUr) == project(lonUr.value.x, latUr.value.x))
    ensures r.Fail? ==> r.error == IndexError || r.error == NonFinite
  {
    var lonLl :- CellAt(file, config.lonName, config.llRow, config.llCol);
    var lonUr :- CellAt(file, config.lonName, config.urRow, config.urCol);
    var latLl :- CellAt(file, config.latName, config.llRow, config.llCol);
    var latUr :- CellAt(file, config.latName, config.urRow, config.urCol);
    if !(lonLl.Finite? && lonUr.Finite? && latLl.Finite? && latUr.Finite?) then Fail(NonFinite)
    else
      var ll := project(lonLl.x, latLl.x);
      var ur := project(lonUr.x, latUr.x);
      Ok(Corners(ll.0, ll.1, ur.0, ur.1))
  }

  /** `_set_shape`: (size of the y dimension, size of the x dimension); KeyError for an undeclared dimension. */
  function GridShape(config: Config, file: NcFile): (r: Result<(nat, nat)>)
    ensures r.Fail? <==> config.xDim !in file.dimensions || config.yDim !in file.dimensions
    ensures r.Ok? ==> r.value == (file.dimensions[config.yDim], file.dimensions[config.xDim])
  {
    if config.xDim !in file.dimensions then Fail(KeyError(config.xDim))
    else if config.yDim !in file.dimensions then Fail(KeyError(config.yDim))
    else Ok((file.dimensions[config.yDim], file.dimensions[config.xDim]))
  }

  /**
   * Moorings' `_set_extent` (and the regridder's `_calculate_corner_and_extent`): cell size is span/(n-1),
   * and every edge is the pixel centre moved by half a cell.  A one-cell axis divides by zero.
   */
  function HalfCellExtent(c: Corners, nx: nat, ny: nat): (r: Result<Extent>)
    ensures r.Fail? <==> nx == 1 || ny == 1
    ensures r.Fail? ==> r.error == NonFinite
  {
    if nx == 1 || ny == 1 then Fail(NonFinite)
    else
      var width := c.xUr - c.xLl;
      var height := c.yLl - c.yUr;
      var csx := width / (nx - 1) as real;
      var csy := height / (ny - 1) as real;
      Ok(Extent(width, height, csx, csy, c.xLl - csx / 2.0, c.xUr + csx / 2.0, c.yLl - csy / 2.0, c.yUr + csy / 2.0))
  }

  function ExtentFor(rule: ExtentRule, c: Corners, nx: nat, ny: nat): Result<Extent> {
    match rule
    case NotImplemented => Fail(NotImplementedError)
    case HalfCellShift => HalfCellExtent(c, nx, ny)
    case Missing => Fail(AttributeError("_set_extent"))
  }

  /** `_set_area_id`. */
  function AreaId(className: string): string {
    "id for " + className + " object"
  }

  /** Construction followed by `get_area()`. */
  function Build(config: Config, file: NcFile, project: (real, real) -> (real, real)): (r: Result<Area>)
    requires file.Valid()
    ensures config.proj4.None? ==> r == Fail(AttributeError("proj4_string"))
    ensures r.Ok? ==> config.extentRule == HalfCellShift && CornersOf(config, file, project).Ok? && GridShape(config, file).Ok?
    ensures r.Ok? ==>
      && r.value.areaId == AreaId(config.className) && r.value.projection == config.proj4.value
      && config.xDim in file.dimensions && config.yDim in file.dimensions
      && r.value.shape == (file.dimensions[config.yDim], file.dimensions[config.xDim])
  {
    if config.proj4.None? then Fail(AttributeError("proj4_string"))
    else
      var c :- CornersOf(config, file, project);
      var shape :- GridShape(config, file);
      var e :- ExtentFor(config.extentRule, c, shape.1, shape.0);
      Ok(Area(AreaId(config.className), config.proj4.value, shape, e.Tuple()))
  }

  /** The steps of `_create_area`, in the order it runs them. */
  datatype Step = SetCornerCoordinates | SetShape | SetExtent | SetAreaId

  const AllSteps: seq<Step> := [SetCornerCoordinates, SetShape, SetExtent, SetAreaId]

  /** A `CustomAreaDefinitionBase` instance with the settings of its class. */
  class CustomAreaDefinition {
    const config: Config
    const filePath: string
    var xUr: real
    var xLl: real
    var yUr: real
    var yLl: real
    var numberOfCellsX: nat
    var numberOfCellsY: nat
    var shape: (nat, nat)
    var width: real
    var height: real
    var sceneLengthX: real
    var sceneLengthY: real
    var cellSizeX: real
    var cellSizeY: real
    var xCornerLl: real
    var xCornerUr: real
    var yCornerLl: real
    var yCornerUr: real
    var areaExtent: (real, real, real, real)
    var areaId: string
    /** The `_create_area` steps that have started, in order. */
    ghost var steps: seq<Step>

    /** The object before `_create_area`: settings and path only. */
    constructor Init(config: Config, filePath: string)
      ensures this.config == config && this.filePath == filePath && steps == []
    {
      this.config := config;
      this.filePath := filePath;
      steps := [];
    }

    function CornersNow(): Corners
      reads this
    {
      Corners(xLl, yLl, xUr, yUr)
    }

    function ExtentNow(): Extent
      reads this
    {
      Extent(width, height, cellSizeX, cellSizeY, xCornerLl, xCornerUr, yCornerLl, yCornerUr)
    }

    /** `_set_corner_coordinates`. */
    method SetCornerCoordinates(file: NcFile, project: (real, real) -> (real, real)) returns (r: Result<()>)
      requires file.Valid()
      modifies this
      ensures steps == old(steps) + [Step.SetCornerCoordinates]
      ensures r.Ok? <==> CornersOf(config, file, project).Ok?
      ensures r.Fail? ==> r.error == CornersOf(config, file, project).error && CornersNow() == old(CornersNow())
      ensures r.Ok? ==> CornersNow() == CornersOf(config, file, project).value
      ensures shape == old(shape) && numberOfCellsX == old(numberOfCellsX) && numberOfCellsY == old(numberOfCellsY)
    {
      steps := steps + [Step.SetCornerCoordinates];
      var c := CornersOf(config, file, project);
      if c.Fail? {
        return Fail(c.error);
      }
      xUr := c.value.xUr;
      xLl := c.value.xLl;
      yUr := c.value.yUr;
      yLl := c.value.yLl;
      return Ok(());
    }

    /** `_set_shape`. */
    method SetShape(file: NcFile) returns (r: Result<()>)
      modifies this
      ensures steps == old(steps) + [Step.SetShape]
      ensures r.Ok? <==> GridShape(config, file).Ok?
      ensures r.Fail? ==> r.error == GridShape(config, file).error
      ensures r.Ok? ==> shape == GridShape(config, file).value && numberOfCellsX == shape.1 && numberOfCellsY == shape.0
      ensures CornersNow() == old(CornersNow())
    {
      steps := steps + [Step.SetShape];
      if config.xDim !in file.dimensions {
        return Fail(KeyError(config.xDim));
      }
      numberOfCellsX := file.dimensions[config.xDim];
      if config.yDim !in file.dimensions {
        return Fail(KeyError(config.yDim));
      }
      numberOfCellsY := file.dimensions[config.yDim];
      shape := (numberOfCellsY, numberOfCellsX);
      return Ok(());
    }

    /** Moorings' extent computation, shared by `_set_extent` and the regridder's `_calculate_corner_and_extent`. */
    method HalfCell() returns (r: Result<()>)
      modifies this
      ensures r.Ok? <==> old(numberOfCellsX) != 1 && old(numberOfCellsY) != 1
      ensures r.Fail? ==> r.error == NonFinite
      ensures r.Ok? ==> ExtentNow() == HalfCellExtent(old(CornersNow()), old(numberOfCellsX), old(numberOfCellsY)).value
      ensures r.Ok? ==> areaExtent == ExtentNow().Tuple()
      ensures r.Ok? ==> sceneLengthX == width && sceneLengthY == height
      ensures CornersNow() == old(CornersNow()) && shape == old(shape) && steps == old(steps)
      ensures numberOfCellsX == old(numberOfCellsX) && numberOfCellsY == old(numberOfCellsY)
    {
      if numberOfCellsX == 1 || numberOfCellsY == 1 {
        return Fail(NonFinite);
      }
      var e := HalfCellExtent(CornersNow(), numberOfCellsX, numberOfCellsY).value;
      width, height := e.width, e.height;
      sceneLengthX, sceneLengthY := e.width, e.height;
      cellSizeX, cellSizeY := e.cellSizeX, e.cellSizeY;
      xCornerLl, xCornerUr := e.xCornerLl, e.xCornerUr;
      yCornerLl, yCornerUr := e.yCornerLl, e.yCornerUr;
      areaExtent := e.Tuple();
      return Ok(());
    }

    /** `_set_extent`, as the class defines it (or fails to). */
    method SetExtentStep() returns (r: Result<()>)
      modifies this
      ensures steps == old(steps) + [Step.SetExtent]
      ensures var e := ExtentFor(config.extentRule, old(CornersNow()), old(numberOfCellsX), old(numberOfCellsY));
        && (r.Ok? <==> e.Ok?)
        && (r.Fail? ==> r.error == e.error)
        && (r.Ok? ==> ExtentNow() == e.value && areaExtent == e.value.Tuple())
      ensures CornersNow() == old(CornersNow()) && shape == old(shape)
      ensures numberOfCellsX == old(numberOfCellsX) && numberOfCellsY == old(numberOfCellsY)
    {
      steps := steps + [Step.SetExtent];
      match config.extentRule
      case NotImplemented =>
        return Fail(NotImplementedError);
      case Missing =>
        return Fail(AttributeError("_set_extent"));
      case HalfCellShift =>
        r := HalfCell();
    }

    /** The regridder's `_calculate_corner_and_extent`: never called by construction; the same extent as Moorings' `_set_extent`. */
    method CalculateCornerAndExtent() returns (r: Result<()>)
      modifies this
      ensures r.Ok? <==> old(numberOfCellsX) != 1 && old(numberOfCellsY) != 1
      ensures r.Ok? ==> ExtentNow() == ExtentFor(HalfCellShift, old(CornersNow()), old(numberOfCellsX), old(numberOfCellsY)).value
      ensures r.Ok? ==> areaExtent == ExtentNow().Tuple()
      ensures r.Ok? ==> sceneLengthX == old(xUr) - old(xLl) && sceneLengthY == old(yLl) - old(yUr)
      ensures CornersNow() == old(CornersNow()) && shape == old(shape) && steps == old(steps)
    {
      r := HalfCell();
    }

    /** `_set_area_id`. */
    method SetAreaIdStep()
      modifies this
      ensures steps == old(steps) + [Step.SetAreaId]
      ensures areaId == AreaId(config.className)
      ensures CornersNow() == old(CornersNow()) && shape == old(shape)
      ensures ExtentNow() == old(ExtentNow()) && areaExtent == old(areaExtent)
    {
      steps := steps + [Step.SetAreaId];
      areaId := "id for " + config.className + " object";
    }

    /** `get_area()`. */
    function GetArea(): Area
      reads this
      requires config.proj4.Some?
    {
      Area(areaId, config.proj4.value, shape, areaExtent)
    }

    /** `_create_area`: corners, shape, extent, id, in that order, stopping at the first that raises. */
    method CreateArea(file: NcFile, project: (real, real) -> (real, real)) returns (r: Result<()>)
      requires file.Valid() && config.proj4.Some?
      modifies this
      ensures r.Ok? <==> Build(config, file, project).Ok?
      ensures r.Fail? ==> r.error == Build(config, file, project).error
      ensures r.Ok? ==> GetArea() == Build(config, file, project).value
      ensures r.Ok? ==> steps == old(steps) + AllSteps
      ensures r.Fail? ==> exists n :: 1 <= n <= 3 && steps == old(steps) + AllSteps[..n]
    {
      var c := SetCornerCoordinates(file, project);
      if c.Fail? {
        assert steps == old(steps) + AllSteps[..1];
        return c;
      }
      var s := SetShape(file);
      if s.Fail? {
        assert steps == old(steps) + AllSteps[..2];
        return s;
      }
      var e := SetExtentStep();
      if e.Fail? {
        assert steps == old(steps) + AllSteps[..3];
        return e;
      }
      SetAreaIdStep();
      return Ok(());
    }

    /** `CustomAreaDefinitionBase(file_path)`: needs the class's `proj4_string`, then runs `_create_area`. */
    static method Create(config: Config, filePath: string, file: NcFile, project: (real, real) -> (real, real))
      returns (r: Result<CustomAreaDefinition>)
      requires file.Valid()
      ensures r.Ok? <==> Build(config, file, project).Ok?
      ensures r.Fail? ==> r.error == Build(config, file, project).error
      ensures r.Ok? ==> fresh(r.value) && r.value.config == config && r.value.config.proj4.Some?
      ensures r.Ok? ==> r.value.GetArea() == Build(config, file, project).value
      ensures r.Ok? ==> r.value.steps == AllSteps
    {
      if config.proj4.None? {
        return Fail(AttributeError("proj4_string"));
      }
      var a := new CustomAreaDefinition.Init(config, filePath);
      var created := a.CreateArea(file, project);
      if created.Fail? {
        return Fail(created.error);
      }
      return Ok(a);
    }
  }

  /** The spans are whole multiples of the cell sizes: the x edges lie n cells apart, the y edges a cell less than the height. */
  lemma ExtentSpans(c: Corners, nx: nat, ny: nat)
    requires nx != 1 && ny != 1
    ensures var r := HalfCellExtent(c, nx, ny);
      && r.Ok?
      && r.value.width == c.xUr - c.xLl && r.value.height == c.yLl - c.yUr
      && r.value.width == (nx - 1) as real * r.value.cellSizeX
      && r.value.height == (ny - 1) as real * r.value.cellSizeY
      && r.value.xCornerUr - r.value.xCornerLl == nx as real * r.value.cellSizeX
      && r.value.yCornerLl - r.value.yCornerUr == r.value.height - r.value.cellSizeY
  {
    var e := HalfCellExtent(c, nx, ny).value;
    var dx := (nx - 1) as real;
    var dy := (ny - 1) as real;
    assert dx != 0.0 && dy != 0.0;
    assert e.cellSizeX * dx == e.width;
    assert e.cellSizeY * dy == e.height;
  }

  /** The extent fails exactly on a one-cell axis, where the source divides by zero. */
  lemma ExtentFails(c: Corners, nx: nat, ny: nat)
    ensures HalfCellExtent(c, nx, ny).Fail? <==> nx == 1 || ny == 1
  { }

  /**
   * Where the edges fall: the x edges lie half a cell outside the corner pixel centres, while the
   * y edges lie half a cell inside them (towards the other corner), whichever way y runs.
   */
  lemma CornerPlacement(c: Corners, nx: nat, ny: nat)
    requires nx >= 2 && ny >= 2
    ensures var e := HalfCellExtent(c, nx, ny).value;
      && (c.xLl < c.xUr ==> e.xCornerLl < c.xLl && c.xUr < e.xCornerUr)
      && (c.yLl > c.yUr ==> c.yUr < e.yCornerUr <= e.yCornerLl < c.yLl)
      && (c.yLl < c.yUr ==> c.yLl < e.yCornerLl && e.yCornerUr < c.yUr)
  {
    var e := HalfCellExtent(c, nx, ny).value;
    var k := (ny - 1) as real;
    if c.yLl > c.yUr {
      var h := c.yLl - c.yUr;
      assert e.cellSizeY == h / k && h / k > 0.0;
      assert h / k <= h by {
        var q := h / k;
        assert q * k == h;
        assert q > 0.0 && k - 1.0 >= 0.0;
        assert q * (k - 1.0) >= 0.0;
      }
    }
  }

  /** Moorings' corners are the projections of the last row's first cell and the first row's last cell. */
  lemma MooringsCorners(file: NcFile, project: (real, real) -> (real, real))
    requires file.Valid()
    requires "longitude" in file.variables && "latitude" in file.variables
    requires file.variables["longitude"].Rank() == 2 && file.variables["latitude"].Rank() == 2
    requires var lon := file.variables["longitude"].data; var lat := file.variables["latitude"].data;
      lon.shape == lat.shape && lon.shape[0] > 0 && lon.shape[1] > 0
    ensures var lon := file.variables["longitude"].data; var lat := file.variables["latitude"].data;
      var rows := lon.shape[0]; var cols := lon.shape[1];
      CellAt(file, "longitude", MooringsConfig.llRow, MooringsConfig.llCol) == Ok(At(lon.cells, lon.shape, [rows - 1, 0]))
      && CellAt(file, "longitude", MooringsConfig.urRow, MooringsConfig.urCol) == Ok(At(lon.cells, lon.shape, [0, cols - 1]))
      && CellAt(file, "latitude", MooringsConfig.llRow, MooringsConfig.llCol) == Ok(At(lat.cells, lat.shape, [rows - 1, 0]))
      && CellAt(file, "latitude", MooringsConfig.urRow, MooringsConfig.urCol) == Ok(At(lat.cells, lat.shape, [0, cols - 1]))
  { }

  /** With finite corner cells, Moorings' corners are the projected cells, lower left first. */
  lemma MooringsCornersProjected(file: NcFile, project: (real, real) -> (real, real))
    requires file.Valid()
    requires "longitude" in file.variables && "latitude" in file.variables
    requires file.variables["longitude"].Rank() == 2 && file.variables["latitude"].Rank() == 2
    requires var lon := file.variables["longitude"].data; var lat := file.variables["latitude"].data;
      lon.shape == lat.shape && lon.shape[0] > 0 && lon.shape[1] > 0
    requires var lon := file.variables["longitude"].data; var lat := file.variables["latitude"].data;
      var rows := lon.shape[0]; var cols := lon.shape[1];
      && At(lon.cells, lon.shape, [rows - 1, 0]).Finite? && At(lon.cells, lon.shape, [0, cols - 1]).Finite?
      && At(lat.cells, lat.shape, [rows - 1, 0]).Finite? && At(lat.cells, lat.shape, [0, cols - 1]).Finite?
    ensures var lon := file.variables["longitude"].data; var lat := file.variables["latitude"].data;
      var rows := lon.shape[0]; var cols := lon.shape[1];
      var ll := project(At(lon.cells, lon.shape, [rows - 1, 0]).x, At(lat.cells, lat.shape, [rows - 1, 0]).x);
      var ur := project(At(lon.cells, lon.shape, [0, cols - 1]).x, At(lat.cells, lat.shape, [0, cols - 1]).x);
      CornersOf(MooringsConfig, file, project) == Ok(Corners(ll.0, ll.1, ur.0, ur.1))
  {
    MooringsCorners(file, project);
  }

  /** A Moorings area is built exactly when corners and shape can be read and neither axis has one cell; it has the grid's shape. */
  lemma MooringsBuild(file: NcFile, project: (real, real) -> (real, real))
    requires file.Valid()
    ensures var r := Build(MooringsConfig, file, project);
      (r.Ok? <==> (CornersOf(MooringsConfig, file, project).Ok? && GridShape(MooringsConfig, file).Ok?
        && file.dimensions["x"] != 1 && file.dimensions["y"] != 1))
    ensures var r := Build(MooringsConfig, file, project);
      (r.Ok? ==> (r.value.shape == (file.dimensions["y"], file.dimensions["x"])
        && r.value.areaId == AreaId(MooringsConfig.className)
        && r.value.extent == HalfCellExtent(CornersOf(MooringsConfig, file, project).value, file.dimensions["x"], file.dimensions["y"]).value.Tuple()))
  {
    var c := CornersOf(MooringsConfig, file, project);
    var g := GridShape(MooringsConfig, file);
    if c.Ok? && g.Ok? {
      assert Build(MooringsConfig, file, project) == (
        var e :- HalfCellExtent(c.value, g.value.1, g.value.0);
        Ok(Area(AreaId(MooringsConfig.className), MooringsConfig.proj4.value, g.value, e.Tuple())));
    }
  }

  /** Building a Moorings area raises IndexError exactly when its corner cells cannot be read. */
  lemma MooringsIndexError(file: NcFile, project: (real, real) -> (real, real))
    requires file.Valid()
    ensures Build(MooringsConfig, file, project) == Fail(IndexError) <==> CornersOf(MooringsConfig, file, project) == Fail(IndexError)
  { }

  /** A class that keeps the base `_set_extent` never yields an area. */
  lemma BaseNeverBuilds(config: Config, file: NcFile, project: (real, real) -> (real, real))
    requires file.Valid() && config.extentRule == NotImplemented
    ensures Build(config, file, project).Fail?
    ensures CornersOf(config, file, project).Ok? && GridShape(config, file).Ok? && config.proj4.Some?
      ==> Build(config, file, project) == Fail(NotImplementedError)
  { }

  /** The regridder's Moorings area definition always raises, and never BadAreaDefinition. */
  lemma RegridderMooringsNeverBuilds(file: NcFile, project: (real, real) -> (real, real))
    requires file.Valid()
    ensures Build(RegridderMooringsConfig, file, project) == Fail(AttributeError("proj4_string"))
  { }
}
