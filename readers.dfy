/**
 * The reader classes built on `GeoDataset`, described by how their
 * `_load_area` obtains the area: pyresample's CF loader, a format module's
 * filename guard in front of an area-definition helper
 * (`nextsim_moorings.py`, `topaz4_arc.py`, `amsr2_ice_conc.py`,
 * `asrfinal.py`, `metno_arc_l4.py`), the unguarded helper of
 * `customized_geo_dataset.py`, or the regridder's Moorings class.  The
 * helpers other than `MooringsAreaDefinition` are not part of this model:
 * their outcome is a parameter.
 */
module Readers {
  import opened Outcomes
  import opened Strings
  import opened NetCdf
  import opened DateTemplates
  import opened TimeUtils
  import opened Areas
  import opened GeoDatasets
  import Datasets

  /** The filename test a format module makes before it builds the area. */
  datatype Guard = StartsWithName(prefix: string) | ContainsName(part: string)

  /** The test is made on `os.path.basename(file_path)`. */
  predicate Admits(g: Guard, path: string) {
    match g
    case StartsWithName(prefix) => StartsWith(Basename(path), prefix)
    case ContainsName(part) => Contains(Basename(path), part)
  }

  /** How a reader class's `_load_area` obtains the area. */
  datatype Loader =
    | CfArea                                  // GeoDataset: `load_cf_area`
    | Guarded(guard: Guard, helper: string)   // a format module
    | Customized(areaHelper: Option<string>)  // a CustomizedGeoDataset subclass; None: the helper is the integer 0
    | RegridderMoorings                       // regridder/formats/mooring.py

  /** A reader class: its name, its `_load_area`, and whether its constructor derives the time axis. */
  datatype Reader = Reader(name: string, loader: Loader, setsTimeInfo: bool)

  /** What a reader sees of the outside: the file, `load_cf_area`'s outcome, the foreign area-definition helpers, the projection and num2date. */
  datatype World = World(
    file: NcFile,
    loadCfArea: Result<Area>,
    helpers: string -> Result<Area>,
    project: (real, real) -> (real, real),
    num2date: (Converter, Float) -> Result<DateTime>)

  /** `Helper(file_path).get_area()`: `MooringsAreaDefinition` is modelled, the others are foreign. */
  function HelperArea(w: World, helper: string): (r: Result<Area>)
    requires w.file.Valid()
    ensures helper != MooringsConfig.className ==> r == w.helpers(helper)
    ensures helper == MooringsConfig.className && r.Ok? ==>
      && r.value.areaId == AreaId(MooringsConfig.className) && r.value.projection == MooringsConfig.proj4.value
      && MooringsConfig.yDim in w.file.dimensions && MooringsConfig.xDim in w.file.dimensions
      && r.value.shape == (w.file.dimensions[MooringsConfig.yDim], w.file.dimensions[MooringsConfig.xDim])
  {
    if helper == MooringsConfig.className then Build(MooringsConfig, w.file, w.project)
    else w.helpers(helper)
  }

  /** `except IndexError: raise BadAreaDefinition`. */
  function Translated(a: Result<Area>): (r: Result<Area>)
    ensures a == Fail(IndexError) ==> r == Fail(BadAreaDefinition)
    ensures a != Fail(IndexError) ==> r == a
  {
    if a == Fail(IndexError) then Fail(BadAreaDefinition) else a
  }

  /** `_load_area` for each kind of reader class. */
  function LoadArea(w: World, path: string, loader: Loader): (r: Result<Area>)
    requires w.file.Valid()
    ensures loader.CfArea? ==> r == CfLoadArea(w.loadCfArea)
    ensures loader.Guarded? && !Admits(loader.guard, path) ==> r == Fail(BadAreaDefinition)
    ensures loader.Guarded? && Admits(loader.guard, path) ==>
      && (HelperArea(w, loader.helper) == Fail(IndexError) ==> r == Fail(BadAreaDefinition))
      && (HelperArea(w, loader.helper).Fail? && HelperArea(w, loader.helper).error != IndexError ==> r == HelperArea(w, loader.helper))
      && (HelperArea(w, loader.helper).Ok? ==> r == HelperArea(w, loader.helper))
    ensures loader.Customized? && loader.areaHelper.Some? ==> r == HelperArea(w, loader.areaHelper.value)
    ensures loader.Customized? && loader.areaHelper.None? ==> r == Fail(TypeError)
    ensures loader.RegridderMoorings? ==> r == Fail(AttributeError("proj4_string"))
  {
    match loader
    case CfArea => CfLoadArea(w.loadCfArea)
    case Guarded(guard, helper) =>
      if !Admits(guard, path) then Fail(BadAreaDefinition) else Translated(HelperArea(w, helper))
    case Customized(helper) =>
      if helper.None? then Fail(TypeError) else HelperArea(w, helper.value)
    case RegridderMoorings =>
      // what building the regridder's Moorings configuration yields (LoadAreaRegridderMoorings)
      Fail(AttributeError("proj4_string"))
  }

  /** The regridder's Moorings loader yields exactly what its area configuration builds to. */
  lemma LoadAreaRegridderMoorings(w: World, path: string)
    requires w.file.Valid()
    ensures LoadArea(w, path, RegridderMoorings) == Build(RegridderMooringsConfig, w.file, w.project)
  {
    RegridderMooringsNeverBuilds(w.file, w.project);
  }

  /** Whether constructing the class succeeds, and the exception it raises when it does not. */
  function Outcome(w: World, path: string, reader: Reader): (r: Result<()>)
    requires w.file.Valid()
    ensures LoadArea(w, path, reader.loader).Fail? ==> r == Fail(LoadArea(w, path, reader.loader).error)
    ensures LoadArea(w, path, reader.loader).Ok? && !reader.setsTimeInfo ==> r.Ok?
    ensures LoadArea(w, path, reader.loader).Ok? && reader.setsTimeInfo ==>
      (r.Ok? <==> TimeInfoOf(w.file, w.num2date).Ok?) && (r.Fail? ==> r.error == TimeInfoOf(w.file, w.num2date).error)
  {
    var _ :- LoadArea(w, path, reader.loader);
    if reader.setsTimeInfo then
      var _ :- TimeInfoOf(w.file, w.num2date);
      Ok(())
    else Ok(())
  }

  /** `Class(file_path)`: `GeoDataset.__init__` with the class's `_load_area`. */
  method Construct(w: World, path: string, reader: Reader) returns (r: Result<GeoDataset>)
    requires w.file.Valid()
    ensures r.Ok? <==> Outcome(w, path, reader).Ok?
    ensures r.Fail? ==> r.error == Outcome(w, path, reader).error
    ensures r.Ok? ==> fresh(r.value) && r.value.filePath == path && r.value.area == LoadArea(w, path, reader.loader).value
    ensures r.Ok? && reader.setsTimeInfo ==> r.value.Info() == TimeInfoOf(w.file, w.num2date).value
    ensures r.Ok? && !reader.setsTimeInfo ==> r.value.Info() == NoTimeInfo
    ensures r.Ok? ==> r.value.datetimesSet == reader.setsTimeInfo && r.value.Valid()
  {
    r := GeoDataset.Open(path, w.file, LoadArea(w, path, reader.loader), w.num2date, reader.setsTimeInfo);
  }

  // ---------------------------------------------------------------- the reader classes

  /** `geo_dataset.GeoDataset`. */
  const GeoDatasetReader := Reader("GeoDataset", CfArea, true)

  /** `regridder/formats/geodataset.GeoDataset`: the same area loader, no time axis. */
  const RegridderGeoDatasetReader := Reader("GeoDataset", CfArea, false)

  /** `regridder/formats/mooring.Moorings`. */
  const RegridderMooringsReader := Reader("Moorings", RegridderMoorings, false)

  /** `nextsim_moorings.Moorings`. */
  const MooringsReader := Reader("Moorings", Guarded(StartsWithName("Moorings"), "MooringsAreaDefinition"), true)

  /** `topaz4_arc.Topaz4Arc`. */
  const Topaz4ArcReader := Reader("Topaz4Arc", Guarded(ContainsName("topaz4-ARC"), "Topaz4ArcAreaDefinition"), true)

  /** `amsr2_ice_conc.AMSR2IceConc`. */
  const Amsr2IceConcReader := Reader("AMSR2IceConc", Guarded(StartsWithName("Arc_20"), "AMSR2IceConcAreaDefinition"), true)

  /** `asrfinal.ASRFINAL`. */
  const AsrFinalReader := Reader("ASRFINAL", Guarded(StartsWithName("asr30km"), "ASRFINALAreaDefinition"), true)

  /** `metno_arc_l4.METNOARCsvalbard`. */
  const MetnoArcSvalbardReader := Reader("METNOARCsvalbard", Guarded(StartsWithName("ice_conc_svalbard_"), "METNOARCsvalbardAreaDefinition"), true)

  /** A guarded reader's area, for a file anywhere: the guard on the file's own name, then the helper with IndexError translated. */
  lemma {:induction false} GuardedLoadArea(w: World, guard: Guard, helper: string, dir: string, name: string)
    requires w.file.Valid()
    ensures LoadArea(w, dir + "/" + name, Guarded(guard, helper)) ==
      if Admits(guard, name) then Translated(HelperArea(w, helper)) else Fail(BadAreaDefinition)
  {
    BasenameIgnoresDirectory(dir, name);
  }

  /** nextsim_moorings: a name not starting with 'Moorings' is refused before the helper runs; unreadable corner cells give BadAreaDefinition. */
  lemma MooringsLoadArea(w: World, dir: string, name: string)
    requires w.file.Valid()
    ensures !StartsWith(Basename(name), "Moorings") ==> LoadArea(w, dir + "/" + name, MooringsReader.loader) == Fail(BadAreaDefinition)
    ensures StartsWith(Basename(name), "Moorings") ==>
      LoadArea(w, dir + "/" + name, MooringsReader.loader) == Translated(Build(MooringsConfig, w.file, w.project))
    ensures StartsWith(Basename(name), "Moorings") && CornersOf(MooringsConfig, w.file, w.project) == Fail(IndexError) ==>
      LoadArea(w, dir + "/" + name, MooringsReader.loader) == Fail(BadAreaDefinition)
  {
    GuardedLoadArea(w, MooringsReader.loader.guard, MooringsReader.loader.helper, dir, name);
    MooringsIndexError(w.file, w.project);
  }

  /** topaz4_arc: the marker may sit anywhere in the file's name, not only at its start. */
  lemma Topaz4ArcLoadArea(w: World, dir: string, before: string, after: string)
    requires w.file.Valid() && '/' !in before && '/' !in after
    ensures LoadArea(w, dir + "/" + before + "topaz4-ARC" + after, Topaz4ArcReader.loader) ==
      Translated(w.helpers("Topaz4ArcAreaDefinition"))
  {
    var name := before + "topaz4-ARC" + after;
    assert '/' !in name by {
      assert forall k :: 0 <= k < |name| ==> name[k] in before || name[k] in "topaz4-ARC" || name[k] in after;
    }
    BasenameOfPlainName(name);
    ContainsAppended(before, "topaz4-ARC");
    ContainsPrefix(before + "topaz4-ARC", after, "topaz4-ARC");
    assert dir + "/" + before + "topaz4-ARC" + after == dir + "/" + name;
    GuardedLoadArea(w, Topaz4ArcReader.loader.guard, Topaz4ArcReader.loader.helper, dir, name);
  }

  /** amsr2_ice_conc: only names starting with 'Arc_20' reach the helper. */
  lemma Amsr2IceConcLoadArea(w: World, dir: string, name: string)
    requires w.file.Valid()
    ensures LoadArea(w, dir + "/" + name, Amsr2IceConcReader.loader) ==
      if StartsWith(Basename(name), "Arc_20") then Translated(w.helpers("AMSR2IceConcAreaDefinition")) else Fail(BadAreaDefinition)
  {
    GuardedLoadArea(w, Amsr2IceConcReader.loader.guard, Amsr2IceConcReader.loader.helper, dir, name);
  }

  /** asrfinal: only names starting with 'asr30km' reach the helper. */
  lemma AsrFinalLoadArea(w: World, dir: string, name: string)
    requires w.file.Valid()
    ensures LoadArea(w, dir + "/" + name, AsrFinalReader.loader) ==
      if StartsWith(Basename(name), "asr30km") then Translated(w.helpers("ASRFINALAreaDefinition")) else Fail(BadAreaDefinition)
  {
    GuardedLoadArea(w, AsrFinalReader.loader.guard, AsrFinalReader.loader.helper, dir, name);
  }

  /** metno_arc_l4: only names starting with 'ice_conc_svalbard_' reach the helper. */
  lemma MetnoArcSvalbardLoadArea(w: World, dir: string, name: string)
    requires w.file.Valid()
    ensures LoadArea(w, dir + "/" + name, MetnoArcSvalbardReader.loader) ==
      if StartsWith(Basename(name), "ice_conc_svalbard_") then Translated(w.helpers("METNOARCsvalbardAreaDefinition")) else Fail(BadAreaDefinition)
  {
    GuardedLoadArea(w, MetnoArcSvalbardReader.loader.guard, MetnoArcSvalbardReader.loader.helper, dir, name);
  }

  /** A substring of a string is a substring of any extension of it. */
  lemma {:induction false} ContainsPrefix(a: string, b: string, part: string)
    requires Contains(a, part)
    ensures Contains(a + b, part)
    decreases |a|
  {
    if StartsWith(a, part) {
      assert (a + b)[..|part|] == a[..|part|];
    } else {
      ContainsPrefix(a[1..], b, part);
      assert (a + b)[1..] == a[1..] + b;
    }
  }

  // ---------------------------------------------------------------- customized_geo_dataset.py

  /** The subclasses of `CustomizedGeoDataset`. */
  datatype CustomizedClass = AMSR2IceConc | ASRFINAL | METNOARCsvalbard | Moorings | Topaz4Arc | Bathymetry

  /** `part_of_filename`; None stands for a falsy setting (None or 0). */
  function PartOfFilename(c: CustomizedClass): Option<string> {
    if c == Topaz4Arc then Some("topaz4-ARC") else None
  }

  /** `start_of_filename`; None stands for a falsy setting (None or 0). */
  function StartOfFilename(c: CustomizedClass): Option<string> {
    match c
    case AMSR2IceConc => Some("Arc_20")
    case ASRFINAL => Some("asr30km")
    case METNOARCsvalbard => Some("ice_conc_svalbard_")
    case Moorings => Some("Moorings")
    case Topaz4Arc => None
    case Bathymetry => None
  }

  /** `CustomizedAreaDefinition`; Bathymetry's is the integer 0. */
  function CustomizedHelper(c: CustomizedClass): Option<string> {
    match c
    case AMSR2IceConc => Some("AMSR2IceConcAreaDefinition")
    case ASRFINAL => Some("ASRFINALAreaDefinition")
    case METNOARCsvalbard => Some("METNOARCsvalbardAreaDefinition")
    case Moorings => Some(MooringsConfig.className)
    case Topaz4Arc => Some("Topaz4ArcAreaDefinition")
    case Bathymetry => None
  }

  /** The customized class as a reader: no filename check and no translation of the helper's errors. */
  function CustomizedReader(c: CustomizedClass): Reader {
    Reader(if c == AMSR2IceConc then "AMSR2IceConc" else if c == ASRFINAL then "ASRFINAL"
           else if c == METNOARCsvalbard then "METNOARCsvalbard" else if c == Moorings then "Moorings"
           else if c == Topaz4Arc then "Topaz4Arc" else "Bathymetry",
           Customized(CustomizedHelper(c)), true)
  }

  /** `_check_valid_class`: each truthy setting must hold of the basename, else BadAreaDefinition. */
  function CheckValidClass(part: Option<string>, start: Option<string>, path: string): (r: Result<()>)
    ensures r.Ok? <==>
      (Datasets.Truthy(part) ==> Contains(Basename(path), part.value))
      && (Datasets.Truthy(start) ==> StartsWith(Basename(path), start.value))
    ensures r.Fail? ==> r.error == BadAreaDefinition
  {
    if Datasets.Truthy(part) && !Contains(Basename(path), part.value) then Fail(BadAreaDefinition)
    else if Datasets.Truthy(start) && !StartsWith(Basename(path), start.value) then Fail(BadAreaDefinition)
    else Ok(())
  }

  /** The check looks only at the file's own name. */
  lemma CheckValidClassIgnoresDirectory(part: Option<string>, start: Option<string>, dir: string, name: string)
    ensures CheckValidClass(part, start, dir + "/" + name) == CheckValidClass(part, start, name)
  {
    BasenameIgnoresDirectory(dir, name);
  }

  /** Bathymetry disables both checks: it accepts every file. */
  lemma BathymetryAcceptsAll(path: string)
    ensures CheckValidClass(PartOfFilename(Bathymetry), StartOfFilename(Bathymetry), path).Ok?
  { }

  /** The customized readers never consult the file name: two files with the same contents give the same area. */
  lemma CustomizedIgnoresName(w: World, c: CustomizedClass, path1: string, path2: string)
    requires w.file.Valid()
    ensures LoadArea(w, path1, CustomizedReader(c).loader) == LoadArea(w, path2, CustomizedReader(c).loader)
    ensures CustomizedHelper(c).Some? ==> LoadArea(w, path1, CustomizedReader(c).loader) == HelperArea(w, CustomizedHelper(c).value)
  { }

  /** The customized Moorings class passes an IndexError on, where nextsim_moorings' class turns it into BadAreaDefinition. */
  lemma CustomizedMooringsKeepsIndexError(w: World, path: string)
    requires w.file.Valid() && StartsWith(Basename(path), "Moorings")
    requires CornersOf(MooringsConfig, w.file, w.project) == Fail(IndexError)
    ensures LoadArea(w, path, CustomizedReader(Moorings).loader) == Fail(IndexError)
    ensures LoadArea(w, path, MooringsReader.loader) == Fail(BadAreaDefinition)
  {
    MooringsIndexError(w.file, w.project);
  }
}
