/**
 * The three dispatchers that try reader classes in order on one file:
 * `open_netcdf` in `geodataset/tools.py` and `geodataset/area_definition.py`
 * returns the first object constructed, while `classify` in
 * `regridder/selector.py` tries every class and returns the last one.  In
 * both, BadAreaDefinition means "try the next class" and any other exception
 * escapes at once.
 */
module Dispatch {
  import opened Outcomes
  import opened Strings
  import opened NetCdf
  import opened Areas
  import opened GeoDatasets
  import opened Readers

  /** The ValueError message when no class fits. */
  function Message(path: string): string {
    "Can not find proper geodataset-based class for this file: " + path
  }

  /** The message names the file. */
  lemma MessageNamesFile(path: string)
    ensures Contains(Message(path), path)
  {
    ContainsAppended("Can not find proper geodataset-based class for this file: ", path);
  }

  /** The outcome of constructing each class, in order. */
  function Attempts(w: World, path: string, readers: seq<Reader>): (r: seq<Result<()>>)
    requires w.file.Valid()
    ensures |r| == |readers|
    ensures forall i :: 0 <= i < |readers| ==> r[i] == Outcome(w, path, readers[i])
  {
    seq(|readers|, i requires 0 <= i < |readers| && w.file.Valid() => Outcome(w, path, readers[i]))
  }

  // ---------------------------------------------------------------- first success

  /** `open_netcdf` once the classes before `k` have raised BadAreaDefinition: the index of the class returned, or the exception. */
  function FirstFrom(attempts: seq<Result<()>>, k: nat, path: string): (r: Result<nat>)
    requires k <= |attempts|
    ensures r.Ok? ==> k <= r.value < |attempts|
    decreases |attempts| - k
  {
    if k == |attempts| then Fail(ValueError(Message(path)))
    else if attempts[k].Ok? then Ok(k)
    else if attempts[k].error == BadAreaDefinition then FirstFrom(attempts, k + 1, path)
    else Fail(attempts[k].error)
  }

  function FirstSuccess(attempts: seq<Result<()>>, path: string): (r: Result<nat>)
    ensures r.Ok? ==> r.value < |attempts|
  {
    FirstFrom(attempts, 0, path)
  }

  /** Everything in `attempts[i..j]` raised BadAreaDefinition. */
  predicate AllBad(attempts: seq<Result<()>>, i: nat, j: nat)
    requires i <= j <= |attempts|
  {
    forall m :: i <= m < j ==> attempts[m] == Fail(BadAreaDefinition)
  }

  /**
   * The class returned is one that succeeded, and every class before it raised
   * BadAreaDefinition; an exception is either the final ValueError after every class
   * raised BadAreaDefinition, or the first other exception, with nothing tried after it.
   */
  lemma {:induction false} FirstFromSpec(attempts: seq<Result<()>>, k: nat, path: string)
    requires k <= |attempts|
    ensures var r := FirstFrom(attempts, k, path);
      && (r.Ok? ==> k <= r.value < |attempts| && attempts[r.value].Ok? && AllBad(attempts, k, r.value))
      && (AllBad(attempts, k, |attempts|) ==> r == Fail(ValueError(Message(path))))
      && (r.Fail? && !AllBad(attempts, k, |attempts|) ==>
            exists i :: k <= i < |attempts| && AllBad(attempts, k, i) && attempts[i] == Fail(r.error) && r.error != BadAreaDefinition)
    decreases |attempts| - k
  {
    if k < |attempts| {
      FirstFromSpec(attempts, k + 1, path);
      var r := FirstFrom(attempts, k, path);
      if r.Fail? && !AllBad(attempts, k, |attempts|) && attempts[k] == Fail(BadAreaDefinition) {
        assert !AllBad(attempts, k + 1, |attempts|);
        var i :| k + 1 <= i < |attempts| && AllBad(attempts, k + 1, i) && attempts[i] == Fail(r.error) && r.error != BadAreaDefinition;
        assert AllBad(attempts, k, i);
      }
    }
  }

  /** `open_netcdf(file_address)`: the classes in order; the first object constructed is returned and no later class is tried. */
  method OpenNetcdf(w: World, path: string, readers: seq<Reader>) returns (r: Result<GeoDataset>, ghost tried: nat)
    requires w.file.Valid()
    ensures var first := FirstSuccess(Attempts(w, path, readers), path);
      && (r.Ok? <==> first.Ok?)
      && (r.Fail? ==> r.error == first.error)
      && (r.Ok? ==> && tried == first.value + 1 && fresh(r.value) && r.value.filePath == path
                    && LoadArea(w, path, readers[first.value].loader).Ok?
                    && r.value.area == LoadArea(w, path, readers[first.value].loader).value)
  {
    ghost var attempts := Attempts(w, path, readers);
    ghost var target := FirstSuccess(attempts, path);
    var i := 0;
    while i < |readers|
      invariant 0 <= i <= |readers|
      invariant FirstFrom(attempts, i, path) == target
    {
      var obj := Construct(w, path, readers[i]);
      assert attempts[i] == Outcome(w, path, readers[i]);
      if obj.Ok? {
        return Ok(obj.value), i + 1;
      }
      if obj.error != BadAreaDefinition {
        return Fail(obj.error), i + 1;
      }
      i := i + 1;
    }
    return Fail(ValueError(Message(path))), |readers|;
  }

  // ---------------------------------------------------------------- last success

  /** `classify` once the classes before `k` have been tried, `last` being the latest that succeeded. */
  function LastFrom(attempts: seq<Result<()>>, k: nat, last: Option<nat>, path: string): (r: Result<nat>)
    requires k <= |attempts| && (last.Some? ==> last.value < k)
    ensures r.Ok? ==> r.value < |attempts|
    decreases |attempts| - k
  {
    if k == |attempts| then (if last.Some? then Ok(last.value) else Fail(ValueError(Message(path))))
    else if attempts[k].Ok? then LastFrom(attempts, k + 1, Some(k), path)
    else if attempts[k].error == BadAreaDefinition then LastFrom(attempts, k + 1, last, path)
    else Fail(attempts[k].error)
  }

  function LastSuccess(attempts: seq<Result<()>>, path: string): (r: Result<nat>)
    ensures r.Ok? ==> r.value < |attempts|
  {
    LastFrom(attempts, 0, None, path)
  }

  /** Every attempt in `attempts[i..j]` either succeeded or raised BadAreaDefinition. */
  predicate NoEscape(attempts: seq<Result<()>>, i: nat, j: nat)
    requires i <= j <= |attempts|
  {
    forall m :: i <= m < j ==> attempts[m].Ok? || attempts[m] == Fail(BadAreaDefinition)
  }

  /**
   * `classify` returns an object only when no class raised anything but BadAreaDefinition,
   * and then it is the last class that succeeded; any other exception escapes.
   */
  lemma {:induction false} LastFromSpec(attempts: seq<Result<()>>, k: nat, last: Option<nat>, path: string)
    requires k <= |attempts|
    requires last.Some? ==> last.value < k && attempts[last.value].Ok?
    ensures var r := LastFrom(attempts, k, last, path);
      && (r.Ok? ==> NoEscape(attempts, k, |attempts|) && attempts[r.value].Ok?)
      && (r.Ok? && r.value >= k ==> AllBad(attempts, r.value + 1, |attempts|))
      && (r.Ok? && r.value < k ==> AllBad(attempts, k, |attempts|) && last == Some(r.value))
      && (NoEscape(attempts, k, |attempts|) ==> (r.Ok? <==> last.Some? || !AllBad(attempts, k, |attempts|)))
      && (NoEscape(attempts, k, |attempts|) && r.Fail? ==> r.error == ValueError(Message(path)))
      && (!NoEscape(attempts, k, |attempts|) ==>
            exists i :: k <= i < |attempts| && NoEscape(attempts, k, i) && attempts[i] == Fail(r.error) && r.error != BadAreaDefinition)
    decreases |attempts| - k
  {
    LastFromEscapes(attempts, k, last, path);
    if k < |attempts| {
      var next := if attempts[k].Ok? then Some(k) else last;
      LastFromSpec(attempts, k + 1, next, path);
      var r := LastFrom(attempts, k, last, path);
      if attempts[k].Ok? || attempts[k] == Fail(BadAreaDefinition) {
        assert r == LastFrom(attempts, k + 1, next, path);
        assert NoEscape(attempts, k, |attempts|) <==> NoEscape(attempts, k + 1, |attempts|);
        assert attempts[k] == Fail(BadAreaDefinition) ==> (AllBad(attempts, k, |attempts|) <==> AllBad(attempts, k + 1, |attempts|));
      } else {
        assert !NoEscape(attempts, k, |attempts|);
      }
    }
  }

  /** An exception other than BadAreaDefinition escapes `classify`: it is the one the first such class raises. */
  lemma {:induction false} LastFromEscapes(attempts: seq<Result<()>>, k: nat, last: Option<nat>, path: string)
    requires k <= |attempts| && (last.Some? ==> last.value < k)
    ensures var r := LastFrom(attempts, k, last, path);
      !NoEscape(attempts, k, |attempts|) ==>
        && r.Fail?
        && exists i :: k <= i < |attempts| && NoEscape(attempts, k, i) && attempts[i] == Fail(r.error) && r.error != BadAreaDefinition
    decreases |attempts| - k
  {
    if k < |attempts| {
      var next := if attempts[k].Ok? then Some(k) else last;
      var r := LastFrom(attempts, k, last, path);
      if attempts[k].Ok? || attempts[k] == Fail(BadAreaDefinition) {
        LastFromEscapes(attempts, k + 1, next, path);
        assert r == LastFrom(attempts, k + 1, next, path);
        if !NoEscape(attempts, k, |attempts|) {
          assert !NoEscape(attempts, k + 1, |attempts|);
          var i :| k + 1 <= i < |attempts| && NoEscape(attempts, k + 1, i) && attempts[i] == Fail(r.error) && r.error != BadAreaDefinition;
          assert NoEscape(attempts, k, i);
        }
      } else {
        assert NoEscape(attempts, k, k);
      }
    }
  }

  /** One step of `LastFrom`: what the attempt at `k` decides. */
  lemma LastFromStep(attempts: seq<Result<()>>, k: nat, last: Option<nat>, path: string)
    requires k < |attempts| && (last.Some? ==> last.value < k)
    ensures attempts[k].Ok? ==> LastFrom(attempts, k, last, path) == LastFrom(attempts, k + 1, Some(k), path)
    ensures attempts[k] == Fail(BadAreaDefinition) ==> LastFrom(attempts, k, last, path) == LastFrom(attempts, k + 1, last, path)
    ensures attempts[k].Fail? && attempts[k].error != BadAreaDefinition ==> LastFrom(attempts, k, last, path) == Fail(attempts[k].error)
  { }

  /** `classify(file_address)`: every class is tried; the object kept is the last one constructed. */
  method Classify(w: World, path: string, readers: seq<Reader>) returns (r: Result<GeoDataset>)
    requires w.file.Valid()
    ensures var last := LastSuccess(Attempts(w, path, readers), path);
      && (r.Ok? <==> last.Ok?)
      && (r.Fail? ==> r.error == last.error)
      && (r.Ok? ==> fresh(r.value) && r.value.filePath == path
                    && LoadArea(w, path, readers[last.value].loader).Ok?
                    && r.value.area == LoadArea(w, path, readers[last.value].loader).value)
  {
    ghost var attempts := Attempts(w, path, readers);
    ghost var target := LastSuccess(attempts, path);
    var obj: Option<GeoDataset> := None;
    ghost var last: Option<nat> := None;
    for i := 0 to |readers|
      invariant obj.Some? <==> last.Some?
      invariant last.Some? ==> last.value < i && attempts[last.value].Ok?
      invariant last.Some? ==> fresh(obj.value) && obj.value.filePath == path
                               && LoadArea(w, path, readers[last.value].loader).Ok?
                               && obj.value.area == LoadArea(w, path, readers[last.value].loader).value
      invariant LastFrom(attempts, i, last, path) == target
    {
      var o := Construct(w, path, readers[i]);
      assert attempts[i] == Outcome(w, path, readers[i]);
      LastFromStep(attempts, i, last, path);
      if o.Ok? {
        obj := Some(o.value);
        last := Some(i);
      } else if o.error != BadAreaDefinition {
        return Fail(o.error);
      }
    }
    if obj.None? {
      return Fail(ValueError(Message(path)));
    }
    return Ok(obj.value);
  }

  /** With two classes that both succeed, `open_netcdf` keeps the first object and `classify` the second. */
  lemma FirstAndLastDiverge(path: string)
    ensures FirstSuccess([Ok(()), Ok(())], path) == Ok(0)
    ensures LastSuccess([Ok(()), Ok(())], path) == Ok(1)
  { }

  /** When no class raises anything but BadAreaDefinition, both dispatchers find an object on the same files, and `classify`'s comes no earlier. */
  lemma SameVerdict(attempts: seq<Result<()>>, path: string)
    requires NoEscape(attempts, 0, |attempts|)
    ensures FirstSuccess(attempts, path).Ok? <==> LastSuccess(attempts, path).Ok?
    ensures FirstSuccess(attempts, path).Ok? ==> FirstSuccess(attempts, path).value <= LastSuccess(attempts, path).value
  {
    FirstFromSpec(attempts, 0, path);
    LastFromSpec(attempts, 0, None, path);
    if FirstSuccess(attempts, path).Ok? {
      var i := FirstSuccess(attempts, path).value;
      assert !AllBad(attempts, 0, |attempts|);
      assert attempts[i].Ok?;
    } else {
      if !AllBad(attempts, 0, |attempts|) {
        var m :| 0 <= m < |attempts| && attempts[m] != Fail(BadAreaDefinition);
        assert attempts[m].Ok?;
        FirstFoundOk(attempts, 0, m, path);
      }
    }
  }

  /** A success anywhere after `k`, with only BadAreaDefinition and successes on the way, is found. */
  lemma {:induction false} FirstFoundOk(attempts: seq<Result<()>>, k: nat, m: nat, path: string)
    requires k <= m < |attempts| && attempts[m].Ok? && NoEscape(attempts, k, m)
    ensures FirstFrom(attempts, k, path).Ok?
    decreases m - k
  {
    if k < m && attempts[k] == Fail(BadAreaDefinition) {
      FirstFoundOk(attempts, k + 1, m, path);
    }
  }

  // ---------------------------------------------------------------- the three class lists

  /** tools.py: GeoDataset, then the customized classes; ETOPOArctic and Dist2Coast are not defined anywhere, so their whole `_load_area` is foreign. */
  const ToolsReaders: seq<Reader> := [
    GeoDatasetReader,
    CustomizedReader(Moorings), CustomizedReader(Topaz4Arc), CustomizedReader(AMSR2IceConc),
    CustomizedReader(ASRFINAL), CustomizedReader(METNOARCsvalbard),
    Reader("ETOPOArctic", Customized(Some("ETOPOArctic")), true),
    Reader("Dist2Coast", Customized(Some("Dist2Coast")), true)]

  /** area_definition.py: GeoDataset, then nextsim_moorings' Moorings. */
  const AreaDefinitionReaders: seq<Reader> := [GeoDatasetReader, MooringsReader]

  /** selector.py: the regridder's GeoDataset, then its Moorings. */
  const SelectorReaders: seq<Reader> := [RegridderGeoDatasetReader, RegridderMooringsReader]

  /** A file GeoDataset can read is always opened as a GeoDataset by both `open_netcdf`s. */
  lemma GeoDatasetComesFirst(w: World, path: string)
    requires w.file.Valid() && w.loadCfArea.Ok? && TimeInfoOf(w.file, w.num2date).Ok?
    ensures FirstSuccess(Attempts(w, path, ToolsReaders), path) == Ok(0)
    ensures FirstSuccess(Attempts(w, path, AreaDefinitionReaders), path) == Ok(0)
  {
    assert Attempts(w, path, ToolsReaders)[0] == Outcome(w, path, GeoDatasetReader);
    assert Attempts(w, path, AreaDefinitionReaders)[0] == Outcome(w, path, GeoDatasetReader);
  }

  /**
   * For a Moorings file whose corner cells cannot be read and that the CF loader rejects with
   * ValueError, tools.py stops at the customized Moorings class with IndexError, while
   * area_definition.py turns it into BadAreaDefinition and ends with its ValueError.
   */
  lemma IndexErrorStopsTools(w: World, path: string, m: string)
    requires w.file.Valid() && w.loadCfArea == Fail(ValueError(m)) && StartsWith(Basename(path), "Moorings")
    requires CornersOf(MooringsConfig, w.file, w.project) == Fail(IndexError)
    ensures FirstSuccess(Attempts(w, path, ToolsReaders), path) == Fail(IndexError)
    ensures FirstSuccess(Attempts(w, path, AreaDefinitionReaders), path) == Fail(ValueError(Message(path)))
  {
    ToolsStopAtMoorings(w, path, m);
    AreaDefinitionsSkipMoorings(w, path, m);
  }

  /** The tools' list reaches the Moorings class second, and its IndexError escapes. */
  lemma ToolsStopAtMoorings(w: World, path: string, m: string)
    requires w.file.Valid() && w.loadCfArea == Fail(ValueError(m)) && StartsWith(Basename(path), "Moorings")
    requires CornersOf(MooringsConfig, w.file, w.project) == Fail(IndexError)
    ensures FirstSuccess(Attempts(w, path, ToolsReaders), path) == Fail(IndexError)
  {
    CustomizedMooringsKeepsIndexError(w, path);
    var tools := Attempts(w, path, ToolsReaders);
    assert tools[0] == Outcome(w, path, GeoDatasetReader) == Fail(BadAreaDefinition);
    assert tools[1] == Outcome(w, path, CustomizedReader(Moorings)) == Fail(IndexError);
    SecondEscapes(tools, path, IndexError);
  }

  /** The area-definition list turns the same IndexError into BadAreaDefinition and runs out of classes. */
  lemma AreaDefinitionsSkipMoorings(w: World, path: string, m: string)
    requires w.file.Valid() && w.loadCfArea == Fail(ValueError(m)) && StartsWith(Basename(path), "Moorings")
    requires CornersOf(MooringsConfig, w.file, w.project) == Fail(IndexError)
    ensures FirstSuccess(Attempts(w, path, AreaDefinitionReaders), path) == Fail(ValueError(Message(path)))
  {
    CustomizedMooringsKeepsIndexError(w, path);
    var ad := Attempts(w, path, AreaDefinitionReaders);
    assert ad[0] == Outcome(w, path, GeoDatasetReader) == Fail(BadAreaDefinition);
    assert ad[1] == Outcome(w, path, MooringsReader) == Fail(BadAreaDefinition);
    BothSkipped(ad, path);
  }

  /** When the first class skips and the second raises something else, that exception escapes. */
  lemma SecondEscapes(attempts: seq<Result<()>>, path: string, e: Error)
    requires |attempts| >= 2 && attempts[0] == Fail(BadAreaDefinition) && attempts[1] == Fail(e) && e != BadAreaDefinition
    ensures FirstSuccess(attempts, path) == Fail(e)
  {
    assert FirstFrom(attempts, 0, path) == FirstFrom(attempts, 1, path);
  }

  /** When both of two classes skip, `open_netcdf` runs out of classes. */
  lemma BothSkipped(attempts: seq<Result<()>>, path: string)
    requires |attempts| == 2 && attempts[0] == Fail(BadAreaDefinition) && attempts[1] == Fail(BadAreaDefinition)
    ensures FirstSuccess(attempts, path) == Fail(ValueError(Message(path)))
  {
    assert FirstFrom(attempts, 0, path) == FirstFrom(attempts, 1, path) == FirstFrom(attempts, 2, path);
  }

  /**
   * `classify` never returns an object: the regridder's Moorings class always raises
   * AttributeError, which escapes; only a CF loader error other than ValueError escapes first.
   */
  lemma ClassifyAlwaysRaises(w: World, path: string)
    requires w.file.Valid()
    ensures LastSuccess(Attempts(w, path, SelectorReaders), path).Fail?
    ensures w.loadCfArea.Ok? || w.loadCfArea.error.ValueError? ==>
      LastSuccess(Attempts(w, path, SelectorReaders), path) == Fail(AttributeError("proj4_string"))
  {
    var a := Attempts(w, path, SelectorReaders);
    assert |a| == 2;
    assert a[1] == Fail(AttributeError("proj4_string"));
    assert a[0] == Outcome(w, path, RegridderGeoDatasetReader);
    if a[0].Ok? {
      assert LastFrom(a, 0, None, path) == LastFrom(a, 1, Some(0), path);
    } else if a[0] == Fail(BadAreaDefinition) {
      assert LastFrom(a, 0, None, path) == LastFrom(a, 1, None, path);
    } else {
      assert a[0] == Fail(w.loadCfArea.error) && !w.loadCfArea.error.ValueError?;
    }
  }
}
