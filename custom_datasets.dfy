/**
 * `geodataset/custom_geodataset.py`: reader classes recognised by the name of
 * the file they open.  Each class fixes a basename prefix and suffix; the
 * classes that leave the prefix unset cannot open any file.  Opening one of
 * them is `GeoDatasetRead.Open` with the class's check.
 */
module CustomDatasets {
  import opened Outcomes
  import opened Strings
  import opened NetCdf
  import opened Areas
  import opened Datasets

  /** The subclasses of `CustomDatasetRead`, and the class itself. */
  datatype CustomClass =
    | CustomDatasetRead
    | Dist2Coast
    | CmemsMetIceChart
    | NerscSarProducts
    | NerscDeformation
    | NerscIceType
    | JaxaAmsr2IceConc
    | Etopo
    | SmosIceThickness

  /** `_filename_prefix`, inherited where a class does not set it. */
  function Prefix(c: CustomClass): Option<string> {
    match c
    case CustomDatasetRead => None
    case Dist2Coast => Some("dist2coast_4deg.nc")
    case CmemsMetIceChart => Some("ice_conc_svalbard_")
    case NerscSarProducts => None
    case NerscDeformation => Some("arctic_2km_deformation_")
    case NerscIceType => Some("arctic_2km_icetype_")
    case JaxaAmsr2IceConc => Some("Arc_")
    case Etopo => Some("ETOPO_Arctic_")
    case SmosIceThickness => Some("SMOS_Icethickness_v3.2_north")
  }

  /** `_filename_suffix`: '.nc' unless the class sets its own. */
  function Suffix(c: CustomClass): string {
    if c == JaxaAmsr2IceConc then "_res3.125_pyres.nc" else ".nc"
  }

  /** The class's `_check_input_file`. */
  function Check(c: CustomClass): FileCheck {
    PrefixSuffix(Prefix(c), Suffix(c))
  }

  /** Only SmosIceThickness replaces `_get_area_definition` (with a method that does nothing). */
  predicate AreaOverridden(c: CustomClass) {
    c == SmosIceThickness
  }

  /** A class with a prefix of its own. */
  predicate Concrete(c: CustomClass) {
    Prefix(c).Some?
  }

  /** `CustomDatasetRead` and `NerscSarProducts` reject every file with TypeError, before the file's contents are looked at. */
  lemma AbstractClassesOpenNothing(c: CustomClass, filename: string)
    requires !Concrete(c)
    ensures CheckInputFile(Check(c), filename) == Fail(TypeError)
  { }

  /** A concrete class accepts exactly the basenames with its prefix and suffix, wherever the file lies. */
  lemma ConcreteCheck(c: CustomClass, dir: string, name: string)
    requires Concrete(c)
    ensures CheckInputFile(Check(c), dir + "/" + name).Ok? <==>
      StartsWith(Basename(name), Prefix(c).value) && EndsWith(Basename(name), Suffix(c))
    ensures CheckInputFile(Check(c), dir + "/" + name).Fail? ==>
      CheckInputFile(Check(c), dir + "/" + name).error == InvalidDatasetError
  {
    CheckIgnoresDirectory(Check(c), dir, name);
  }

  /** Two prefixes of the same string agree wherever both are defined. */
  lemma PrefixesAgree(s: string, a: string, b: string, k: nat)
    requires StartsWith(s, a) && StartsWith(s, b) && k < |a| && k < |b|
    ensures a[k] == b[k]
  {
    assert s[..|a|][k] == s[k] == s[..|b|][k];
  }

  /** A position where the prefixes of two different concrete classes differ. */
  function Mismatch(c1: CustomClass, c2: CustomClass): (k: nat)
    requires Concrete(c1) && Concrete(c2) && c1 != c2
    ensures k < |Prefix(c1).value| && k < |Prefix(c2).value|
    ensures Prefix(c1).value[k] != Prefix(c2).value[k]
  {
    if {c1, c2} == {NerscDeformation, NerscIceType} then 11 else 0
  }

  /** No file name passes the checks of two different concrete classes. */
  lemma AtMostOneClassAccepts(c1: CustomClass, c2: CustomClass, filename: string)
    requires Concrete(c1) && Concrete(c2) && c1 != c2
    ensures !(CheckInputFile(Check(c1), filename).Ok? && CheckInputFile(Check(c2), filename).Ok?)
  {
    if CheckInputFile(Check(c1), filename).Ok? && CheckInputFile(Check(c2), filename).Ok? {
      var k := Mismatch(c1, c2);
      PrefixesAgree(Basename(filename), Prefix(c1).value, Prefix(c2).value, k);
      assert false;
    }
  }

  /** A name without '/' that carries a concrete class's prefix and suffix is accepted in any directory. */
  lemma PlainNameAccepted(c: CustomClass, dir: string, name: string)
    requires Concrete(c) && '/' !in name
    requires StartsWith(name, Prefix(c).value) && EndsWith(name, Suffix(c))
    ensures CheckInputFile(Check(c), dir + "/" + name).Ok?
  {
    BasenameOfPlainName(name);
    ConcreteCheck(c, dir, name);
  }

  /** `p + m + s` starts with `p`, ends with `s`, and holds no '/' that its parts do not. */
  lemma Framed(p: string, m: string, s: string)
    ensures StartsWith(p + m + s, p) && EndsWith(p + m + s, s)
    ensures '/' !in p && '/' !in m && '/' !in s ==> '/' !in p + m + s
  {
    assert (p + m + s)[..|p|] == p;
    assert (p + m + s)[|p + m + s| - |s|..] == s;
  }

  /** JAXA's AMSR2 files, `Arc_<date>_res3.125_pyres.nc`, are accepted in any directory. */
  lemma JaxaAcceptsItsFiles(dir: string, date: string)
    requires '/' !in date
    ensures CheckInputFile(Check(JaxaAmsr2IceConc), dir + "/" + "Arc_" + date + "_res3.125_pyres.nc").Ok?
  {
    var pre, suf := "Arc_", "_res3.125_pyres.nc";
    assert Prefix(JaxaAmsr2IceConc).value == pre && Suffix(JaxaAmsr2IceConc) == suf;
    assert '/' !in pre && '/' !in suf;
    Framed(pre, date, suf);
    PlainNameAccepted(JaxaAmsr2IceConc, dir, pre + date + suf);
    assert dir + "/" + pre + date + suf == dir + "/" + (pre + date + suf);
  }

  /** The distance-to-coast class opens its one file, `dist2coast_4deg.nc`, whose name is both its prefix and ends with its suffix. */
  lemma Dist2CoastAcceptsItsFile(dir: string)
    ensures CheckInputFile(Check(Dist2Coast), dir + "/" + "dist2coast_4deg.nc").Ok?
  {
    var stem, suf := "dist2coast_4deg", ".nc";
    assert stem + suf == "dist2coast_4deg.nc";
    assert Prefix(Dist2Coast).value == stem + suf && Suffix(Dist2Coast) == suf;
    assert '/' !in stem && '/' !in suf;
    Framed([], stem + suf, []);
    Framed(stem, [], suf);
    assert [] + (stem + suf) + [] == stem + suf && stem + [] + suf == stem + suf;
    PlainNameAccepted(Dist2Coast, dir, stem + suf);
  }

  /** `Class(filename)` for a custom class: `GeoDatasetRead.__init__` with the class's own check and area definition. */
  method OpenCustom(c: CustomClass, filename: string, file: NcFile, loadCfArea: Result<Area>) returns (r: Result<GeoDatasetRead>)
    requires file.Valid()
    ensures !Concrete(c) ==> r == Fail(TypeError)
    ensures Concrete(c) && !(StartsWith(Basename(filename), Prefix(c).value) && EndsWith(Basename(filename), Suffix(c))) ==>
      r == Fail(InvalidDatasetError)
    ensures c == SmosIceThickness && r.Ok? ==> r.value.areaDefinition.None?
    ensures c == SmosIceThickness && CheckInputFile(Check(c), filename).Ok? ==> (r.Ok? <==> LonLatNames(file).Ok?)
    ensures r.Ok? ==> LonLatNames(file).Ok? && r.value.lonlatNames == LonLatNames(file).value
  {
    r := GeoDatasetRead.Open(filename, file, Check(c), AreaOverridden(c), loadCfArea);
  }
}
