/**
 * geodataset/variable.py: resolving a requested variable name through the
 * groups of names the same quantity goes by in different products, and
 * `var_object`, a masked-array wrapper that records extra attributes and
 * masks every non-finite value.
 */
module Variables {
  import opened Outcomes
  import opened NdArrays
  import opened NetCdf
  import opened Strings

  /** The alias groups, each in preference order: ice concentration, ice thickness, floe size, significant wave height. */
  const AliasGroups: seq<seq<string>> := [
    ["ficem", "fice", "ice_conc", "icec", "concentration", "sea_ice_concentration", "ice fraction", "sic", "Concentration"],
    ["hicem", "hice", "ice_thick", "icetk", "sea_ice_thickness", "thickness", "sit", "analysis_thickness", "Thickness"],
    ["dfloe", "dmax", "Dfloe", "Dmax"],
    ["swh", "Hs", "hs"]
  ]

  /** The groups from `groups` on, searched in order: a group containing `vname` answers with its first present name. */
  function SearchGroups(groups: seq<seq<string>>, vname: string, variables: set<string>): (r: Option<string>)
    ensures r.Some? ==> r.value in variables
  {
    if groups == [] then None
    else if vname in groups[0] && FirstPresent(groups[0], variables).Some? then FirstPresent(groups[0], variables)
    else SearchGroups(groups[1..], vname, variables)
  }

  /** `exchange_names(vname, variables)`. */
  function ExchangeNames(vname: string, variables: set<string>): (r: Result<string>)
    ensures r.Ok? ==> r.value in variables
    ensures r.Fail? ==> r.error == ValueError(vname + " not in variable list")
  {
    if vname in variables then Ok(vname)
    else match SearchGroups(AliasGroups, vname, variables)
      case Some(name) => Ok(name)
      case None => Fail(ValueError(vname + " not in variable list"))
  }

  lemma {:induction false} SearchGroupsPresent(groups: seq<seq<string>>, vname: string, variables: set<string>)
    ensures SearchGroups(groups, vname, variables).None? <==>
      forall g :: 0 <= g < |groups| && vname in groups[g] ==> FirstPresent(groups[g], variables).None?
    ensures forall g :: (0 <= g < |groups| && vname in groups[g] && FirstPresent(groups[g], variables).Some?
      && (forall h :: 0 <= h < g ==> vname !in groups[h])) ==> SearchGroups(groups, vname, variables) == FirstPresent(groups[g], variables)
  {
    if groups != [] {
      SearchGroupsPresent(groups[1..], vname, variables);
      assert forall g :: 1 <= g < |groups| ==> groups[g] == groups[1..][g - 1];
    }
  }

  /** A name that is a variable of the file is its own answer. */
  lemma ExchangePresent(vname: string, variables: set<string>)
    requires vname in variables
    ensures ExchangeNames(vname, variables) == Ok(vname)
  { }

  /** The alias groups share no name. */
  lemma GroupsDisjoint(g: nat, h: nat, name: string)
    requires g < |AliasGroups| && h < |AliasGroups| && name in AliasGroups[g] && name in AliasGroups[h]
    ensures g == h
  { }

  /** An absent name of group `g` resolves to the first present name of `g`, in group order, or fails when none is present. */
  lemma ExchangeAlias(vname: string, variables: set<string>, g: nat)
    requires vname !in variables && g < |AliasGroups| && vname in AliasGroups[g]
    ensures FirstPresent(AliasGroups[g], variables).Some? ==> ExchangeNames(vname, variables) == Ok(FirstPresent(AliasGroups[g], variables).value)
    ensures FirstPresent(AliasGroups[g], variables).None? ==> ExchangeNames(vname, variables) == Fail(ValueError(vname + " not in variable list"))
  {
    SearchGroupsPresent(AliasGroups, vname, variables);
    forall h | 0 <= h < |AliasGroups| && vname in AliasGroups[h] ensures h == g {
      GroupsDisjoint(g, h, vname);
    }
  }

  /** ValueError exactly when the name is absent and none of its group (if it has one) is present. */
  lemma ExchangeFails(vname: string, variables: set<string>)
    ensures ExchangeNames(vname, variables).Fail? <==>
      vname !in variables && forall g :: 0 <= g < |AliasGroups| && vname in AliasGroups[g] ==> FirstPresent(AliasGroups[g], variables).None?
  {
    SearchGroupsPresent(AliasGroups, vname, variables);
  }

  /** Two absent names of one group resolve to the same variable. */
  lemma SameGroupSameAnswer(a: string, b: string, variables: set<string>, g: nat)
    requires g < |AliasGroups| && a in AliasGroups[g] && b in AliasGroups[g]
    requires a !in variables && b !in variables
    ensures ExchangeNames(a, variables).Ok? == ExchangeNames(b, variables).Ok?
    ensures ExchangeNames(a, variables).Ok? ==> ExchangeNames(a, variables) == ExchangeNames(b, variables)
  {
    ExchangeAlias(a, variables, g);
    ExchangeAlias(b, variables, g);
  }

  /** A product holding 'ice_conc' but neither 'ficem' nor 'fice' answers 'ice_conc' for every ice-concentration alias. */
  lemma IceConcAliases(vname: string, variables: set<string>)
    requires "ice_conc" in variables && "ficem" !in variables && "fice" !in variables
    requires vname in AliasGroups[0] && vname !in variables
    ensures ExchangeNames(vname, variables) == Ok("ice_conc")
  {
    var group := AliasGroups[0];
    assert group[0] == "ficem" && group[1] == "fice" && group[2] == "ice_conc";
    assert FirstPresent(group[2..], variables) == Some("ice_conc");
    assert group[1..][1..] == group[2..];
    ExchangeAlias(vname, variables, 0);
  }

  /** numpy's ordering of non-NaN floats. */
  predicate Le(a: Float, b: Float)
    requires !a.NaN? && !b.NaN?
  {
    a.NegInf? || b.PosInf? || (a.Finite? && b.Finite? && a.x <= b.x)
  }

  /** One step of `ndarray.min` (`lower`) or `ndarray.max`: NaN wins, otherwise the smaller or larger. */
  function Pick(a: Float, b: Float, lower: bool): Float {
    if a.NaN? || b.NaN? then NaN
    else if Le(a, b) == lower then a
    else b
  }

  /** The least (`lower`) or greatest element of a non-empty sequence, NaN if any element is NaN. */
  function Extreme(s: seq<Float>, lower: bool): Float
    requires s != []
  {
    if |s| == 1 then s[0] else Pick(s[0], Extreme(s[1..], lower), lower)
  }

  /** NaN propagates; otherwise the extreme is an element and bounds every element. */
  lemma {:induction false} ExtremeBounds(s: seq<Float>, lower: bool)
    requires s != []
    ensures (exists i :: 0 <= i < |s| && s[i].NaN?) <==> Extreme(s, lower).NaN?
    ensures !Extreme(s, lower).NaN? ==> Extreme(s, lower) in s
    ensures !Extreme(s, lower).NaN? ==> forall i :: 0 <= i < |s| ==> if lower then Le(Extreme(s, lower), s[i]) else Le(s[i], Extreme(s, lower))
  {
    if |s| > 1 {
      ExtremeBounds(s[1..], lower);
      assert forall i :: 1 <= i < |s| ==> s[i] == s[1..][i - 1];
    }
  }

  /** The values whose mask entry is false, in order. */
  function Unmasked(values: seq<Float>, mask: seq<bool>): (r: seq<Float>)
    requires |values| == |mask|
    ensures |r| <= |values|
    ensures forall x :: x in r ==> x in values
  {
    if values == [] then []
    else (if mask[0] then [] else [values[0]]) + Unmasked(values[1..], mask[1..])
  }

  lemma {:induction false} UnmaskedAll(values: seq<Float>, mask: seq<bool>)
    requires |values| == |mask|
    requires forall i :: 0 <= i < |mask| ==> !mask[i]
    ensures Unmasked(values, mask) == values
  {
    if values != [] {
      UnmaskedAll(values[1..], mask[1..]);
    }
  }

  /** numpy's `isfinite`. */
  predicate IsFinite(x: Float) {
    x.Finite?
  }

  function Or(a: bool, b: bool): bool {
    a || b
  }

  function NotFinite(x: Float): bool {
    !IsFinite(x)
  }

  /** The array handed to `var_object`: plain, or already masked. */
  datatype Values = Values(data: NdArray<Float>, mask: Option<Nd<bool>>) {
    predicate Valid() {
      data.Valid() && (mask.Some? ==> HasShape(mask.value, data.shape))
    }
  }

  /** The mask `var_object` gives its values: the input's own mask, or its non-finite cells, OR-ed with `mask_in` when given. */
  function CombinedMask(vals: Values, maskIn: Option<Nd<bool>>): (m: Nd<bool>)
    requires vals.Valid() && (maskIn.Some? ==> HasShape(maskIn.value, vals.data.shape))
    ensures HasShape(m, vals.data.shape)
  {
    MapShape(vals.data.cells, vals.data.shape, NotFinite);
    var own := if vals.mask.Some? then vals.mask.value else MapNd(vals.data.cells, NotFinite);
    if maskIn.None? then own else ZipNd(own, maskIn.value, vals.data.shape, Or)
  }

  /** Cell by cell: masked iff already masked (or non-finite, for plain input) or masked by `mask_in`. */
  lemma MaskRule(vals: Values, maskIn: Option<Nd<bool>>, idx: seq<nat>)
    requires vals.Valid() && (maskIn.Some? ==> HasShape(maskIn.value, vals.data.shape))
    requires InBounds(vals.data.shape, idx)
    ensures At(CombinedMask(vals, maskIn), vals.data.shape, idx) <==>
      (if vals.mask.Some? then At(vals.mask.value, vals.data.shape, idx) else !IsFinite(At(vals.data.cells, vals.data.shape, idx)))
      || (maskIn.Some? && At(maskIn.value, vals.data.shape, idx))
  {
    var shape := vals.data.shape;
    MapShape(vals.data.cells, shape, NotFinite);
    MapAt(vals.data.cells, shape, NotFinite, idx);
    var own := if vals.mask.Some? then vals.mask.value else MapNd(vals.data.cells, NotFinite);
    if maskIn.Some? {
      ZipAt(own, maskIn.value, shape, Or, idx);
    }
  }

  /** The attributes set by the `extra_atts` loop after its first `n` steps: a later name overwrites an earlier one. */
  function Assigned(names: seq<string>, values: seq<AttValue>, n: nat): map<string, AttValue>
    requires n <= |names| && n <= |values|
  {
    if n == 0 then map[] else Assigned(names, values, n - 1)[names[n - 1] := values[n - 1]]
  }

  /** The names set after `n` steps are exactly the first `n` names. */
  lemma {:induction false} AssignedKeys(names: seq<string>, values: seq<AttValue>, n: nat)
    requires n <= |names| && n <= |values|
    ensures Assigned(names, values, n).Keys == set k | 0 <= k < n :: names[k]
  {
    if n > 0 {
      AssignedKeys(names, values, n - 1);
      assert (set k | 0 <= k < n :: names[k]) == (set k | 0 <= k < n - 1 :: names[k]) + {names[n - 1]};
    }
  }

  /** A name not listed again after position `k` keeps the value paired with it at `k`. */
  lemma {:induction false} AssignedLast(names: seq<string>, values: seq<AttValue>, n: nat, k: nat)
    requires n <= |names| && n <= |values| && k < n
    requires forall j :: k < j < n ==> names[j] != names[k]
    ensures names[k] in Assigned(names, values, n) && Assigned(names, values, n)[names[k]] == values[k]
  {
    if k < n - 1 {
      assert names[n - 1] != names[k];
      AssignedLast(names, values, n - 1, k);
    }
  }

  /** Every listed name is set, to the value paired with its last occurrence, and nothing else is set. */
  lemma AssignedValues(names: seq<string>, values: seq<AttValue>, n: nat)
    requires n <= |names| && n <= |values|
    ensures Assigned(names, values, n).Keys == set k | 0 <= k < n :: names[k]
    ensures forall k :: 0 <= k < n && (forall j :: k < j < n ==> names[j] != names[k]) ==> Assigned(names, values, n)[names[k]] == values[k]
  {
    AssignedKeys(names, values, n);
    forall k | 0 <= k < n && (forall j :: k < j < n ==> names[j] != names[k])
      ensures Assigned(names, values, n)[names[k]] == values[k]
    {
      AssignedLast(names, values, n, k);
    }
  }

  /** `var_object`: the wrapped values, their mask, their shape and the extra attributes. */
  class VarObject {
    var attributes: map<string, AttValue>
    var shape: seq<nat>
    var ndim: nat
    var values: Nd<Float>
    var mask: Nd<bool>

    predicate Valid()
      reads this
    {
      ndim == |shape| && HasShape(values, shape) && HasShape(mask, shape)
    }

    /** An object with no attributes yet, before `__init__`'s body runs. */
    constructor Empty()
      ensures attributes == map[] && shape == [] && ndim == 0 && values == Leaf(NaN) && mask == Leaf(false)
    {
      attributes := map[];
      shape := [];
      ndim := 0;
      values := Leaf(NaN);
      mask := Leaf(false);
    }

    /** `setattr(self, att, attvals[i])` for each `att` of `attlist` in turn; IndexError when `attvals` runs out. */
    method SetExtraAttributes(attlist: seq<string>, attvals: seq<AttValue>) returns (r: Result<()>)
      modifies this
      ensures r.Ok? <==> |attlist| <= |attvals|
      ensures r.Fail? ==> r.error == IndexError
      ensures r.Ok? ==> attributes == old(attributes) + Assigned(attlist, attvals, |attlist|)
      ensures shape == old(shape) && ndim == old(ndim) && values == old(values) && mask == old(mask)
    {
      var i := 0;
      while i < |attlist|
        invariant 0 <= i <= |attlist| && i <= |attvals|
        invariant attributes == old(attributes) + Assigned(attlist, attvals, i)
        invariant shape == old(shape) && ndim == old(ndim) && values == old(values) && mask == old(mask)
      {
        if i >= |attvals| {
          return Fail(IndexError);
        }
        attributes := attributes[attlist[i] := attvals[i]];
        i := i + 1;
      }
      return Ok(());
    }

    /** `var_object(vals, mask_in, extra_atts)`. */
    static method Create(vals: Values, maskIn: Option<Nd<bool>>, extraAtts: Option<(seq<string>, seq<AttValue>)>)
      returns (r: Result<VarObject>)
      requires vals.Valid() && (maskIn.Some? ==> HasShape(maskIn.value, vals.data.shape))
      ensures r.Fail? <==> extraAtts.Some? && |extraAtts.value.0| > |extraAtts.value.1|
      ensures r.Ok? ==> fresh(r.value) && r.value.Valid()
      ensures r.Ok? ==> r.value.shape == vals.data.shape && r.value.values == vals.data.cells
      ensures r.Ok? ==> r.value.mask == CombinedMask(vals, maskIn)
      ensures r.Ok? ==> r.value.attributes == if extraAtts.None? then map[] else Assigned(extraAtts.value.0, extraAtts.value.1, |extraAtts.value.0|)
    {
      var v := new VarObject.Empty();
      if extraAtts.Some? {
        var set_ := v.SetExtraAttributes(extraAtts.value.0, extraAtts.value.1);
        if set_.Fail? {
          return Fail(set_.error);
        }
      }
      v.shape := vals.data.shape;
      v.ndim := |vals.data.shape|;
      v.values := vals.data.cells;
      v.mask := CombinedMask(vals, maskIn);
      return Ok(v);
    }

    /** The values the mask leaves visible, in row-major order. */
    function Visible(): seq<Float>
      reads this
      requires Valid()
    {
      FlattenLength(values, mask, shape);
      Unmasked(Flatten(values), Flatten(mask))
    }

    /** `min()`: the least visible value (NaN if one is NaN), or None (numpy's `masked`) when every cell is masked. */
    function Min(): (r: Option<Float>)
      reads this
      requires Valid()
      ensures r.None? <==> Visible() == []
      ensures r.Some? && !r.value.NaN? ==> r.value in Visible() && forall x :: x in Visible() && !x.NaN? ==> Le(r.value, x)
      ensures r.Some? ==> (r.value.NaN? <==> exists x :: x in Visible() && x.NaN?)
    {
      var s := Visible();
      if s == [] then None
      else
        ExtremeBounds(s, true);
        Some(Extreme(s, true))
    }

    /** `max()`: the greatest visible value (NaN if one is NaN), or None when every cell is masked. */
    function Max(): (r: Option<Float>)
      reads this
      requires Valid()
      ensures r.None? <==> Visible() == []
      ensures r.Some? && !r.value.NaN? ==> r.value in Visible() && forall x :: x in Visible() && !x.NaN? ==> Le(x, r.value)
      ensures r.Some? ==> (r.value.NaN? <==> exists x :: x in Visible() && x.NaN?)
    {
      var s := Visible();
      if s == [] then None
      else
        ExtremeBounds(s, false);
        Some(Extreme(s, false))
    }
  }

  /** Two arrays of one shape flatten to sequences of one length. */
  lemma {:induction false} FlattenLength<T, U>(a: Nd<T>, b: Nd<U>, shape: seq<nat>)
    requires HasShape(a, shape) && HasShape(b, shape)
    ensures |Flatten(a)| == |Flatten(b)|
    decreases a
  {
    if a.Node? {
      FlattenAllLength(a.kids, b.kids, shape[1..]);
    }
  }

  lemma {:induction false} FlattenAllLength<T, U>(as_: seq<Nd<T>>, bs: seq<Nd<U>>, shape: seq<nat>)
    requires |as_| == |bs|
    requires forall k :: 0 <= k < |as_| ==> HasShape(as_[k], shape) && HasShape(bs[k], shape)
    ensures |FlattenAll(as_)| == |FlattenAll(bs)|
    decreases as_
  {
    if as_ != [] {
      FlattenLength(as_[0], bs[0], shape);
      FlattenAllLength(as_[1..], bs[1..], shape);
    }
  }
}
