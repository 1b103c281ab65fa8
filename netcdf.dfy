/**
 * The contents of an open netCDF file as the readers see them through
 * netCDF4: named dimensions with their lengths, variables in declaration
 * order, and for each variable its dimension names, its attributes in
 * declaration order, its data and the mask netCDF4 applies when reading
 * (cells equal to `_FillValue` or `missing_value`).  Opening, reading and
 * writing files happen outside the model.
 */
module NetCdf {
  import opened Outcomes
  import opened NdArrays

  /** A numpy floating-point value. */
  datatype Float = Finite(x: real) | NaN | PosInf | NegInf

  /** An attribute value: text, a number, or a tuple of names (the `dimensions` a reader attaches). */
  datatype AttValue = Text(s: string) | Number(x: Float) | Names(names: seq<string>)

  predicate NoDuplicates<T(==)>(s: seq<T>) {
    forall i, j :: 0 <= i < j < |s| ==> s[i] != s[j]
  }

  datatype NcVariable = NcVariable(
    dimensions: seq<string>,
    attributeNames: seq<string>,
    attributes: map<string, AttValue>,
    data: NdArray<Float>,
    mask: Nd<bool>)
  {
    predicate Valid() {
      && data.Valid() && HasShape(mask, data.shape) && |dimensions| == data.Rank()
      && NoDuplicates(attributeNames) && attributes.Keys == (set a | a in attributeNames)
    }

    /** `var.ndim`. */
    function Rank(): nat {
      |dimensions|
    }
  }

  datatype NcFile = NcFile(dimensions: map<string, nat>, variableNames: seq<string>, variables: map<string, NcVariable>)
  {
    predicate Valid() {
      && NoDuplicates(variableNames) && variables.Keys == (set v | v in variableNames)
      && forall v :: v in variables ==> variables[v].Valid() && Conforms(variables[v])
    }

    /** Every dimension of `v` is declared, with the length `v`'s data has along it. */
    predicate Conforms(v: NcVariable)
      requires v.Valid()
    {
      forall k :: 0 <= k < |v.dimensions| ==> v.dimensions[k] in dimensions && dimensions[v.dimensions[k]] == v.data.shape[k]
    }
  }
}
