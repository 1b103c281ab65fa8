/**
 * The n-dimensional arrays the readers pass around (numpy arrays and the
 * slices netCDF4 returns), as nested sequences together with their shape,
 * so that an axis of length 0 keeps the lengths of the axes below it.
 * Python's integer indexing (negative indices count from the end) and
 * slicing (bounds are clamped) along one axis are modelled here.
 */
module NdArrays {
  import opened Outcomes

  /** A scalar, or the sequence of sub-arrays along the first axis. */
  datatype Nd<T> = Leaf(v: T) | Node(kids: seq<Nd<T>>)

  /** `t` is a regular array of exactly this shape. */
  predicate HasShape<T>(t: Nd<T>, shape: seq<nat>)
    decreases t
  {
    if shape == [] then t.Leaf?
    else t.Node? && |t.kids| == shape[0] && forall k :: 0 <= k < |t.kids| ==> HasShape(t.kids[k], shape[1..])
  }

  /** An array value: its shape and its cells. */
  datatype NdArray<T> = NdArray(shape: seq<nat>, cells: Nd<T>) {
    predicate Valid() {
      HasShape(cells, shape)
    }

    function Rank(): nat {
      |shape|
    }
  }

  /** `idx` addresses one cell of an array of this shape. */
  predicate InBounds(shape: seq<nat>, idx: seq<nat>) {
    |idx| == |shape| && forall k :: 0 <= k < |idx| ==> idx[k] < shape[k]
  }

  /** The cell of `t` at `idx`. */
  function At<T>(t: Nd<T>, shape: seq<nat>, idx: seq<nat>): T
    requires HasShape(t, shape) && InBounds(shape, idx)
    decreases |shape|
  {
    if shape == [] then t.v else At(t.kids[idx[0]], shape[1..], idx[1..])
  }

  /** `shape` without axis `axis`. */
  function Drop(shape: seq<nat>, axis: nat): seq<nat>
    requires axis < |shape|
  {
    shape[..axis] + shape[axis + 1..]
  }

  /** `idx` with `i` inserted at position `axis`. */
  function Insert(idx: seq<nat>, axis: nat, i: nat): seq<nat>
    requires axis <= |idx|
  {
    idx[..axis] + [i] + idx[axis..]
  }

  /** The sub-array at position `i` of axis `axis` (numpy `take(i, axis)` for an in-range `i`). */
  function Select<T>(t: Nd<T>, shape: seq<nat>, axis: nat, i: nat): (r: Nd<T>)
    requires HasShape(t, shape) && axis < |shape| && i < shape[axis]
    ensures HasShape(r, Drop(shape, axis))
    decreases |shape|
  {
    if axis == 0 then
      assert Drop(shape, 0) == shape[1..];
      t.kids[i]
    else
      var kids := seq(|t.kids|, k requires 0 <= k < |t.kids| => Select(t.kids[k], shape[1..], axis - 1, i));
      assert Drop(shape, axis) == [shape[0]] + Drop(shape[1..], axis - 1);
      Node(kids)
  }

  /** Selecting along an axis keeps every other coordinate: cell `idx` of the result is cell `idx` with `i` inserted. */
  lemma {:induction false} SelectAt<T>(t: Nd<T>, shape: seq<nat>, axis: nat, i: nat, idx: seq<nat>)
    requires HasShape(t, shape) && axis < |shape| && i < shape[axis]
    requires InBounds(Drop(shape, axis), idx)
    ensures InBounds(shape, Insert(idx, axis, i))
    ensures At(Select(t, shape, axis, i), Drop(shape, axis), idx) == At(t, shape, Insert(idx, axis, i))
    decreases |shape|
  {
    InsertInBounds(shape, axis, i, idx);
    if axis == 0 {
      assert Drop(shape, 0) == shape[1..];
      assert Insert(idx, 0, i) == [i] + idx;
    } else {
      InnerCoordinates(shape, axis, i, idx);
      var kid := t.kids[idx[0]];
      SelectAt(kid, shape[1..], axis - 1, i, idx[1..]);
      assert Select(t, shape, axis, i).kids[idx[0]] == Select(kid, shape[1..], axis - 1, i);
    }
  }

  /** Below the first axis, dropping and inserting act on the tail of the shape and of the index. */
  lemma InnerCoordinates(shape: seq<nat>, axis: nat, i: nat, idx: seq<nat>)
    requires 0 < axis < |shape| && InBounds(Drop(shape, axis), idx)
    ensures Drop(shape, axis) == [shape[0]] + Drop(shape[1..], axis - 1)
    ensures InBounds(Drop(shape[1..], axis - 1), idx[1..])
    ensures Insert(idx, axis, i) == [idx[0]] + Insert(idx[1..], axis - 1, i)
  {
    var rest := Drop(shape[1..], axis - 1);
    assert Drop(shape, axis) == [shape[0]] + rest;
    forall k | 0 <= k < |idx| - 1 ensures idx[1..][k] < rest[k] {
      assert idx[k + 1] < Drop(shape, axis)[k + 1];
    }
  }

  lemma InsertInBounds(shape: seq<nat>, axis: nat, i: nat, idx: seq<nat>)
    requires axis < |shape| && i < shape[axis] && InBounds(Drop(shape, axis), idx)
    ensures InBounds(shape, Insert(idx, axis, i))
  {
    var full := Insert(idx, axis, i);
    forall k | 0 <= k < |full| ensures full[k] < shape[k] {
      if k < axis {
        assert full[k] == idx[k] && Drop(shape, axis)[k] == shape[k];
      } else if k > axis {
        assert full[k] == idx[k - 1] && Drop(shape, axis)[k - 1] == shape[k];
      }
    }
  }

  /** The positions `lo` to `hi` (exclusive) of axis `axis`. */
  function SliceNd<T>(t: Nd<T>, shape: seq<nat>, axis: nat, lo: nat, hi: nat): (r: Nd<T>)
    requires HasShape(t, shape) && axis < |shape| && lo <= hi <= shape[axis]
    ensures HasShape(r, shape[axis := hi - lo])
    decreases |shape|
  {
    if axis == 0 then
      var kids := t.kids[lo..hi];
      assert forall k :: 0 <= k < |kids| ==> kids[k] == t.kids[lo + k];
      assert shape[0 := hi - lo][1..] == shape[1..];
      Node(kids)
    else
      var kids := seq(|t.kids|, k requires 0 <= k < |t.kids| => SliceNd(t.kids[k], shape[1..], axis - 1, lo, hi));
      assert shape[axis := hi - lo] == [shape[0]] + shape[1..][axis - 1 := hi - lo];
      Node(kids)
  }

  /** Slicing keeps the cells it keeps: cell `idx` of the result is the original cell shifted by `lo` on `axis`. */
  lemma {:induction false} SliceAt<T>(t: Nd<T>, shape: seq<nat>, axis: nat, lo: nat, hi: nat, idx: seq<nat>)
    requires HasShape(t, shape) && axis < |shape| && lo <= hi <= shape[axis]
    requires InBounds(shape[axis := hi - lo], idx)
    ensures InBounds(shape, idx[axis := idx[axis] + lo])
    ensures At(SliceNd(t, shape, axis, lo, hi), shape[axis := hi - lo], idx) == At(t, shape, idx[axis := idx[axis] + lo])
    decreases |shape|
  {
    var moved := idx[axis := idx[axis] + lo];
    assert InBounds(shape, moved) by {
      forall k | 0 <= k < |moved| ensures moved[k] < shape[k] {
        assert idx[k] < shape[axis := hi - lo][k];
      }
    }
    if axis == 0 {
      assert moved[1..] == idx[1..];
    } else {
      var inner := shape[1..][axis - 1 := hi - lo];
      assert shape[axis := hi - lo] == [shape[0]] + inner;
      assert InBounds(inner, idx[1..]) by {
        forall k | 0 <= k < |idx| - 1 ensures idx[1..][k] < inner[k] {
          assert idx[k + 1] < shape[axis := hi - lo][k + 1];
        }
      }
      SliceAt(t.kids[idx[0]], shape[1..], axis - 1, lo, hi, idx[1..]);
      assert moved[1..] == idx[1..][axis - 1 := idx[axis] + lo];
    }
  }

  /** Python's integer index into an axis of length `n`: negative indices count from the end. */
  function PyIndex(n: nat, i: int): (r: Result<nat>)
    ensures r.Ok? <==> -(n as int) <= i < n
    ensures r.Ok? ==> r.value < n && (r.value == i || r.value == i + n)
  {
    if 0 <= i < n then Ok(i)
    else if -(n as int) <= i < 0 then Ok(i + n)
    else Fail(IndexError)
  }

  /** One bound of a Python slice over length `n`: negative counts from the end, then clamped to [0, n]. */
  function SliceBound(n: nat, b: int): (r: nat)
    ensures r <= n
    ensures 0 <= b <= n ==> r == b
    ensures -(n as int) <= b < 0 ==> r == b + n
  {
    if b < 0 then (if b + n < 0 then 0 else b + n) else if b > n then n else b
  }

  /** `a[(:,)*axis, i]` / `a.take(i, axis)`: IndexError when `i` is out of range. */
  function Index<T>(a: NdArray<T>, axis: nat, i: int): (r: Result<NdArray<T>>)
    requires a.Valid() && axis < a.Rank()
    ensures r.Ok? <==> -(a.shape[axis] as int) <= i < a.shape[axis]
    ensures r.Ok? ==> r.value.Valid() && r.value.shape == Drop(a.shape, axis)
  {
    var k :- PyIndex(a.shape[axis], i);
    Ok(NdArray(Drop(a.shape, axis), Select(a.cells, a.shape, axis, k)))
  }

  /** `a[(:,)*axis, lo:hi]`: never fails; the bounds are clamped. */
  function Slice<T>(a: NdArray<T>, axis: nat, lo: int, hi: int): (r: NdArray<T>)
    requires a.Valid() && axis < a.Rank()
    ensures r.Valid() && |r.shape| == |a.shape|
    ensures forall k :: 0 <= k < |a.shape| && k != axis ==> r.shape[k] == a.shape[k]
    ensures r.shape[axis] <= a.shape[axis]
    ensures 0 <= lo <= hi <= a.shape[axis] ==> r.shape[axis] == hi - lo
  {
    var n := a.shape[axis];
    var l := SliceBound(n, lo);
    var h := SliceBound(n, hi);
    var h' := if h < l then l else h;
    NdArray(a.shape[axis := h' - l], SliceNd(a.cells, a.shape, axis, l, h'))
  }

  /** Applies `f` to every cell. */
  function MapNd<T, U>(t: Nd<T>, f: T -> U): Nd<U>
    decreases t
  {
    match t
    case Leaf(v) => Leaf(f(v))
    case Node(kids) => Node(seq(|kids|, k requires 0 <= k < |kids| => MapNd(kids[k], f)))
  }

  lemma {:induction false} MapShape<T, U>(t: Nd<T>, shape: seq<nat>, f: T -> U)
    requires HasShape(t, shape)
    ensures HasShape(MapNd(t, f), shape)
    decreases |shape|
  {
    if shape != [] {
      forall k | 0 <= k < |t.kids| ensures HasShape(MapNd(t, f).kids[k], shape[1..]) {
        MapShape(t.kids[k], shape[1..], f);
      }
    }
  }

  lemma {:induction false} MapAt<T, U>(t: Nd<T>, shape: seq<nat>, f: T -> U, idx: seq<nat>)
    requires HasShape(t, shape) && InBounds(shape, idx)
    ensures HasShape(MapNd(t, f), shape)
    ensures At(MapNd(t, f), shape, idx) == f(At(t, shape, idx))
    decreases |shape|
  {
    MapShape(t, shape, f);
    if shape != [] {
      MapAt(t.kids[idx[0]], shape[1..], f, idx[1..]);
    }
  }

  /** Combines two arrays of one shape cell by cell. */
  function ZipNd<T>(a: Nd<T>, b: Nd<T>, shape: seq<nat>, f: (T, T) -> T): (r: Nd<T>)
    requires HasShape(a, shape) && HasShape(b, shape)
    ensures HasShape(r, shape)
    decreases |shape|
  {
    if shape == [] then Leaf(f(a.v, b.v))
    else Node(seq(|a.kids|, k requires 0 <= k < |a.kids| => ZipNd(a.kids[k], b.kids[k], shape[1..], f)))
  }

  lemma {:induction false} ZipAt<T>(a: Nd<T>, b: Nd<T>, shape: seq<nat>, f: (T, T) -> T, idx: seq<nat>)
    requires HasShape(a, shape) && HasShape(b, shape) && InBounds(shape, idx)
    ensures At(ZipNd(a, b, shape, f), shape, idx) == f(At(a, shape, idx), At(b, shape, idx))
    decreases |shape|
  {
    if shape != [] {
      ZipAt(a.kids[idx[0]], b.kids[idx[0]], shape[1..], f, idx[1..]);
    }
  }

  /** The cells in row-major order. */
  function Flatten<T>(t: Nd<T>): seq<T>
    decreases t
  {
    match t
    case Leaf(v) => [v]
    case Node(kids) => FlattenAll(kids)
  }

  function FlattenAll<T>(ts: seq<Nd<T>>): seq<T>
    decreases ts
  {
    if ts == [] then [] else Flatten(ts[0]) + FlattenAll(ts[1..])
  }

  /** A one-dimensional array lists its cells in order. */
  lemma FlattenLeaves<T>(t: Nd<T>, shape: seq<nat>)
    requires |shape| == 1 && HasShape(t, shape)
    ensures Flatten(t) == seq(shape[0], i requires 0 <= i < shape[0] => At(t, shape, [i]))
  {
    assert forall k :: 0 <= k < |t.kids| ==> HasShape(t.kids[k], []);
    LeavesInOrder(t.kids);
    forall i | 0 <= i < shape[0]
      ensures At(t, shape, [i]) == t.kids[i].v
    {
      assert [i][0] == i && [i][1..] == [];
    }
  }

  lemma {:induction false} LeavesInOrder<T>(kids: seq<Nd<T>>)
    requires forall k :: 0 <= k < |kids| ==> kids[k].Leaf?
    ensures FlattenAll(kids) == seq(|kids|, i requires 0 <= i < |kids| => kids[i].v)
    decreases |kids|
  {
    if kids != [] {
      LeavesInOrder(kids[1..]);
    }
  }

  /** Applies a conversion that can fail to every cell in row-major order; the first failure ends it. */
  function TryMapNd<T, U>(t: Nd<T>, f: T -> Result<U>): Result<Nd<U>>
    decreases t
  {
    match t
    case Leaf(v) =>
      var u :- f(v);
      Ok(Leaf(u))
    case Node(kids) =>
      var ks :- TryMapKids(kids, f);
      Ok(Node(ks))
  }

  function TryMapKids<T, U>(kids: seq<Nd<T>>, f: T -> Result<U>): Result<seq<Nd<U>>>
    decreases kids
  {
    if kids == [] then Ok([])
    else
      var k :- TryMapNd(kids[0], f);
      var rest :- TryMapKids(kids[1..], f);
      Ok([k] + rest)
  }

  /** The sub-arrays are converted one by one, and all of them must succeed. */
  lemma {:induction false} TryMapKidsEach<T, U>(kids: seq<Nd<T>>, f: T -> Result<U>)
    ensures TryMapKids(kids, f).Ok? <==> forall k :: 0 <= k < |kids| ==> TryMapNd(kids[k], f).Ok?
    ensures TryMapKids(kids, f).Ok? ==>
      (|TryMapKids(kids, f).value| == |kids|
       && forall k :: 0 <= k < |kids| ==> TryMapNd(kids[k], f) == Ok(TryMapKids(kids, f).value[k]))
    decreases kids
  {
    if kids != [] {
      TryMapKidsEach(kids[1..], f);
      assert forall k :: 1 <= k < |kids| ==> kids[1..][k - 1] == kids[k];
    }
  }

  /** A conversion of every cell keeps the shape, and each cell is the conversion of the cell at the same place. */
  lemma {:induction false} TryMapAt<T, U>(t: Nd<T>, shape: seq<nat>, f: T -> Result<U>)
    requires HasShape(t, shape) && TryMapNd(t, f).Ok?
    ensures HasShape(TryMapNd(t, f).value, shape)
    ensures forall idx :: InBounds(shape, idx) ==> f(At(t, shape, idx)) == Ok(At(TryMapNd(t, f).value, shape, idx))
    decreases |shape|
  {
    if shape != [] {
      TryMapKidsEach(t.kids, f);
      var r := TryMapNd(t, f).value;
      forall k | 0 <= k < |t.kids|
        ensures HasShape(r.kids[k], shape[1..])
        ensures forall idx :: InBounds(shape[1..], idx) ==> f(At(t.kids[k], shape[1..], idx)) == Ok(At(r.kids[k], shape[1..], idx))
      {
        TryMapAt(t.kids[k], shape[1..], f);
      }
      forall idx | InBounds(shape, idx)
        ensures f(At(t, shape, idx)) == Ok(At(r, shape, idx))
      {
        assert InBounds(shape[1..], idx[1..]);
      }
    }
  }

  /** A cell that cannot be converted fails the whole conversion. */
  lemma {:induction false} TryMapFails<T, U>(t: Nd<T>, shape: seq<nat>, f: T -> Result<U>, idx: seq<nat>)
    requires HasShape(t, shape) && InBounds(shape, idx) && f(At(t, shape, idx)).Fail?
    ensures TryMapNd(t, f).Fail?
    decreases |shape|
  {
    if shape != [] {
      assert InBounds(shape[1..], idx[1..]);
      TryMapFails(t.kids[idx[0]], shape[1..], f, idx[1..]);
      TryMapKidsEach(t.kids, f);
    }
  }
}
