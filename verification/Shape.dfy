/** Products of dimensions, and the 64-bit overflow guards around them. */
module Products {
  const MAX64: int := 0xffff_ffff_ffff_ffff

  function Product(dims: seq<nat>): nat {
    if dims == [] then 1 else Product(dims[..|dims| - 1]) * dims[|dims| - 1]
  }

  /** A partial product is no larger than the whole, when no factor is zero. */
  lemma {:induction false} ProductGrows(dims: seq<nat>, n: nat)
    requires n <= |dims| && forall i | 0 <= i < |dims| :: dims[i] > 0
    ensures 0 < Product(dims[..n]) <= Product(dims)
    decreases |dims|
  {
    if n == |dims| {
      assert dims[..n] == dims;
      if n > 0 {
        ProductGrows(dims[..n - 1], n - 1);
        assert dims[..n - 1][..n - 1] == dims[..n - 1];
        Positive(Product(dims[..n - 1]), dims[n - 1]);
      }
    } else {
      var front := dims[..|dims| - 1];
      ProductGrows(front, n);
      assert front[..n] == dims[..n];
      Positive(Product(front), dims[|dims| - 1]);
    }
  }

  lemma {:induction false} Positive(x: nat, y: nat)
    requires x > 0 && y > 0
    ensures 0 < x <= x * y
  {
  }

  lemma {:induction false} SmallMultiple(k: int, n: int)
    requires -n < k * n < n
    ensures k == 0
  {
    assert k >= 1 ==> k * n >= n;
    assert k <= -1 ==> k * n <= -n;
  }

  /** The guard before a multiplication decides the true product. */
  lemma {:induction false} Overflow(x: nat, y: nat, maximum: nat)
    requires y > 0
    ensures x > maximum / y <==> x * y > maximum
  {
    var q := maximum / y;
    assert q * y <= maximum < q * y + y;
    assert x >= q + 1 ==> x * y >= (q + 1) * y;
    assert x <= q ==> x * y <= q * y;
  }
}

/** Tensor shapes (src/tensor/Shape.cpp). */
module Shapes {
  import opened Wrappers
  import opened Products

  datatype Shape = Shape(dimensions: seq<nat>, strides: seq<nat>, elementCount: nat, storageElementCount: nat)

  // ---- row-major order ----

  /** The number of elements, from the outermost dimension in. */
  function Volume(dims: seq<nat>): nat {
    if dims == [] then 1 else dims[0] * Volume(dims[1..])
  }

  function RowMajor(dims: seq<nat>): (r: seq<nat>)
    ensures |r| == |dims|
  {
    if dims == [] then [] else [Volume(dims[1..])] + RowMajor(dims[1..])
  }

  predicate Inside(index: seq<nat>, dims: seq<nat>) {
    |index| == |dims| && forall i | 0 <= i < |dims| :: index[i] < dims[i]
  }

  /** The place of an index under given strides. */
  function Place(index: seq<nat>, strides: seq<nat>): nat
    requires |index| == |strides|
  {
    if index == [] then 0 else index[0] * strides[0] + Place(index[1..], strides[1..])
  }

  function IndexAt(dims: seq<nat>, place: nat): (r: seq<nat>)
    requires place < Volume(dims)
    ensures Inside(r, dims)
  {
    if dims == [] then []
    else
      Divides(place, dims[0], Volume(dims[1..]));
      var rest := IndexAt(dims[1..], Inner(place, Volume(dims[1..])));
      var r := [Outer(place, Volume(dims[1..]))] + rest;
      assert forall i | 1 <= i < |dims| :: r[i] == rest[i - 1] && dims[i] == dims[1..][i - 1];
      r
  }

  lemma {:induction false} QuotientFits(place: nat, n: nat, volume: nat)
    requires place < n * volume
    ensures volume > 0 && place / volume < n && place % volume < volume
  {
    assert volume > 0;
    var q := place / volume;
    assert q * volume <= place;
    assert q >= n ==> q * volume >= n * volume;
  }

  lemma {:induction false} QuotientBack(q: nat, r: nat, volume: nat)
    requires r < volume
    ensures (q * volume + r) / volume == q && (q * volume + r) % volume == r
  {
    var p := q * volume + r;
    var k := p / volume - q;
    assert k * volume == r - p % volume;
    SmallMultiple(k, volume);
  }

  lemma {:induction false} Carry(q: nat, n: nat, r: nat, volume: nat)
    requires q < n && r < volume
    ensures q * volume + r < n * volume
  {
    assert (q + 1) * volume <= n * volume;
  }

  /** A quotient and a remainder, kept apart so that proofs see no division. */
  function Outer(place: nat, volume: nat): nat
    requires volume > 0
  {
    place / volume
  }

  function Inner(place: nat, volume: nat): nat
    requires volume > 0
  {
    place % volume
  }

  lemma {:induction false} Divides(place: nat, n: nat, volume: nat)
    requires place < n * volume
    ensures volume > 0 && Outer(place, volume) < n && Inner(place, volume) < volume
    ensures Outer(place, volume) * volume + Inner(place, volume) == place
  {
    QuotientFits(place, n, volume);
  }

  lemma {:induction false} DividesBack(q: nat, r: nat, volume: nat)
    requires r < volume
    ensures Outer(q * volume + r, volume) == q && Inner(q * volume + r, volume) == r
  {
    QuotientBack(q, r, volume);
  }

  lemma {:induction false} PlaceThenIndex(dims: seq<nat>, index: seq<nat>)
    requires Inside(index, dims)
    ensures Place(index, RowMajor(dims)) < Volume(dims)
    ensures IndexAt(dims, Place(index, RowMajor(dims))) == index
    decreases |dims|
  {
    if dims != [] {
      hide Outer, Inner;
      var rest, volume := dims[1..], Volume(dims[1..]);
      PlaceThenIndex(rest, index[1..]);
      var inner := Place(index[1..], RowMajor(rest));
      Carry(index[0], dims[0], inner, volume);
      DividesBack(index[0], inner, volume);
      assert index == [index[0]] + index[1..];
    }
  }

  lemma {:induction false} IndexThenPlace(dims: seq<nat>, place: nat)
    requires place < Volume(dims)
    ensures Place(IndexAt(dims, place), RowMajor(dims)) == place
    decreases |dims|
  {
    if dims != [] {
      hide Outer, Inner;
      var rest, volume := dims[1..], Volume(dims[1..]);
      Divides(place, dims[0], volume);
      IndexThenPlace(rest, Inner(place, volume));
      assert IndexAt(dims, place)[1..] == IndexAt(rest, Inner(place, volume));
    }
  }

  /** Row-major placement is a bijection onto the element numbers: every index
      has its own place below the element count, and every place its index. */
  lemma {:induction false} RowMajorIsBijection(dims: seq<nat>, index: seq<nat>, place: nat)
    ensures Inside(index, dims) ==>
      Place(index, RowMajor(dims)) < Volume(dims) && IndexAt(dims, Place(index, RowMajor(dims))) == index
    ensures place < Volume(dims) ==> Place(IndexAt(dims, place), RowMajor(dims)) == place
  {
    if Inside(index, dims) {
      PlaceThenIndex(dims, index);
    }
    if place < Volume(dims) {
      IndexThenPlace(dims, place);
    }
  }

  lemma {:induction false} VolumePush(dims: seq<nat>, d: nat)
    ensures Volume(dims + [d]) == Volume(dims) * d
  {
    if dims == [] {
      assert [d][1..] == [] && ([] + [d]) == [d];
    } else {
      VolumePush(dims[1..], d);
      assert (dims + [d])[1..] == dims[1..] + [d];
      Associate(dims[0], Volume(dims[1..]), d);
    }
  }

  lemma {:induction false} Associate(x: nat, y: nat, z: nat)
    ensures x * (y * z) == x * y * z
  {
  }

  lemma {:induction false} VolumeIsProduct(dims: seq<nat>)
    ensures Volume(dims) == Product(dims)
  {
    if dims != [] {
      VolumeIsProduct(dims[..|dims| - 1]);
      VolumePush(dims[..|dims| - 1], dims[|dims| - 1]);
      assert dims == dims[..|dims| - 1] + [dims[|dims| - 1]];
    }
  }

  // ---- the constructors ----

  predicate Countable(dims: seq<nat>) {
    (forall i | 0 <= i < |dims| :: dims[i] != 0) && Product(dims) <= MAX64
  }

  /** The counting loop with its 64-bit guard: it refuses exactly a zero
      dimension or a true count beyond the machine's bound. */
  method ValidateAndCount(dims: seq<nat>) returns (count: Option<nat>)
    ensures count == if Countable(dims) then Some(Product(dims)) else None
  {
    var elements := 1;
    assert dims[..0] == [];
    for i := 0 to |dims|
      invariant elements == Product(dims[..i]) <= MAX64
      invariant forall j | 0 <= j < i :: dims[j] > 0
    {
      if dims[i] == 0 {
        return None;
      }
      assert dims[..i + 1][..i] == dims[..i];
      Overflow(elements, dims[i], MAX64);
      if elements > MAX64 / dims[i] {
        if Countable(dims) {
          ProductGrows(dims, i + 1);
        }
        return None;
      }
      elements := elements * dims[i];
    }
    assert dims[..|dims|] == dims;
    count := Some(elements);
  }

  /** Dimensions alone give row-major strides. */
  method FromDimensions(dims: seq<nat>) returns (r: Option<Shape>)
    ensures r.Some? <==> Countable(dims)
    ensures r.Some? ==> r.value == Shape(dims, RowMajor(dims), Volume(dims), Volume(dims))
  {
    var count := ValidateAndCount(dims);
    if count == None {
      return None;
    }
    VolumeIsProduct(dims);
    var strides := MakeContiguousStrides(dims);
    r := Some(Shape(dims, strides, count.value, count.value));
  }

  method MakeContiguousStrides(dims: seq<nat>) returns (strides: seq<nat>)
    ensures strides == RowMajor(dims)
  {
    strides := [];
    var stride := 1;
    for i := |dims| downto 0
      invariant strides == RowMajor(dims[i..]) && stride == Volume(dims[i..])
    {
      assert dims[i..][1..] == dims[i + 1..];
      strides := [stride] + strides;
      stride := stride * dims[i];
    }
    assert dims[0..] == dims;
  }

  /** The largest place an index can reach. */
  function Reach(dims: seq<nat>, strides: seq<nat>): nat
    requires |dims| == |strides| && forall i | 0 <= i < |dims| :: dims[i] > 0
  {
    if dims == [] then 0 else Reach(dims[..|dims| - 1], strides[..|dims| - 1]) + (dims[|dims| - 1] - 1) * strides[|dims| - 1]
  }

  /** Strides are refused when the ranks differ, when a stride is zero while
      there is more than one element, or when the true span does not fit. */
  predicate Stridable(dims: seq<nat>, strides: seq<nat>) {
    && Countable(dims) && |strides| == |dims|
    && (Product(dims) > 1 ==> forall i | 0 <= i < |strides| :: strides[i] != 0)
    && 1 + Reach(dims, strides) <= MAX64
  }

  method FromStrides(dims: seq<nat>, strides: seq<nat>) returns (r: Option<Shape>)
    ensures r.Some? <==> Stridable(dims, strides)
    ensures r.Some? ==> r.value == Shape(dims, strides, Product(dims), 1 + Reach(dims, strides))
  {
    var count := ValidateAndCount(dims);
    if count == None || |strides| != |dims| {
      return None;
    }
    for i := 0 to |strides|
      invariant count.value > 1 ==> forall j | 0 <= j < i :: strides[j] != 0
    {
      if strides[i] == 0 && count.value > 1 {
        return None;
      }
    }
    var storage := 1;
    assert dims[..0] == [] && strides[..0] == [];
    for i := 0 to |dims|
      invariant storage == 1 + Reach(dims[..i], strides[..i]) <= MAX64
    {
      var distance := dims[i] - 1;
      assert dims[..i + 1][..i] == dims[..i] && strides[..i + 1][..i] == strides[..i];
      if distance != 0 {
        Overflow(strides[i], distance, MAX64 - storage);
        if strides[i] > (MAX64 - storage) / distance {
          ReachGrows(dims, strides, i + 1);
          return None;
        }
      }
      storage := storage + distance * strides[i];
    }
    assert dims[..|dims|] == dims && strides[..|dims|] == strides;
    r := Some(Shape(dims, strides, count.value, storage));
  }

  lemma {:induction false} ReachGrows(dims: seq<nat>, strides: seq<nat>, n: nat)
    requires n <= |dims| == |strides| && forall i | 0 <= i < |dims| :: dims[i] > 0
    ensures Reach(dims[..n], strides[..n]) <= Reach(dims, strides)
    decreases |dims|
  {
    if n == |dims| {
      assert dims[..n] == dims && strides[..n] == strides;
    } else {
      var m := |dims| - 1;
      ReachGrows(dims[..m], strides[..m], n);
      assert dims[..m][..n] == dims[..n] && strides[..m][..n] == strides[..n];
      assert (dims[m] - 1) * strides[m] >= 0;
    }
  }

  // ---- what storageElementCount means ----

  lemma {:induction false} PlacePush(index: seq<nat>, strides: seq<nat>)
    requires |index| == |strides| > 0
    ensures var m := |index| - 1;
      Place(index, strides) == Place(index[..m], strides[..m]) + index[m] * strides[m]
  {
    var m := |index| - 1;
    if m == 0 {
      assert index[1..] == [] && strides[1..] == [];
      assert index[..0] == [] && strides[..0] == [];
    } else {
      PlacePush(index[1..], strides[1..]);
      assert index[1..][..m - 1] == index[..m][1..] && strides[1..][..m - 1] == strides[..m][1..];
    }
  }

  /** No index reaches beyond, and the last index reaches it: the storage count
      is exactly one more than the largest reachable place. */
  lemma {:induction false} ReachIsLargest(dims: seq<nat>, strides: seq<nat>, index: seq<nat>)
    requires |dims| == |strides| && Inside(index, dims)
    ensures Place(index, strides) <= Reach(dims, strides)
    ensures var last := seq(|dims|, i requires 0 <= i < |dims| => dims[i] - 1);
      Inside(last, dims) && Place(last, strides) == Reach(dims, strides)
  {
    var last := seq(|dims|, i requires 0 <= i < |dims| => dims[i] - 1);
    if dims != [] {
      var m := |dims| - 1;
      ReachIsLargest(dims[..m], strides[..m], index[..m]);
      PlacePush(index, strides);
      PlacePush(last, strides);
      assert last[..m] == seq(m, i requires 0 <= i < m => dims[..m][i] - 1);
      Monotone(index[m], dims[m] - 1, strides[m]);
    }
  }

  lemma {:induction false} Monotone(x: nat, y: nat, z: nat)
    requires x <= y
    ensures x * z <= y * z
  {
  }

  /** Strides are accepted exactly for as many nonzero dimensions, of no more
      than 64 bits of elements, when no stride is zero unless there is one
      element only, and no index leaves the storage that 64 bits can count. */
  lemma {:induction false} StridesFitExactly(dims: seq<nat>, strides: seq<nat>)
    ensures Stridable(dims, strides) <==>
      && |strides| == |dims| && (forall i | 0 <= i < |dims| :: dims[i] > 0)
      && Volume(dims) <= 0xffff_ffff_ffff_ffff
      && (Volume(dims) == 1 || forall i | 0 <= i < |dims| :: strides[i] > 0)
      && forall index | Inside(index, dims) :: Place(index, strides) < 0xffff_ffff_ffff_ffff
  {
    VolumeIsProduct(dims);
    if |strides| == |dims| && forall i | 0 <= i < |dims| :: dims[i] > 0 {
      var last := seq(|dims|, i requires 0 <= i < |dims| => dims[i] - 1);
      ReachIsLargest(dims, strides, last);
      ProductGrows(dims, 0);
      assert dims[..0] == [] && Inside(last, dims);
      forall index | Inside(index, dims) ensures Place(index, strides) <= Reach(dims, strides) {
        ReachIsLargest(dims, strides, index);
      }
      hide Place, Reach, Volume, Product;
    }
  }

  /** The contiguity test compares the strides with row-major order. */
  method IsContiguous(s: Shape) returns (r: bool)
    requires |s.strides| == |s.dimensions|
    ensures r <==> s.strides == RowMajor(s.dimensions)
  {
    var expected := 1;
    for i := |s.dimensions| downto 0
      invariant expected == Volume(s.dimensions[i..])
      invariant s.strides[i..] == RowMajor(s.dimensions[i..])
    {
      assert s.dimensions[i..][1..] == s.dimensions[i + 1..];
      assert s.strides[i..] == [s.strides[i]] + s.strides[i + 1..];
      if s.strides[i] != expected {
        StridesAt(s.dimensions, i);
        return false;
      }
      expected := expected * s.dimensions[i];
    }
    assert s.dimensions[0..] == s.dimensions && s.strides[0..] == s.strides;
    r := true;
  }

  lemma {:induction false} StridesAt(dims: seq<nat>, i: nat)
    requires i < |dims|
    ensures RowMajor(dims)[i] == Volume(dims[i + 1..])
  {
    if i > 0 {
      StridesAt(dims[1..], i - 1);
      assert dims[1..][i..] == dims[i + 1..];
    }
  }
}
