/**
Packing a model's experts and viewing them again: WeightConverter::convert,
the expert part of ExpertPacker::pack, ExpertWeightMap and
TensorView::sliceBytes. A tensor is the bytes of its elements; nothing here
looks inside an element.
 */
module WeightConverter {
  import opened Wrappers
  import opened ByteValues
  import opened Bytes
  import opened Shapes
  import opened Products

  datatype Layout = InputOutput | OutputInput

  /** The number of element (i, j) in a matrix of n columns. */
  function ElementAt(i: nat, j: nat, n: nat): nat {
    i * n + j
  }

  /** The place of its byte b. */
  function ByteAt(i: nat, j: nat, n: nat, width: nat, b: nat): nat {
    ElementAt(i, j, n) * width + b
  }

  /** Where byte p of a transposed matrix comes from: byte b of element
      (column, row) is byte b of element (row, column). */
  function Origin(p: nat, rows: nat, columns: nat, width: nat): (s: nat)
    requires p < rows * columns * width
    ensures s < rows * columns * width
  {
    Divides(p, rows * columns, width);
    var k := Outer(p, width);
    assert k < columns * rows;
    Divides(k, columns, rows);
    Carry(Inner(k, rows), rows, Outer(k, rows), columns);
    Carry(Inner(k, rows) * columns + Outer(k, rows), rows * columns, Inner(p, width), width);
    ByteAt(Inner(k, rows), Outer(k, rows), columns, width, Inner(p, width))
  }

  lemma {:induction false} ByteInside(rows: nat, columns: nat, width: nat, row: nat, column: nat, b: nat)
    requires row < rows && column < columns && b < width
    ensures ByteAt(row, column, columns, width, b) < rows * columns * width
    ensures ByteAt(column, row, rows, width, b) < rows * columns * width
  {
    Carry(row, rows, column, columns);
    Carry(column, columns, row, rows);
    Carry(row * columns + column, rows * columns, b, width);
    Carry(column * rows + row, rows * columns, b, width);
    assert columns * rows == rows * columns;
  }

  lemma {:induction false} OriginOf(rows: nat, columns: nat, width: nat, row: nat, column: nat, b: nat)
    requires row < rows && column < columns && b < width
    ensures ByteAt(column, row, rows, width, b) < rows * columns * width
    ensures Origin(ByteAt(column, row, rows, width, b), rows, columns, width) == ByteAt(row, column, columns, width, b)
  {
    ByteInside(rows, columns, width, row, column, b);
    PartsOfByte(column, row, rows, width, b);
    hide Outer, Inner, ByteAt, ElementAt;
  }

  /** Dividing a byte's place gives back the byte, the row and the column. */
  lemma {:induction false} PartsOfByte(i: nat, j: nat, n: nat, width: nat, b: nat)
    requires j < n && b < width
    ensures Outer(ByteAt(i, j, n, width, b), width) == ElementAt(i, j, n) && Inner(ByteAt(i, j, n, width, b), width) == b
    ensures Outer(ElementAt(i, j, n), n) == i && Inner(ElementAt(i, j, n), n) == j
  {
    DividesBack(ElementAt(i, j, n), b, width);
    DividesBack(i, j, n);
    hide Outer, Inner;
  }

  /** Every place is byte b of some element. */
  lemma {:induction false} ByteIsSomewhere(p: nat, rows: nat, columns: nat, width: nat)
    returns (row: nat, column: nat, b: nat)
    requires p < rows * columns * width
    ensures row < rows && column < columns && b < width && p == ByteAt(row, column, columns, width, b)
  {
    hide Outer, Inner;
    Divides(p, rows * columns, width);
    b := Inner(p, width);
    var k := Outer(p, width);
    Divides(k, rows, columns);
    row, column := Outer(k, columns), Inner(k, columns);
  }

  /** Transposing places twice comes back. */
  lemma {:induction false} OriginInverse(p: nat, rows: nat, columns: nat, width: nat)
    requires p < rows * columns * width
    ensures columns * rows * width == rows * columns * width
    ensures Origin(Origin(p, rows, columns, width), columns, rows, width) == p
  {
    assert columns * rows == rows * columns;
    var column, row, b := ByteIsSomewhere(p, columns, rows, width);
    hide Origin;
    OriginOf(rows, columns, width, row, column, b);
    OriginOf(columns, rows, width, column, row, b);
  }

  /** The transposed matrix, byte by byte. */
  function Transposed(source: Bytes, rows: nat, columns: nat, width: nat): (r: Bytes)
    requires |source| == rows * columns * width
    ensures |r| == |source|
  {
    seq(|source|, p requires 0 <= p < |source| => source[Origin(p, rows, columns, width)])
  }

  /** Element (i, j) of a matrix of n columns. */
  function Element(bytes: Bytes, m: nat, n: nat, width: nat, i: nat, j: nat): (e: Bytes)
    requires |bytes| == m * n * width && i < m && j < n
    ensures |e| == width
  {
    ElementInside(m, n, width, i, j);
    bytes[ByteAt(i, j, n, width, 0)..ByteAt(i, j, n, width, 0) + width]
  }

  lemma {:induction false} ElementInside(m: nat, n: nat, width: nat, i: nat, j: nat)
    requires i < m && j < n
    ensures ByteAt(i, j, n, width, 0) + width <= m * n * width
  {
    Carry(i, m, j, n);
    assert ElementAt(i, j, n) < m * n;
    hide ElementAt;
    if width > 0 {
      Carry(ElementAt(i, j, n), m * n, width - 1, width);
    }
  }

  /** Transposition moves whole elements, and doing it twice is the identity. */
  lemma {:induction false} TransposedElements(source: Bytes, rows: nat, columns: nat, width: nat, row: nat, column: nat)
    requires |source| == rows * columns * width && row < rows && column < columns
    ensures columns * rows * width == rows * columns * width
    ensures Element(Transposed(source, rows, columns, width), columns, rows, width, column, row)
         == Element(source, rows, columns, width, row, column)
  {
    assert columns * rows == rows * columns;
    hide Element, Origin, ByteAt;
    var t := Transposed(source, rows, columns, width);
    var moved, own := Element(t, columns, rows, width, column, row), Element(source, rows, columns, width, row, column);
    forall b | 0 <= b < width
      ensures moved[b] == own[b]
    {
      ElementByte(t, columns, rows, width, column, row, b);
      ElementByte(source, rows, columns, width, row, column, b);
      OriginOf(rows, columns, width, row, column, b);
    }
  }

  lemma {:induction false} ElementByte(bytes: Bytes, m: nat, n: nat, width: nat, i: nat, j: nat, b: nat)
    requires |bytes| == m * n * width && i < m && j < n && b < width
    ensures ByteAt(i, j, n, width, b) < |bytes|
    ensures Element(bytes, m, n, width, i, j)[b] == bytes[ByteAt(i, j, n, width, b)]
  {
    ElementInside(m, n, width, i, j);
  }

  lemma {:induction false} TransposedTwice(source: Bytes, rows: nat, columns: nat, width: nat)
    requires |source| == rows * columns * width
    ensures columns * rows * width == rows * columns * width
    ensures Transposed(Transposed(source, rows, columns, width), columns, rows, width) == source
  {
    assert columns * rows == rows * columns;
    hide Origin;
    forall p | 0 <= p < |source|
      ensures Transposed(Transposed(source, rows, columns, width), columns, rows, width)[p] == source[p]
    {
      OriginInverse(p, columns, rows, width);
    }
  }

  /** Every byte whose origin lies below a mark is in place. */
  ghost predicate PlacedBelow(now: seq<byte>, source: Bytes, rows: nat, columns: nat, width: nat, mark: nat)
    requires |source| == rows * columns * width
  {
    && |now| == |source|
    && forall p | 0 <= p < |source| && Origin(p, rows, columns, width) < mark ::
         now[p] == source[Origin(p, rows, columns, width)]
  }

  lemma {:induction false} PlaceOne(now: seq<byte>, source: Bytes, rows: nat, columns: nat, width: nat, row: nat,
                                    column: nat, b: nat)
    requires |source| == rows * columns * width && row < rows && column < columns && b < width
    requires PlacedBelow(now, source, rows, columns, width, ByteAt(row, column, columns, width, b))
    ensures ByteAt(row, column, columns, width, b) < |source|
    ensures ByteAt(column, row, rows, width, b) < |source|
    ensures PlacedBelow(
      now[ByteAt(column, row, rows, width, b) := source[ByteAt(row, column, columns, width, b)]],
      source, rows, columns, width, ByteAt(row, column, columns, width, b) + 1)
  {
    ByteInside(rows, columns, width, row, column, b);
    hide Origin, ByteAt;
    var s, t := ByteAt(row, column, columns, width, b), ByteAt(column, row, rows, width, b);
    OriginOf(rows, columns, width, row, column, b);
    forall p | 0 <= p < |source| && Origin(p, rows, columns, width) == s
      ensures p == t
    {
      OriginInverse(p, rows, columns, width);
      OriginInverse(t, rows, columns, width);
    }
  }

  /** One element copied to its transposed place. */
  method CopyElement(result: array<byte>, source: Bytes, rows: nat, columns: nat, width: nat, row: nat, column: nat)
    requires |source| == rows * columns * width && row < rows && column < columns && result.Length == |source|
    requires PlacedBelow(result[..], source, rows, columns, width, ByteAt(row, column, columns, width, 0))
    modifies result
    ensures PlacedBelow(result[..], source, rows, columns, width, ByteAt(row, column, columns, width, width))
  {
    for b := 0 to width
      invariant PlacedBelow(result[..], source, rows, columns, width, ByteAt(row, column, columns, width, b))
    {
      ghost var before := result[..];
      PlaceOne(before, source, rows, columns, width, row, column, b);
      hide PlacedBelow;
      result[ByteAt(column, row, rows, width, b)] := source[ByteAt(row, column, columns, width, b)];
      assert result[..] == before[ByteAt(column, row, rows, width, b) := source[ByteAt(row, column, columns, width, b)]];
    }
  }

  lemma {:induction false} NextElement(row: nat, column: nat, columns: nat, width: nat)
    ensures ByteAt(row, column, columns, width, width) == ByteAt(row, column + 1, columns, width, 0)
    ensures ByteAt(row, columns, columns, width, 0) == ByteAt(row + 1, 0, columns, width, 0)
    ensures ByteAt(0, 0, columns, width, 0) == 0
  {
  }

  lemma {:induction false} AllPlaced(now: seq<byte>, source: Bytes, rows: nat, columns: nat, width: nat)
    requires |source| == rows * columns * width
    requires PlacedBelow(now, source, rows, columns, width, ByteAt(rows, 0, columns, width, 0))
    ensures now == Transposed(source, rows, columns, width)
  {
    assert ByteAt(rows, 0, columns, width, 0) == |source|;
  }

  /** The double loop of the converter, element by element. */
  method Transpose(source: Bytes, rows: nat, columns: nat, width: nat) returns (r: Bytes)
    requires |source| == rows * columns * width
    ensures r == Transposed(source, rows, columns, width)
  {
    hide Origin, ByteAt, PlacedBelow;
    var result := new byte[|source|](_ => 0);
    NothingPlaced(result[..], source, rows, columns, width);
    for row := 0 to rows
      invariant PlacedBelow(result[..], source, rows, columns, width, ByteAt(row, 0, columns, width, 0))
    {
      for column := 0 to columns
        invariant PlacedBelow(result[..], source, rows, columns, width, ByteAt(row, column, columns, width, 0))
      {
        CopyElement(result, source, rows, columns, width, row, column);
        NextElement(row, column, columns, width);
      }
      NextElement(row, columns, columns, width);
    }
    AllPlaced(result[..], source, rows, columns, width);
    r := result[..];
  }

  lemma {:induction false} NothingPlaced(now: seq<byte>, source: Bytes, rows: nat, columns: nat, width: nat)
    requires |now| == |source| == rows * columns * width
    ensures PlacedBelow(now, source, rows, columns, width, ByteAt(0, 0, columns, width, 0))
  {
  }

  datatype Converted = Converted(bytes: Bytes, rows: nat, columns: nat)

  method Convert(source: Bytes, shape: seq<nat>, width: nat, from: Layout, to: Layout) returns (r: Option<Converted>)
    ensures r.Some? <==>
      |shape| == 2 && width > 0 && |source| == shape[0] * shape[1] * width && shape[0] * shape[1] * width <= MAX64
    ensures r.Some? && from == to ==> r.value == Converted(source, shape[0], shape[1])
    ensures r.Some? && from != to ==>
      r.value == Converted(Transposed(source, shape[0], shape[1], width), shape[1], shape[0])
  {
    if |shape| != 2 || width == 0 {
      return None;
    }
    var rows, columns := shape[0], shape[1];
    Overflow(rows * columns, width, MAX64);
    if rows * columns > MAX64 / width || |source| != rows * columns * width {
      return None;
    }
    if from == to {
      return Some(Converted(source, rows, columns));
    }
    var bytes := Transpose(source, rows, columns, width);
    r := Some(Converted(bytes, columns, rows));
  }
}

/** The expert part of the packer, storing weights as they are. */
module ExpertPacker {
  import opened Wrappers
  import opened ByteValues
  import opened Bytes
  import opened Products
  import opened IndexFormat
  import opened ExpertStore
  import opened WeightConverter
  import ExpertIndexClass

  /** A projection of the source model: a range of a file and its shape. */
  datatype Location = Location(file: Bytes, offset: nat, size: nat, rows: nat, columns: nat, layout: Layout)

  datatype SourceExpert = SourceExpert(layer: U32, expert: U32, dtype: U32, gate: Location, up: Location, down: Location)

  /** The manifest's rules for one projection: a range of the right size inside
      its file, and the shape its layout demands. */
  predicate ValidLocation(p: Location, dtype: U32, ins: nat, outs: nat) {
    && (if p.layout == InputOutput then p.rows == ins && p.columns == outs else p.rows == outs && p.columns == ins)
    && p.size == p.rows * p.columns * ElementBytes(dtype)
    && p.size <= MAX64 && p.offset + p.size <= |p.file|
  }

  /** The manifest's rules for the experts. */
  predicate ValidManifest(experts: seq<SourceExpert>, hidden: nat, intermediate: nat) {
    && hidden > 0 && intermediate > 0
    && (forall i | 0 <= i < |experts| ::
          && experts[i].dtype <= 3
          && ValidLocation(experts[i].gate, experts[i].dtype, hidden, intermediate)
          && ValidLocation(experts[i].up, experts[i].dtype, hidden, intermediate)
          && ValidLocation(experts[i].down, experts[i].dtype, intermediate, hidden))
    && DistinctExperts(experts)
  }

  predicate DistinctExperts(experts: seq<SourceExpert>) {
    forall i, j | 0 <= i < j < |experts| ::
      !(experts[i].layer == experts[j].layer && experts[i].expert == experts[j].expert)
  }

  function SourceBytes(p: Location): Bytes
    requires p.offset + p.size <= |p.file|
  {
    p.file[p.offset..p.offset + p.size]
  }

  /** A projection as it is stored: inputs by outputs, whatever the source's layout. */
  function Packed(p: Location, width: nat): (r: Bytes)
    requires p.offset + p.size <= |p.file| && p.size == p.rows * p.columns * width
    ensures |r| == p.size
  {
    if p.layout == InputOutput then SourceBytes(p) else Transposed(SourceBytes(p), p.rows, p.columns, width)
  }

  predicate Sized(e: SourceExpert) {
    && e.gate.offset + e.gate.size <= |e.gate.file| && e.gate.size == e.gate.rows * e.gate.columns * ElementBytes(e.dtype)
    && e.up.offset + e.up.size <= |e.up.file| && e.up.size == e.up.rows * e.up.columns * ElementBytes(e.dtype)
    && e.down.offset + e.down.size <= |e.down.file| && e.down.size == e.down.rows * e.down.columns * ElementBytes(e.dtype)
  }

  function Payload(e: SourceExpert): (r: Bytes)
    requires Sized(e)
    ensures |r| == e.gate.size + e.up.size + e.down.size
  {
    Packed(e.gate, ElementBytes(e.dtype)) + Packed(e.up, ElementBytes(e.dtype)) + Packed(e.down, ElementBytes(e.dtype))
  }

  function QuantizationFor(dtype: U32): U32 {
    if dtype <= 2 then dtype else 6
  }

  function BlobOf(e: SourceExpert): Blob
    requires Sized(e)
  {
    Blob(e.layer, e.expert, QuantizationFor(e.dtype), Payload(e))
  }

  predicate AllSized(experts: seq<SourceExpert>) {
    forall i | 0 <= i < |experts| :: Sized(experts[i])
  }

  function Blobs(experts: seq<SourceExpert>): (r: seq<Blob>)
    requires AllSized(experts)
    ensures |r| == |experts|
  {
    seq(|experts|, i requires 0 <= i < |experts| => BlobOf(experts[i]))
  }

  // ---- projection records ----

  function LocationOf(e: SourceExpert, kind: nat): Location {
    if kind == 0 then e.gate else if kind == 1 then e.up else e.down
  }

  /** Where a projection starts inside its expert's payload. */
  function Start(e: SourceExpert, kind: nat): nat {
    if kind == 0 then 0 else if kind == 1 then e.gate.size else e.gate.size + e.up.size
  }

  function StoredRows(p: Location): nat {
    if p.layout == InputOutput then p.rows else p.columns
  }

  function StoredColumns(p: Location): nat {
    if p.layout == InputOutput then p.columns else p.rows
  }

  /** Numbers of 64 bits, as the record stores them. */
  predicate Recordable(experts: seq<SourceExpert>) {
    && AllSized(experts) && Storable(Blobs(experts))
    && forall i, kind | 0 <= i < |experts| && 0 <= kind < 3 ::
         var p := LocationOf(experts[i], kind);
         p.rows <= MAX64 && p.columns <= MAX64 && p.size <= MAX64
  }

  function ProjectionOf(experts: seq<SourceExpert>, i: nat, kind: nat): Projection
    requires Recordable(experts) && i < |experts| && kind < 3
  {
    var e, p := experts[i], LocationOf(experts[i], kind);
    StartInside(experts, i, kind);
    ProjectionRecord(e.layer, e.expert, kind, e.dtype, 2, 0, Offset(Blobs(experts), i) + Start(e, kind), p.size,
                     [StoredRows(p), StoredColumns(p), 0, 0], Checksum(Packed(p, ElementBytes(e.dtype))), 0)
  }

  lemma {:induction false} StartInside(experts: seq<SourceExpert>, i: nat, kind: nat)
    requires AllSized(experts) && Storable(Blobs(experts)) && i < |experts| && kind < 3
    ensures Offset(Blobs(experts), i) + Start(experts[i], kind) + LocationOf(experts[i], kind).size
         <= Offset(Blobs(experts), i) + |Blobs(experts)[i].data| <= MAX64
  {
    hide Packed, Offset, Data;
  }

  /** Three records for each expert, in the order gate, up, down. */
  function Projections(experts: seq<SourceExpert>): (r: seq<Projection>)
    requires Recordable(experts)
    ensures |r| == 3 * |experts|
  {
    seq(3 * |experts|, n requires 0 <= n < 3 * |experts| => ProjectionOf(experts, n / 3, n % 3))
  }

  /** The index of a valid manifest's packed experts is always accepted. */
  lemma {:induction false} PackedIndexAccepted(experts: seq<SourceExpert>, hidden: nat, intermediate: nat)
    requires ValidManifest(experts, hidden, intermediate) && Recordable(experts)
    ensures Acceptable(Index(Records(Blobs(experts)), Projections(experts)))
  {
    hide Data, Offset, Packed, Checksum, ElementBytes;
    var blobs := Blobs(experts);
    RecordsAcceptable(blobs);
    assert forall i | 0 <= i < |experts| :: blobs[i].layer == experts[i].layer && blobs[i].expert == experts[i].expert;
    forall n | 0 <= n < 3 * |experts|
      ensures ProjectionOk(Records(blobs), Projections(experts)[n])
    {
      PackedProjectionOk(experts, hidden, intermediate, n / 3, n % 3);
    }
    forall m, n | 0 <= m < n < 3 * |experts|
      ensures !SameSlot(Projections(experts)[m], Projections(experts)[n])
    {
      assert m / 3 != n / 3 || m % 3 != n % 3;
      assert m / 3 <= n / 3;
    }
  }

  lemma {:induction false} ShapeFits(p: Projection, m: U64, n: U64)
    requires p.rank == 2 && p.shape == [m, n, 0, 0] && m > 0 && n > 0 && m * n * ElementBytes(p.dtype) == p.size
    ensures ShapeOk(p)
  {
    assert p.shape[..2] == [m, n];
    TwoDimensions(m, n);
    hide Product;
  }

  lemma {:induction false} LocationFits(experts: seq<SourceExpert>, hidden: nat, intermediate: nat, i: nat, kind: nat)
    requires ValidManifest(experts, hidden, intermediate) && i < |experts| && kind < 3
    ensures var p := LocationOf(experts[i], kind);
      && p.rows > 0 && p.columns > 0 && p.size == p.rows * p.columns * ElementBytes(experts[i].dtype) > 0
      && StoredRows(p) > 0 && StoredColumns(p) > 0
      && StoredRows(p) * StoredColumns(p) * ElementBytes(experts[i].dtype) == p.size
  {
    var p := LocationOf(experts[i], kind);
    assert ValidLocation(p, experts[i].dtype, if kind == 2 then intermediate else hidden,
                         if kind == 2 then hidden else intermediate);
    SizePositive(p.rows, p.columns, ElementBytes(experts[i].dtype));
    assert p.rows * p.columns == p.columns * p.rows;
  }

  lemma {:induction false} PackedShape(experts: seq<SourceExpert>, hidden: nat, intermediate: nat, i: nat, kind: nat)
    requires ValidManifest(experts, hidden, intermediate) && Recordable(experts) && i < |experts| && kind < 3
    ensures FieldsOk(ProjectionOf(experts, i, kind)) && ShapeOk(ProjectionOf(experts, i, kind))
  {
    assert experts[i].dtype <= 3;
    LocationFits(experts, hidden, intermediate, i, kind);
    hide Data, Offset, Packed, Checksum, Storable, ShapeOk, ElementBytes, ValidManifest, LocationOf, AllSized, Recordable,
         StoredRows, StoredColumns;
    var l := LocationOf(experts[i], kind);
    ShapeFits(ProjectionOf(experts, i, kind), StoredRows(l), StoredColumns(l));
  }

  lemma {:induction false} PackedInside(experts: seq<SourceExpert>, i: nat, kind: nat)
    requires Recordable(experts) && i < |experts| && kind < 3
    ensures Inside(ProjectionOf(experts, i, kind), Records(Blobs(experts))[i])
  {
    StartInside(experts, i, kind);
    hide Data, Offset, Packed, Checksum, Storable, ElementBytes, LocationOf, AllSized, Payload, StoredRows, StoredColumns;
  }

  lemma {:induction false} PackedProjectionOk(experts: seq<SourceExpert>, hidden: nat, intermediate: nat, i: nat,
                                        kind: nat)
    requires ValidManifest(experts, hidden, intermediate) && Recordable(experts) && i < |experts| && kind < 3
    ensures ProjectionOk(Records(Blobs(experts)), ProjectionOf(experts, i, kind))
  {
    PackedShape(experts, hidden, intermediate, i, kind);
    PackedInside(experts, i, kind);
    hide FieldsOk, ShapeOk, Inside, ValidManifest, ProjectionOf, Records, Blobs, Storable, AllSized;
  }

  lemma {:induction false} TwoDimensions(m: nat, n: nat)
    ensures Product([m, n]) == m * n
  {
    assert [m, n][..1] == [m] && [m][..0] == [];
    assert Product([m]) == m;
  }

  lemma {:induction false} SizePositive(m: nat, n: nat, width: nat)
    requires m > 0 && n > 0 && width > 0
    ensures m * n * width > 0
  {
    Positive(m, n);
    Positive(m * n, width);
  }

  // ---- the packer ----

  datatype PackError = UnreadableRange | UnstorableExpert | RejectedIndex | MissingQuantization

  datatype PackedModel = PackedModel(data: Bytes, records: seq<ExpertRecord>, projections: seq<Projection>)

  predicate Readable(p: Location) {
    p.offset <= MAX_STREAM && p.size <= MAX_STREAM
  }

  predicate AllReadable(e: SourceExpert) {
    Readable(e.gate) && Readable(e.up) && Readable(e.down)
  }

  /** Weights that carry their own quantization parameters: the packer drops
      them when it stores weights as they are. */
  predicate IsInt8(e: SourceExpert) {
    e.dtype == 3
  }

  lemma {:induction false} ValidIsSized(experts: seq<SourceExpert>, hidden: nat, intermediate: nat)
    requires ValidManifest(experts, hidden, intermediate)
    ensures AllSized(experts)
    ensures forall i, kind | 0 <= i < |experts| && 0 <= kind < 3 ::
      var p := LocationOf(experts[i], kind); p.rows <= MAX64 && p.columns <= MAX64 && p.size <= MAX64
  {
    forall i, kind | 0 <= i < |experts| && 0 <= kind < 3
      ensures var p := LocationOf(experts[i], kind); p.rows <= MAX64 && p.columns <= MAX64 && p.size <= MAX64
    {
      LocationFits(experts, hidden, intermediate, i, kind);
      var p := LocationOf(experts[i], kind);
      SizeBounds(p.rows, p.columns, ElementBytes(experts[i].dtype));
      assert ValidLocation(p, experts[i].dtype, if kind == 2 then intermediate else hidden,
                           if kind == 2 then hidden else intermediate);
    }
  }

  lemma {:induction false} SizeBounds(m: nat, n: nat, width: nat)
    requires m > 0 && n > 0 && width > 0
    ensures m <= m * n * width && n <= m * n * width
  {
    Positive(m, n);
    Positive(n, m);
    Positive(m * n, width);
  }

  /** One projection read and converted. */
  method PackProjection(p: Location, width: nat) returns (r: Option<Bytes>)
    requires p.offset + p.size <= |p.file| && p.size == p.rows * p.columns * width && width > 0
    ensures r == if Readable(p) then Some(Packed(p, width)) else None
  {
    if p.offset > MAX_STREAM || p.size > MAX_STREAM {
      return None;
    }
    var bytes := p.file[p.offset..p.offset + p.size];
    var converted := Convert(bytes, [p.rows, p.columns], width, p.layout, InputOutput);
    r := Some(converted.value.bytes);
  }

  method PackPayload(e: SourceExpert) returns (r: Option<Bytes>)
    requires Sized(e)
    ensures r == if AllReadable(e) then Some(Payload(e)) else None
  {
    hide Packed, Readable;
    var width := ElementBytes(e.dtype);
    var gate := PackProjection(e.gate, width);
    if gate == None { return None; }
    var up := PackProjection(e.up, width);
    if up == None { return None; }
    var down := PackProjection(e.down, width);
    if down == None { return None; }
    r := Some(gate.value + up.value + down.value);
  }

  /** The packer's loop over the experts. With every source range readable and
      every payload storable it succeeds exactly when no expert is INT8: then
      the data file is the layout of the payloads, and the index is accepted. */
  method PackExperts(experts: seq<SourceExpert>, hidden: nat, intermediate: nat)
    returns (r: Result<PackedModel, PackError>)
    requires ValidManifest(experts, hidden, intermediate)
    ensures AllSized(experts)
    ensures r.Ok? <==>
      && (forall i | 0 <= i < |experts| :: AllReadable(experts[i]))
      && Storable(Blobs(experts))
      && (forall i | 0 <= i < |experts| :: !IsInt8(experts[i]))
    ensures r.Ok? ==>
      && Recordable(experts)
      && r.value == PackedModel(Data(Blobs(experts)), Records(Blobs(experts)), Projections(experts))
    ensures r.Err? ==> r.error != RejectedIndex
    ensures r == Err(MissingQuantization) ==> exists i :: 0 <= i < |experts| && IsInt8(experts[i])
  {
    ValidIsSized(experts, hidden, intermediate);
    hide ValidManifest, AllSized, Blobs, AllReadable, Storable, Records, Projections, Acceptable, Data;
    var blobs := PackBlobs(experts);
    if blobs == None {
      return Err(UnreadableRange);
    }
    var laidOut := LayOut(blobs.value);
    if laidOut.Err? {
      return Err(UnstorableExpert);
    }
    var projections := WriteProjections(experts);
    PackedIndexAccepted(experts, hidden, intermediate);
    var index := new ExpertIndexClass.ExpertIndex(laidOut.value.1, projections);
    var accepted := index.RebuildLookup();
    if !accepted {
      return Err(RejectedIndex);
    }
    if exists i :: 0 <= i < |experts| && IsInt8(experts[i]) {
      return Err(MissingQuantization);
    }
    r := Ok(PackedModel(laidOut.value.0, laidOut.value.1, projections));
  }

  /** The payloads of all experts, or None at the first range that cannot be read. */
  method PackBlobs(experts: seq<SourceExpert>) returns (r: Option<seq<Blob>>)
    requires AllSized(experts)
    ensures r.Some? <==> forall i | 0 <= i < |experts| :: AllReadable(experts[i])
    ensures r.Some? ==> r.value == Blobs(experts)
  {
    hide Sized, Payload, AllReadable;
    var blobs: seq<Blob> := [];
    for i := 0 to |experts|
      invariant blobs == Blobs(experts)[..i]
      invariant forall j | 0 <= j < i :: AllReadable(experts[j])
    {
      var payload := PackPayload(experts[i]);
      if payload == None {
        return None;
      }
      blobs := blobs + [Blob(experts[i].layer, experts[i].expert, QuantizationFor(experts[i].dtype), payload.value)];
    }
    r := Some(blobs);
  }

  method WriteProjections(experts: seq<SourceExpert>) returns (r: seq<Projection>)
    requires Recordable(experts)
    ensures r == Projections(experts)
  {
    hide ProjectionOf;
    r := [];
    for i := 0 to |experts|
      invariant r == Projections(experts)[..3 * i]
    {
      for kind := 0 to 3
        invariant r == Projections(experts)[..3 * i + kind]
      {
        assert (3 * i + kind) / 3 == i && (3 * i + kind) % 3 == kind;
        r := r + [ProjectionOf(experts, i, kind)];
      }
    }
  }
}

/** The weight map and the views it cuts out of an expert's payload. */
module ExpertViews {
  import opened Wrappers
  import opened ByteValues
  import opened Bytes
  import opened Products
  import opened ExpertStates
  import opened IndexFormat
  import opened ExpertStore
  import opened WeightConverter
  import opened ExpertPacker
  import Shapes

  datatype WeightType = Gate | Up | Down

  datatype Metadata = Metadata(
    layer: U32, expert: Option<U32>, offset: nat, size: nat, rows: nat, columns: nat, dtype: U32, quantized: bool)

  datatype Binding = Binding(gate: Option<Metadata>, up: Option<Metadata>, down: Option<Metadata>) {
    predicate Complete() {
      gate.Some? && up.Some? && down.Some?
    }
  }

  datatype ViewError =
    | WrongIdentity | Duplicate | NotFound | Incomplete | BadQuantization | BeforePayload | BadSize
    | Unaligned | OutOfRange

  datatype View = View(bytes: Bytes, rows: nat, columns: nat)

  /** A view of a stretch of a buffer: the offset must be a multiple of the
      element size and the stretch must lie inside. */
  function SliceBytes(storage: Bytes, offset: nat, rows: nat, columns: nat, dtype: U32): Result<View, ViewError> {
    var width := ElementBytes(dtype);
    if offset % width != 0 then Err(Unaligned)
    else if offset > |storage| then Err(OutOfRange)
    else if |storage| - offset < rows * columns * width then Err(OutOfRange)
    else Ok(View(storage[offset..offset + rows * columns * width], rows, columns))
  }

  function MakeView(m: Metadata, payload: Bytes, payloadOffset: nat): Result<View, ViewError> {
    if (m.dtype == 3) != m.quantized then Err(BadQuantization)
    else if m.offset < payloadOffset then Err(BeforePayload)
    else if m.rows * m.columns * ElementBytes(m.dtype) != m.size then Err(BadSize)
    else SliceBytes(payload, m.offset - payloadOffset, m.rows, m.columns, m.dtype)
  }

  datatype Views = Views(gate: View, up: View, down: View)

  class ExpertWeightMap {
    var mappings: map<Key, Binding>

    constructor ()
      ensures mappings == map[]
    {
      mappings := map[];
    }

    /** A projection enters its expert's binding once; a wrong identity changes
        nothing, a duplicate leaves the binding as it is. */
    method Add(layer: U32, expert: U32, kind: WeightType, m: Metadata) returns (r: Option<ViewError>)
      modifies this
      ensures var k := MakeKey(layer, expert);
        var was := if k in old(mappings) then old(mappings)[k] else Binding(None, None, None);
        if m.expert != Some(expert) || m.layer != layer then r == Some(WrongIdentity) && mappings == old(mappings)
        else if SlotOf(was, kind).Some? then r == Some(Duplicate) && mappings == old(mappings)[k := was]
        else r == None && mappings == old(mappings)[k := WithSlot(was, kind, m)]
    {
      if m.expert == None || m.layer != layer || m.expert.value != expert {
        return Some(WrongIdentity);
      }
      var k := MakeKey(layer, expert);
      if k !in mappings {
        mappings := mappings[k := Binding(None, None, None)];
      }
      var target := SlotOf(mappings[k], kind);
      if target.Some? {
        return Some(Duplicate);
      }
      mappings := mappings[k := WithSlot(mappings[k], kind, m)];
      r := None;
    }

    /** The views of an expert's three projections, or why there are none: an
        expert never added, a projection missing, or a projection whose own view
        is refused. */
    function CreateViews(layer: U32, expert: U32, payload: Bytes, payloadOffset: nat): (r: Result<Views, ViewError>)
      reads this
      ensures r == Err(NotFound) <==> MakeKey(layer, expert) !in mappings
      ensures MakeKey(layer, expert) in mappings ==>
        var b := mappings[MakeKey(layer, expert)];
        && (r == Err(Incomplete) <==> b.gate == None || b.up == None || b.down == None)
        && forall views :: r == Ok(views) <==>
             && b.gate.Some? && MakeView(b.gate.value, payload, payloadOffset) == Ok(views.gate)
             && b.up.Some? && MakeView(b.up.value, payload, payloadOffset) == Ok(views.up)
             && b.down.Some? && MakeView(b.down.value, payload, payloadOffset) == Ok(views.down)
    {
      var k := MakeKey(layer, expert);
      if k !in mappings then Err(NotFound)
      else if !mappings[k].Complete() then Err(Incomplete)
      else ViewsOf(mappings[k], payload, payloadOffset)
    }
  }

  function SlotOf(b: Binding, kind: WeightType): Option<Metadata> {
    match kind
    case Gate => b.gate
    case Up => b.up
    case Down => b.down
  }

  function WithSlot(b: Binding, kind: WeightType, m: Metadata): Binding {
    match kind
    case Gate => b.(gate := Some(m))
    case Up => b.(up := Some(m))
    case Down => b.(down := Some(m))
  }

  function ViewsOf(b: Binding, payload: Bytes, payloadOffset: nat): Result<Views, ViewError>
    requires b.Complete()
  {
    match MakeView(b.gate.value, payload, payloadOffset)
    case Err(e) => Err(e)
    case Ok(gate) =>
      match MakeView(b.up.value, payload, payloadOffset)
      case Err(e) => Err(e)
      case Ok(up) =>
        match MakeView(b.down.value, payload, payloadOffset)
        case Err(e) => Err(e)
        case Ok(down) => Ok(Views(gate, up, down))
  }

  // ---- packing and viewing is lossless ----

  /** The metadata the packed manifest carries for a stored projection. */
  function MetadataOf(p: Projection): Metadata {
    Metadata(p.layer, Some(p.expert), p.offset, p.size, p.shape[0], p.shape[1], p.dtype, false)
  }

  /** The binding of packed expert i. */
  function BindingOf(experts: seq<SourceExpert>, i: nat): Binding
    requires Recordable(experts) && i < |experts|
  {
    Binding(Some(MetadataOf(ProjectionOf(experts, i, 0))), Some(MetadataOf(ProjectionOf(experts, i, 1))),
            Some(MetadataOf(ProjectionOf(experts, i, 2))))
  }

  /** The view of a projection that shows what the source stored, in the
      orientation inputs by outputs. */
  function ViewOf(e: SourceExpert, kind: nat): View
    requires Sized(e) && kind < 3
  {
    var p := LocationOf(e, kind);
    View(Packed(p, ElementBytes(e.dtype)), StoredRows(p), StoredColumns(p))
  }

  /** Element (input, output) of the source's matrix, in whichever layout. */
  function SourceElement(p: Location, width: nat, i: nat, o: nat): Bytes
    requires p.offset + p.size <= |p.file| && p.size == p.rows * p.columns * width
    requires i < StoredRows(p) && o < StoredColumns(p)
  {
    if p.layout == InputOutput then Element(SourceBytes(p), p.rows, p.columns, width, i, o)
    else Element(SourceBytes(p), p.rows, p.columns, width, o, i)
  }

  /** A stored projection holds the source's matrix, element by element. */
  lemma {:induction false} PackedElements(p: Location, width: nat, i: nat, o: nat)
    requires p.offset + p.size <= |p.file| && p.size == p.rows * p.columns * width
    requires i < StoredRows(p) && o < StoredColumns(p)
    ensures |Packed(p, width)| == StoredRows(p) * StoredColumns(p) * width
    ensures Element(Packed(p, width), StoredRows(p), StoredColumns(p), width, i, o) == SourceElement(p, width, i, o)
  {
    if p.layout == OutputInput {
      TransposedElements(SourceBytes(p), p.rows, p.columns, width, o, i);
    }
  }

  lemma {:induction false} ThreeParts(g: Bytes, u: Bytes, d: Bytes)
    ensures (g + u + d)[..|g|] == g && (g + u + d)[|g|..|g| + |u|] == u && (g + u + d)[|g| + |u|..] == d
  {
  }

  lemma {:induction false} PayloadSplit(e: SourceExpert)
    requires Sized(e)
    ensures var width, g, u := ElementBytes(e.dtype), e.gate.size, e.gate.size + e.up.size;
      && Payload(e)[..g] == Packed(e.gate, width) && Payload(e)[g..u] == Packed(e.up, width)
      && Payload(e)[u..] == Packed(e.down, width)
  {
    var width := ElementBytes(e.dtype);
    ThreeParts(Packed(e.gate, width), Packed(e.up, width), Packed(e.down, width));
    hide Packed, ElementBytes;
  }

  lemma {:induction false} PayloadParts(e: SourceExpert, kind: nat)
    requires Sized(e) && kind < 3
    ensures var p := LocationOf(e, kind);
      && Start(e, kind) + p.size <= |Payload(e)|
      && Payload(e)[Start(e, kind)..Start(e, kind) + p.size] == Packed(p, ElementBytes(e.dtype))
  {
    PayloadSplit(e);
    hide Packed, ElementBytes, Payload, Sized;
  }

  /** Slices are always element-aligned: each projection starts a whole number
      of elements into the payload. */
  lemma {:induction false} StartAligned(e: SourceExpert, kind: nat)
    requires Sized(e) && kind < 3
    ensures Start(e, kind) % ElementBytes(e.dtype) == 0
  {
    var width := ElementBytes(e.dtype);
    Multiple(e.gate.rows * e.gate.columns, width);
    Multiple(e.up.rows * e.up.columns, width);
    Multiple(e.gate.rows * e.gate.columns + e.up.rows * e.up.columns, width);
  }

  lemma {:induction false} Multiple(n: nat, width: nat)
    requires width > 0
    ensures n * width % width == 0
  {
    Shapes.QuotientBack(n, 0, width);
  }

  lemma {:induction false} MakeViewIs(m: Metadata, payload: Bytes, at: nat, start: nat)
    requires m.offset == at + start && m.size == m.rows * m.columns * ElementBytes(m.dtype) && !m.quantized
    requires start % ElementBytes(m.dtype) == 0 && start + m.size <= |payload|
    ensures MakeView(m, payload, at) ==
      if m.dtype == 3 then Err(BadQuantization) else Ok(View(payload[start..start + m.size], m.rows, m.columns))
  {
    hide ElementBytes;
  }

  lemma {:induction false} ProjectionView(experts: seq<SourceExpert>, i: nat, kind: nat)
    requires Recordable(experts) && i < |experts| && kind < 3
    ensures MakeView(MetadataOf(ProjectionOf(experts, i, kind)), Payload(experts[i]), Offset(Blobs(experts), i)) ==
      if IsInt8(experts[i]) then Err(BadQuantization) else Ok(ViewOf(experts[i], kind))
  {
    hide Packed, Payload, Offset, Checksum, Storable, Sized, LocationOf, StoredRows, StoredColumns, MakeView, Start;
    var e := experts[i];
    PayloadParts(e, kind);
    StartAligned(e, kind);
    StoredSize(e, kind);
    MakeViewIs(MetadataOf(ProjectionOf(experts, i, kind)), Payload(e), Offset(Blobs(experts), i), Start(e, kind));
  }

  lemma {:induction false} StoredSize(e: SourceExpert, kind: nat)
    requires Sized(e) && kind < 3
    ensures var p := LocationOf(e, kind);
      StoredRows(p) * StoredColumns(p) * ElementBytes(e.dtype) == p.size
  {
    var p := LocationOf(e, kind);
    assert p.rows * p.columns == p.columns * p.rows;
  }

  /** Byte b of an element (i, j), in the flat matrix. */
  lemma {:induction false} ElementInMatrix(bytes: Bytes, m: nat, n: nat, width: nat, i: nat, j: nat, b: nat)
    requires |bytes| == m * n * width && i < m && j < n && b < width
    ensures 0 <= (i * n + j) * width + b < |bytes|
    ensures Element(bytes, m, n, width, i, j)[b] == bytes[(i * n + j) * width + b]
  {
    ElementByte(bytes, m, n, width, i, j, b);
    hide Element;
  }

  /** Byte b of the source's element (input, output): both layouts lie row
      after row in the file, one with inputs as its rows, one with outputs. */
  lemma {:induction false} SourceElementAt(p: Location, width: nat, i: nat, o: nat, b: nat)
    requires p.offset + p.size <= |p.file| && p.size == p.rows * p.columns * width && b < width
    requires if p.layout == InputOutput then i < p.rows && o < p.columns else i < p.columns && o < p.rows
    ensures var at := if p.layout == InputOutput then i * p.columns + o else o * p.columns + i;
      && 0 <= at * width + b < p.size
      && SourceElement(p, width, i, o)[b] == p.file[p.offset + at * width + b]
  {
    hide Element;
    if p.layout == InputOutput {
      ElementInMatrix(SourceBytes(p), p.rows, p.columns, width, i, o, b);
    } else {
      ElementInMatrix(SourceBytes(p), p.rows, p.columns, width, o, i, b);
    }
  }

  /** When a projection can be viewed, and what the view shows; otherwise the
      first of the refusals that applies. */
  lemma {:induction false} ViewExactly(m: Metadata, payload: Bytes, payloadOffset: nat)
    ensures var v, width := MakeView(m, payload, payloadOffset), if m.dtype == 0 then 4 else if m.dtype <= 2 then 2 else 1;
      var at, size := m.offset - payloadOffset, m.rows * m.columns * width;
      if m.quantized <==> m.dtype != 3 then v == Err(BadQuantization)
      else if m.offset < payloadOffset then v == Err(BeforePayload)
      else if m.size != size then v == Err(BadSize)
      else if at % width != 0 then v == Err(Unaligned)
      else if at + size > |payload| then v == Err(OutOfRange)
      else v == Ok(View(payload[at..at + size], m.rows, m.columns))
  {
  }

  /** Whatever its layout in the source, a gate or up projection is stored as
      hidden by intermediate and a down projection as intermediate by hidden,
      with the source's element type. */
  lemma {:induction false} PackedShapes(experts: seq<SourceExpert>, hidden: nat, intermediate: nat, i: nat, kind: nat)
    requires ValidManifest(experts, hidden, intermediate) && Recordable(experts) && i < |experts| && kind < 3
    ensures var p := ProjectionOf(experts, i, kind);
      && p.layer == experts[i].layer && p.expert == experts[i].expert && p.kind == kind && p.dtype == experts[i].dtype
      && p.rank == 2 && p.reserved == 0 && p.trailing == 0
      && p.shape == (if kind == 2 then [intermediate, hidden, 0, 0] else [hidden, intermediate, 0, 0])
  {
    assert ValidLocation(LocationOf(experts[i], kind), experts[i].dtype, if kind == 2 then intermediate else hidden,
                         if kind == 2 then hidden else intermediate);
    hide Offset, Blobs, Packed, Checksum, Storable, Sized, ValidManifest, ElementBytes;
  }

  /** The code of the stored format of an expert. */
  lemma {:induction false} PackedFormat(experts: seq<SourceExpert>, i: nat)
    requires Recordable(experts) && i < |experts|
    ensures Records(Blobs(experts))[i].quantization == match experts[i].dtype
      case 0 => 0
      case 1 => 1
      case 2 => 2
      case _ => 6
  {
    RecordTells(Blobs(experts), i);
    hide Records, Payload, Storable, Sized;
  }

  /** A view that shows a projection of the source: its matrix, element by
      element, in the orientation inputs by outputs. */
  ghost predicate ShowsSource(v: View, p: Location, width: nat) {
    && p.offset + p.size <= |p.file| && p.size == p.rows * p.columns * width
    && v.rows == StoredRows(p) && v.columns == StoredColumns(p) && |v.bytes| == v.rows * v.columns * width
    && forall a, b | 0 <= a < v.rows && 0 <= b < v.columns ::
         Element(v.bytes, v.rows, v.columns, width, a, b) == SourceElement(p, width, a, b)
  }

  /** Packing and viewing again loses nothing: the payload read back for expert
      i gives three views, and each shows its projection of the source. Only an
      expert of INT8 weights gives none, because its quantization parameters
      are gone. */
  lemma {:induction false} PackedViewsShowSource(experts: seq<SourceExpert>, i: nat)
    requires Recordable(experts) && i < |experts|
    ensures Offset(Blobs(experts), i) % 4096 == 0
    ensures Offset(Blobs(experts), i) + |Payload(experts[i])| <= |Data(Blobs(experts))|
    ensures var at := Offset(Blobs(experts), i);
      ViewsOf(BindingOf(experts, i), Data(Blobs(experts))[at..at + |Payload(experts[i])|], at) ==
        if IsInt8(experts[i]) then Err(BadQuantization)
        else Ok(Views(ViewOf(experts[i], 0), ViewOf(experts[i], 1), ViewOf(experts[i], 2)))
    ensures forall kind | 0 <= kind < 3 ::
      ShowsSource(ViewOf(experts[i], kind), LocationOf(experts[i], kind), ElementBytes(experts[i].dtype))
  {
    hide Packed, Payload, Data, Offset, MakeView, ProjectionOf, ElementBytes, LocationOf, ShowsSource, Sized, Storable;
    assert Blobs(experts)[i].data == Payload(experts[i]);
    BlobInPlace(Blobs(experts), i);
    ProjectionView(experts, i, 0);
    ProjectionView(experts, i, 1);
    ProjectionView(experts, i, 2);
    forall kind | 0 <= kind < 3
      ensures ShowsSource(ViewOf(experts[i], kind), LocationOf(experts[i], kind), ElementBytes(experts[i].dtype))
    {
      ViewElements(experts[i], kind);
    }
  }

  lemma {:induction false} ViewElements(e: SourceExpert, kind: nat)
    requires Sized(e) && kind < 3
    ensures ShowsSource(ViewOf(e, kind), LocationOf(e, kind), ElementBytes(e.dtype))
  {
    StoredSize(e, kind);
    var p := LocationOf(e, kind);
    hide Packed, Element, SourceElement, ElementBytes;
    forall a, b | 0 <= a < StoredRows(p) && 0 <= b < StoredColumns(p)
      ensures Element(Packed(p, ElementBytes(e.dtype)), StoredRows(p), StoredColumns(p), ElementBytes(e.dtype), a, b)
           == SourceElement(p, ElementBytes(e.dtype), a, b)
    {
      PackedElements(p, ElementBytes(e.dtype), a, b);
    }
  }

  // ---- the views the weight map cuts ----

  function KeyOf(e: SourceExpert): Key {
    MakeKey(e.layer, e.expert)
  }

  /** The map holds the first n experts, each under its key, and nothing else. */
  ghost predicate Maps(mappings: map<Key, Binding>, experts: seq<SourceExpert>, n: nat)
    requires Recordable(experts) && n <= |experts|
  {
    && (forall i | 0 <= i < n :: KeyOf(experts[i]) in mappings && mappings[KeyOf(experts[i])] == BindingOf(experts, i))
    && (forall k | k in mappings :: exists i :: 0 <= i < n && KeyOf(experts[i]) == k)
  }

  lemma {:induction false} SameKey(e: SourceExpert, layer: U32, expert: U32)
    ensures KeyOf(e) == MakeKey(layer, expert) <==> e.layer == layer && e.expert == expert
  {
    KeyRoundTrip(e.layer, e.expert, KeyOf(e));
    KeyRoundTrip(layer, expert, KeyOf(e));
  }

  lemma {:induction false} MapsNone(experts: seq<SourceExpert>)
    requires Recordable(experts)
    ensures Maps(map[], experts, 0) && DistinctExperts(experts[..0])
  {
    hide Recordable;
  }

  lemma {:induction false} MapsNext(mappings: map<Key, Binding>, experts: seq<SourceExpert>, n: nat)
    requires Recordable(experts) && n < |experts| && Maps(mappings, experts, n)
    requires DistinctExperts(experts[..n]) && KeyOf(experts[n]) !in mappings
    ensures Maps(mappings[KeyOf(experts[n]) := BindingOf(experts, n)], experts, n + 1)
    ensures DistinctExperts(experts[..n + 1])
  {
    hide Recordable, BindingOf, MakeKey;
    forall i, j | 0 <= i < j < n + 1
      ensures !(experts[i].layer == experts[j].layer && experts[i].expert == experts[j].expert)
    {
      if j < n {
        assert experts[..n][i] == experts[i] && experts[..n][j] == experts[j];
      } else {
        assert KeyOf(experts[i]) in mappings;
        SameKey(experts[i], experts[n].layer, experts[n].expert);
      }
    }
  }

  lemma {:induction false} MappedTwice(mappings: map<Key, Binding>, experts: seq<SourceExpert>, n: nat)
    requires Recordable(experts) && n < |experts| && Maps(mappings, experts, n)
    requires KeyOf(experts[n]) in mappings
    ensures mappings[KeyOf(experts[n])].Complete() && !DistinctExperts(experts)
  {
    hide Recordable, MakeKey, MetadataOf, ProjectionOf;
    var i :| 0 <= i < n && KeyOf(experts[i]) == KeyOf(experts[n]);
    assert mappings[KeyOf(experts[i])] == BindingOf(experts, i);
    SameKey(experts[i], experts[n].layer, experts[n].expert);
  }

  lemma {:induction false} Identities(experts: seq<SourceExpert>, i: nat)
    requires Recordable(experts) && i < |experts|
    ensures forall kind | 0 <= kind < 3 ::
      var m := MetadataOf(ProjectionOf(experts, i, kind));
      m.layer == experts[i].layer && m.expert == Some(experts[i].expert)
  {
    hide Offset, Blobs, Packed, Checksum, Sized, Storable;
  }

  /** What three additions make of a map that lacks the expert. */
  lemma {:induction false} ThreeSlots(mappings: map<Key, Binding>, k: Key, gate: Metadata, up: Metadata, down: Metadata)
    ensures var none := Binding(None, None, None);
      var one := WithSlot(none, Gate, gate);
      var two := WithSlot(one, Up, up);
      && SlotOf(none, Gate) == None && SlotOf(one, Up) == None && SlotOf(two, Down) == None
      && WithSlot(two, Down, down) == Binding(Some(gate), Some(up), Some(down))
      && mappings[k := one][k := two] == mappings[k := two]
      && mappings[k := two][k := WithSlot(two, Down, down)] == mappings[k := WithSlot(two, Down, down)]
  {
  }

  /** The three projections of one expert enter a map that lacks it, in the
      order gate, up, down; a map that has them refuses the first. */
  method AddExpert(weights: ExpertWeightMap, experts: seq<SourceExpert>, i: nat) returns (r: Option<ViewError>)
    requires Recordable(experts) && i < |experts|
    modifies weights
    ensures var k := KeyOf(experts[i]);
      && (k !in old(weights.mappings) ==>
            r == None && weights.mappings == old(weights.mappings)[k := BindingOf(experts, i)])
      && (k in old(weights.mappings) && old(weights.mappings)[k].Complete() ==>
            r == Some(Duplicate) && weights.mappings == old(weights.mappings))
  {
    Identities(experts, i);
    hide Recordable, MakeKey, MetadataOf, ProjectionOf;
    var e := experts[i];
    var gate, up := MetadataOf(ProjectionOf(experts, i, 0)), MetadataOf(ProjectionOf(experts, i, 1));
    var down := MetadataOf(ProjectionOf(experts, i, 2));
    ThreeSlots(weights.mappings, KeyOf(e), gate, up, down);
    ghost var has := KeyOf(e) in weights.mappings && weights.mappings[KeyOf(e)].Complete();
    assert has ==> SlotOf(weights.mappings[KeyOf(e)], Gate).Some?;
    hide SlotOf, WithSlot;
    r := weights.Add(e.layer, e.expert, Gate, gate);
    if r.Some? {
      return;
    }
    r := weights.Add(e.layer, e.expert, Up, up);
    if r.Some? {
      return;
    }
    r := weights.Add(e.layer, e.expert, Down, down);
  }

  method AddNext(weights: ExpertWeightMap, experts: seq<SourceExpert>, i: nat) returns (r: Option<ViewError>)
    requires Recordable(experts) && i < |experts|
    requires Maps(weights.mappings, experts, i) && DistinctExperts(experts[..i])
    modifies weights
    ensures r == None ==> Maps(weights.mappings, experts, i + 1) && DistinctExperts(experts[..i + 1])
    ensures r.Some? ==> r.value == Duplicate && !DistinctExperts(experts)
  {
    hide Recordable, Maps, DistinctExperts, KeyOf, BindingOf;
    if KeyOf(experts[i]) in weights.mappings {
      MappedTwice(weights.mappings, experts, i);
    } else {
      MapsNext(weights.mappings, experts, i);
    }
    r := AddExpert(weights, experts, i);
  }

  /** The loop that fills the weight map from the packed experts: every
      projection is added to the empty map, and an Add that is refused ends it.
      None is, unless an expert appears twice. */
  method MakeMappings(experts: seq<SourceExpert>) returns (r: Result<ExpertWeightMap, ViewError>)
    requires Recordable(experts)
    ensures r.Ok? <==> DistinctExperts(experts)
    ensures r.Ok? ==> fresh(r.value) && Maps(r.value.mappings, experts, |experts|)
    ensures r.Err? ==> r.error == Duplicate
  {
    var weights := new ExpertWeightMap();
    MapsNone(experts);
    hide Recordable, Maps, DistinctExperts, KeyOf, BindingOf;
    for i := 0 to |experts|
      invariant Maps(weights.mappings, experts, i) && DistinctExperts(experts[..i])
    {
      var refused := AddNext(weights, experts, i);
      if refused.Some? {
        return Err(refused.value);
      }
    }
    assert experts[..|experts|] == experts;
    r := Ok(weights);
  }

  /** The weight map of the packed experts cuts each expert's payload into its
      three views, and each shows its projection of the source. An expert of
      INT8 weights gets none, and neither does one that was not packed. */
  lemma {:induction false} MappedViewsShowSource(weights: ExpertWeightMap, experts: seq<SourceExpert>, i: nat)
    requires Recordable(experts) && i < |experts| && Maps(weights.mappings, experts, |experts|)
    ensures var e, at := experts[i], Offset(Blobs(experts), i);
      && at + |Payload(e)| <= |Data(Blobs(experts))|
      && weights.CreateViews(e.layer, e.expert, Data(Blobs(experts))[at..at + |Payload(e)|], at) ==
           if IsInt8(e) then Err(BadQuantization) else Ok(Views(ViewOf(e, 0), ViewOf(e, 1), ViewOf(e, 2)))
    ensures forall kind | 0 <= kind < 3 ::
      ShowsSource(ViewOf(experts[i], kind), LocationOf(experts[i], kind), ElementBytes(experts[i].dtype))
  {
    PackedViewsShowSource(experts, i);
    hide Payload, Data, Offset, ViewsOf, ViewOf, MetadataOf, ProjectionOf, Recordable, Sized, MakeKey, ShowsSource, IsInt8;
    assert weights.mappings[KeyOf(experts[i])] == BindingOf(experts, i);
  }

  lemma {:induction false} OnlyMappedExperts(weights: ExpertWeightMap, experts: seq<SourceExpert>, layer: U32,
                                             expert: U32, payload: Bytes, at: nat)
    requires Recordable(experts) && Maps(weights.mappings, experts, |experts|)
    ensures weights.CreateViews(layer, expert, payload, at) == Err(NotFound) <==>
      forall i | 0 <= i < |experts| :: experts[i].layer != layer || experts[i].expert != expert
  {
    hide Recordable, BindingOf, MakeView, KeyOf;
    forall i | 0 <= i < |experts|
      ensures KeyOf(experts[i]) == MakeKey(layer, expert) <==>
        experts[i].layer == layer && experts[i].expert == expert
    {
      SameKey(experts[i], layer, expert);
    }
    hide MakeKey;
  }

  /** No two projections of the data file overlap, of one expert or of two. */
  lemma {:induction false} ProjectionsApart(experts: seq<SourceExpert>, i: nat, j: nat, m: nat, n: nat)
    requires Recordable(experts) && i < |experts| && j < |experts| && m < 3 && n < 3
    requires i < j || (i == j && m < n)
    ensures var p, q := ProjectionOf(experts, i, m), ProjectionOf(experts, j, n); p.offset + p.size <= q.offset
  {
    StartInside(experts, i, m);
    if i < j {
      BlobsApart(Blobs(experts), i, j);
    }
    hide Offset, Payload, Data, Checksum, Packed, StoredRows, StoredColumns;
  }
}
