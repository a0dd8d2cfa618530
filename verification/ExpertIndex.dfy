/**
The expert index (src/storage/ExpertIndex.cpp): its binary form, its parser,
and the lookup tables it validates while it builds them. A file is its bytes.
 */
module IndexFormat {
  import opened Wrappers
  import opened ByteValues
  import opened Bytes
  import opened ExpertStates
  import opened Products

  type U32 = Id32
  type U64 = Key

  const MAX_STREAM: int := 0x7fff_ffff_ffff_ffff

  datatype ExpertRecord = ExpertRecord(
    layer: U32, expert: U32, offset: U64, size: U64, quantization: U32, checksum: U32)

  datatype ProjectionRecord = ProjectionRecord(
    layer: U32, expert: U32, kind: U32, dtype: U32, rank: U32, reserved: U32, offset: U64, size: U64,
    shape: seq<U64>, checksum: U32, trailing: U32)

  /** A projection record stores four dimensions whatever its rank. */
  type Projection = p: ProjectionRecord | |p.shape| == 4
    witness ProjectionRecord(0, 0, 0, 0, 0, 0, 0, 0, [0, 0, 0, 0], 0, 0)

  datatype Index = Index(records: seq<ExpertRecord>, projections: seq<Projection>)

  // ---- what an index must satisfy ----

  predicate SameExpert(p: Projection, r: ExpertRecord) {
    p.layer == r.layer && p.expert == r.expert
  }

  predicate RecordOk(r: ExpertRecord) {
    r.size != 0 && r.quantization <= 7 && r.offset + r.size <= MAX64
  }

  /** The size in bytes of one element of a tensor type. */
  function ElementBytes(dtype: U32): nat {
    if dtype == 0 then 4 else if dtype == 1 || dtype == 2 then 2 else 1
  }

  /** The dimensions of the rank are positive, the others zero, and the true
      product of the dimensions times the element size is the size. */
  predicate ShapeOk(p: Projection) {
    && 1 <= p.rank <= 4
    && (forall i | 0 <= i < 4 :: p.shape[i] == 0 <==> i >= p.rank)
    && Product(p.shape[..p.rank]) * ElementBytes(p.dtype) == p.size
  }

  predicate FieldsOk(p: Projection) {
    p.size != 0 && 1 <= p.rank <= 4 && p.dtype <= 3 && p.reserved == 0 && p.trailing == 0 && p.kind <= 2
  }

  predicate Inside(p: Projection, r: ExpertRecord) {
    SameExpert(p, r) && r.offset <= p.offset && p.offset + p.size <= r.offset + r.size
  }

  predicate SameKey(a: ExpertRecord, b: ExpertRecord) {
    a.layer == b.layer && a.expert == b.expert
  }

  predicate SameSlot(a: Projection, b: Projection) {
    a.layer == b.layer && a.expert == b.expert && a.kind == b.kind
  }

  predicate RecordsOk(records: seq<ExpertRecord>) {
    && (forall i | 0 <= i < |records| :: RecordOk(records[i]))
    && (forall i, j | 0 <= i < j < |records| :: !SameKey(records[i], records[j]))
  }

  predicate ProjectionOk(records: seq<ExpertRecord>, p: Projection) {
    FieldsOk(p) && ShapeOk(p) && exists i :: 0 <= i < |records| && Inside(p, records[i])
  }

  predicate ProjectionsOk(records: seq<ExpertRecord>, projections: seq<Projection>) {
    && (forall i | 0 <= i < |projections| :: ProjectionOk(records, projections[i]))
    && (forall i, j | 0 <= i < j < |projections| :: !SameSlot(projections[i], projections[j]))
  }

  /** The declarative rules: experts and projection slots are unique, ranges
      stay within 64 bits, each projection lies inside its own expert, and
      shapes account for sizes. */
  predicate Acceptable(x: Index) {
    RecordsOk(x.records) && ProjectionsOk(x.records, x.projections)
  }

  // ---- the binary form ----

  const MAGIC: Bytes := [0x48, 0x4d, 0x4f, 0x45, 0x49, 0x44, 0x58, 0x00]
  const ENDIAN: U32 := 0x01020304
  const HEADER: seq<nat> := [4, 4, 4, 4, 8]
  const RECORD: seq<nat> := [4, 4, 8, 8, 4, 4]
  const PROJECTION: seq<nat> := [4, 4, 4, 4, 4, 4, 8, 8, 8, 8, 8, 8, 4, 4]

  lemma {:induction false} Width2(a: nat, b: nat)
    ensures Width([a, b]) == a + b
  {
    assert [b][1..] == [] && Width([b]) == b;
    assert [a, b][1..] == [b];
  }

  lemma {:induction false} Width4(a: nat, b: nat, c: nat, d: nat)
    ensures Width([a, b, c, d]) == a + b + c + d
  {
    Width2(c, d);
    assert [b, c, d][1..] == [c, d] && [a, b, c, d][1..] == [b, c, d];
  }

  lemma {:induction false} Width6(a: nat, b: nat, c: nat, d: nat, e: nat, f: nat)
    ensures Width([a, b, c, d, e, f]) == a + b + c + d + e + f
  {
    Width4(c, d, e, f);
    assert [b, c, d, e, f][1..] == [c, d, e, f] && [a, b, c, d, e, f][1..] == [b, c, d, e, f];
  }

  lemma {:induction false} WidthAppend(a: seq<nat>, b: seq<nat>)
    ensures Width(a + b) == Width(a) + Width(b)
  {
    if a == [] {
      assert a + b == b;
    } else {
      WidthAppend(a[1..], b);
      assert (a + b)[1..] == a[1..] + b;
    }
  }

  lemma {:induction false} HeaderWidth()
    ensures Width(HEADER) == 24
  {
    Width4(4, 4, 4, 8);
    assert HEADER[1..] == [4, 4, 4, 8];
  }

  lemma {:induction false} RecordWidth()
    ensures Width(RECORD) == 32
  {
    Width6(4, 4, 8, 8, 4, 4);
  }

  lemma {:induction false} ProjectionWidth()
    ensures Width(PROJECTION) == 80
  {
    hide Width;
    Width6(4, 4, 4, 4, 4, 4);
    Width6(8, 8, 8, 8, 8, 8);
    Width2(4, 4);
    WidthAppend([4, 4, 4, 4, 4, 4], [8, 8, 8, 8, 8, 8]);
    WidthAppend([4, 4, 4, 4, 4, 4] + [8, 8, 8, 8, 8, 8], [4, 4]);
    assert PROJECTION == [4, 4, 4, 4, 4, 4] + [8, 8, 8, 8, 8, 8] + [4, 4];
  }

  lemma {:induction false} Widths()
    ensures Width(HEADER) == 24 && Width(RECORD) == 32 && Width(PROJECTION) == 80
  {
    HeaderWidth();
    RecordWidth();
    ProjectionWidth();
  }

  function RecordFields(r: ExpertRecord): (f: seq<nat>)
    ensures FitFields(RECORD, f)
  {
    Limits();
    [r.layer, r.expert, r.offset, r.size, r.quantization, r.checksum]
  }

  function FieldsRecord(f: seq<nat>): ExpertRecord
    requires FitFields(RECORD, f)
  {
    Limits();
    assert forall i | 0 <= i < 6 :: f[i] < Limit(RECORD[i]);
    ExpertRecord(f[0], f[1], f[2], f[3], f[4], f[5])
  }

  function ProjectionFields(p: Projection): (f: seq<nat>)
    ensures FitFields(PROJECTION, f)
  {
    Limits();
    [p.layer, p.expert, p.kind, p.dtype, p.rank, p.reserved, p.offset, p.size,
     p.shape[0], p.shape[1], p.shape[2], p.shape[3], p.checksum, p.trailing]
  }

  function FieldsProjection(f: seq<nat>): Projection
    requires FitFields(PROJECTION, f)
  {
    Limits();
    assert forall i | 0 <= i < 14 :: f[i] < Limit(PROJECTION[i]);
    ProjectionRecord(f[0], f[1], f[2], f[3], f[4], f[5], f[6], f[7], [f[8], f[9], f[10], f[11]], f[12], f[13])
  }

  lemma {:induction false} RecordFieldsInverse(r: ExpertRecord, f: seq<nat>)
    ensures FieldsRecord(RecordFields(r)) == r
    ensures FitFields(RECORD, f) ==> RecordFields(FieldsRecord(f)) == f
  {
  }

  lemma {:induction false} ProjectionFieldsInverse(p: Projection, f: seq<nat>)
    ensures FieldsProjection(ProjectionFields(p)) == p
    ensures FitFields(PROJECTION, f) ==> ProjectionFields(FieldsProjection(f)) == f
  {
    assert p.shape == [p.shape[0], p.shape[1], p.shape[2], p.shape[3]];
  }

  // ---- printing ----

  function RecordRows(records: seq<ExpertRecord>): (rows: seq<seq<nat>>)
    ensures |rows| == |records|
    ensures forall i | 0 <= i < |rows| :: |rows[i]| == |RECORD| && FitFields(RECORD, rows[i])
  {
    seq(|records|, i requires 0 <= i < |records| => RecordFields(records[i]))
  }

  function ProjectionRows(projections: seq<Projection>): (rows: seq<seq<nat>>)
    ensures |rows| == |projections|
    ensures forall i | 0 <= i < |rows| :: |rows[i]| == |PROJECTION| && FitFields(PROJECTION, rows[i])
  {
    seq(|projections|, i requires 0 <= i < |projections| => ProjectionFields(projections[i]))
  }

  /** The header: version, byte-order mark, record sizes, record count. */
  function Header(version: U32, extension: U32, count: nat): (b: Bytes)
    ensures |b| == 24
  {
    HeaderWidth();
    EncodeFields(HEADER, [version, ENDIAN, 32, extension, count])
  }

  function RecordTable(records: seq<ExpertRecord>): (b: Bytes)
    ensures |b| == 32 * |records|
  {
    RecordWidth();
    EncodeRows(RECORD, RecordRows(records))
  }

  function ProjectionTable(projections: seq<Projection>): (b: Bytes)
    ensures |b| == 80 * |projections|
  {
    ProjectionWidth();
    EncodeRows(PROJECTION, ProjectionRows(projections))
  }

  /** The projection section: a count and a table. */
  function Section(projections: seq<Projection>): (b: Bytes)
    ensures |b| == 8 + 80 * |projections|
  {
    Encode(|projections|, 8) + ProjectionTable(projections)
  }

  /** The file of an index without projections: version 1. */
  function ShortImage(x: Index): Bytes {
    MAGIC + (Header(1, 0, |x.records|) + RecordTable(x.records))
  }

  /** The file with a projection section, which may be empty: version 2. */
  function LongImage(x: Index): Bytes {
    MAGIC + (Header(2, 80, |x.records|) + (RecordTable(x.records) + Section(x.projections)))
  }

  /** What save writes. */
  function Image(x: Index): Bytes {
    if x.projections == [] then ShortImage(x) else LongImage(x)
  }

  // ---- parsing ----

  function TableRecords(count: nat, s: Bytes): (r: seq<ExpertRecord>)
    requires |s| == 32 * count
    ensures |r| == count
  {
    RecordWidth();
    var rows := DecodeRows(RECORD, count, s);
    seq(count, i requires 0 <= i < count => FieldsRecord(rows[i]))
  }

  function TableProjections(count: nat, s: Bytes): (r: seq<Projection>)
    requires |s| == 80 * count
    ensures |r| == count
  {
    ProjectionWidth();
    var rows := DecodeRows(PROJECTION, count, s);
    seq(count, i requires 0 <= i < count => FieldsProjection(rows[i]))
  }

  function HeaderFields(s: Bytes): (f: seq<nat>)
    requires |s| == 24
    ensures FitFields(HEADER, f)
  {
    HeaderWidth();
    DecodeFields(HEADER, s)
  }

  predicate HeaderOk(f: seq<nat>)
    requires |f| == 5
  {
    && (f[0] == 1 || f[0] == 2)
    && f[1] == ENDIAN && f[2] == 32
    && (f[0] == 1 ==> f[3] == 0) && (f[0] == 2 ==> f[3] == 80)
    && f[4] <= MAX_STREAM / 32
  }

  /** What load makes of a file, before it builds the lookup tables. */
  function Parse(b: Bytes): Option<Index> {
    if |b| < 8 || b[..8] != MAGIC || |b| < 32 then None
    else ParseHeaded(b[8..])
  }

  function ParseHeaded(s: Bytes): Option<Index>
    requires |s| >= 24
  {
    var f := HeaderFields(s[..24]);
    if HeaderOk(f) then ParseBody(f[0], f[4], s[24..]) else None
  }

  function ParseBody(version: nat, count: nat, s: Bytes): Option<Index> {
    if |s| < 32 * count || (version == 1 && |s| != 32 * count) then None
    else
      var records := TableRecords(count, s[..32 * count]);
      if version == 1 then Some(Index(records, []))
      else match ParseSection(s[32 * count..])
        case Some(projections) => Some(Index(records, projections))
        case None => None
  }

  function ParseSection(s: Bytes): Option<seq<Projection>> {
    if |s| < 8 then None
    else
      var count := Decode(s[..8]);
      if |s| != 8 + 80 * count then None else Some(TableProjections(count, s[8..]))
  }

  // ---- printing and parsing are inverse ----

  lemma {:induction false} TableInverse(records: seq<ExpertRecord>, s: Bytes, count: nat)
    requires |s| == 32 * count
    ensures TableRecords(|records|, RecordTable(records)) == records
    ensures RecordTable(TableRecords(count, s)) == s
  {
    hide FieldsRecord, RecordFields, EncodeRows, DecodeRows, FitFields;
    RecordWidth();
    DecodeEncodeRows(RECORD, RecordRows(records));
    forall i | 0 <= i < |records| ensures FieldsRecord(RecordRows(records)[i]) == records[i] {
      RecordFieldsInverse(records[i], []);
    }
    var rows := DecodeRows(RECORD, count, s);
    EncodeDecodeRows(RECORD, count, s);
    forall i | 0 <= i < count ensures RecordRows(TableRecords(count, s))[i] == rows[i] {
      RecordFieldsInverse(FieldsRecord(rows[i]), rows[i]);
    }
    assert RecordRows(TableRecords(count, s)) == rows;
  }

  lemma {:induction false} ProjectionTableInverse(projections: seq<Projection>, s: Bytes, count: nat)
    requires |s| == 80 * count
    ensures TableProjections(|projections|, ProjectionTable(projections)) == projections
    ensures ProjectionTable(TableProjections(count, s)) == s
  {
    hide FieldsProjection, ProjectionFields, EncodeRows, DecodeRows, FitFields;
    ProjectionWidth();
    DecodeEncodeRows(PROJECTION, ProjectionRows(projections));
    forall i | 0 <= i < |projections| ensures FieldsProjection(ProjectionRows(projections)[i]) == projections[i] {
      ProjectionFieldsInverse(projections[i], []);
    }
    var rows := DecodeRows(PROJECTION, count, s);
    EncodeDecodeRows(PROJECTION, count, s);
    forall i | 0 <= i < count ensures ProjectionRows(TableProjections(count, s))[i] == rows[i] {
      ProjectionFieldsInverse(FieldsProjection(rows[i]), rows[i]);
    }
    assert ProjectionRows(TableProjections(count, s)) == rows;
  }

  lemma {:induction false} HeaderInverse(version: U32, extension: U32, count: U64, s: Bytes)
    requires |s| == 24
    ensures HeaderFields(Header(version, extension, count)) == [version, ENDIAN, 32, extension, count]
    ensures var f := HeaderFields(s);
      |f| == 5 && (HeaderOk(f) && f[0] <= MAX64 && f[3] <= MAX64 ==> Header(f[0], f[3], f[4]) == s)
  {
    HeaderWidth();
    Limits();
    hide Limit, EncodeFields, DecodeFields, Width;
    var f := HeaderFields(s);
    assert FitFields(HEADER, [version, ENDIAN, 32, extension, count]);
    DecodeEncodeFields(HEADER, [version, ENDIAN, 32, extension, count]);
    EncodeDecodeFields(HEADER, s);
    assert HeaderOk(f) ==> f == [f[0], ENDIAN, 32, f[3], f[4]];
  }

  lemma {:induction false} SectionInverse(s: Bytes, projections: seq<Projection>)
    ensures ParseSection(s) == Some(projections) <==> |projections| <= MAX64 && s == Section(projections)
  {
    Limits();
    hide ProjectionTable, TableProjections, Encode, Decode, Limit;
    if |projections| <= MAX64 {
      var t := Section(projections);
      DecodeEncode(|projections|, 8);
      ProjectionTableInverse(projections, ProjectionTable(projections), |projections|);
      assert t[..8] == Encode(|projections|, 8) && t[8..] == ProjectionTable(projections);
    }
    if ParseSection(s) == Some(projections) {
      EncodeDecode(s[..8]);
      ProjectionTableInverse([], s[8..], Decode(s[..8]));
      assert s == s[..8] + s[8..];
    }
  }

  /** The body of either version. */
  function Body(version: nat, x: Index): Bytes {
    if version == 1 then RecordTable(x.records) else RecordTable(x.records) + Section(x.projections)
  }

  lemma {:induction false} BodyInverse(version: nat, count: nat, s: Bytes, x: Index)
    ensures ParseBody(version, count, s) == Some(x) <==>
      && count == |x.records| && (version == 1 ==> x.projections == [])
      && (version != 1 ==> |x.projections| <= MAX64) && s == Body(version, x)
  {
    hide RecordTable, TableRecords, Section, ParseSection;
    var n := 32 * |x.records|;
    var t := Body(version, x);
    TableInverse(x.records, RecordTable(x.records), |x.records|);
    SectionInverse(Section(x.projections), x.projections);
    assert t[..n] == RecordTable(x.records);
    assert version != 1 ==> t[n..] == Section(x.projections);
    if ParseBody(version, count, s) == Some(x) {
      TableInverse([], s[..32 * count], count);
      SectionInverse(s[32 * count..], x.projections);
      assert s == s[..32 * count] + s[32 * count..];
    }
  }

  predicate Versioned(version: U32, x: Index) {
    |x.records| <= MAX_STREAM / 32
    && ((version == 1 && x.projections == []) || (version == 2 && |x.projections| <= MAX64))
  }

  lemma {:induction false} HeadedInverse(s: Bytes, x: Index)
    requires |s| >= 24
    ensures ParseHeaded(s) == Some(x) <==>
      || (Versioned(1, x) && s == Header(1, 0, |x.records|) + Body(1, x))
      || (Versioned(2, x) && s == Header(2, 80, |x.records|) + Body(2, x))
  {
    hide Header, HeaderFields, Body, ParseBody;
    forall version: U32, extension: U32 | extension == (if version == 1 then 0 else 80) && Versioned(version, x)
      && s == Header(version, extension, |x.records|) + Body(version, x)
      ensures ParseHeaded(s) == Some(x)
    {
      HeaderInverse(version, extension, |x.records|, s[..24]);
      BodyInverse(version, |x.records|, s[24..], x);
      assert s[..24] == Header(version, extension, |x.records|) && s[24..] == Body(version, x);
    }
    if ParseHeaded(s) == Some(x) {
      var f := HeaderFields(s[..24]);
      HeaderInverse(0, 0, 0, s[..24]);
      BodyInverse(f[0], f[4], s[24..], x);
      assert s == s[..24] + s[24..];
    }
  }

  /** An index small enough for the parser's limits. */
  predicate Fits(x: Index) {
    |x.records| <= MAX_STREAM / 32 && |x.projections| <= MAX64
  }

  /** A file parses to an index exactly when it is one of its two images. The
      second image of an index without projections is the only file that load
      accepts and save does not write. */
  lemma {:induction false} ParseExactly(b: Bytes, x: Index)
    ensures Parse(b) == Some(x) <==> Fits(x) && (b == LongImage(x) || (x.projections == [] && b == ShortImage(x)))
  {
    hide Header, RecordTable, Section, ParseHeaded;
    if |b| >= 32 {
      HeadedInverse(b[8..], x);
    }
    assert LongImage(x)[..8] == MAGIC && LongImage(x)[8..] == Header(2, 80, |x.records|) + Body(2, x);
    assert ShortImage(x)[..8] == MAGIC && ShortImage(x)[8..] == Header(1, 0, |x.records|) + Body(1, x);
    assert |b| >= 8 ==> b == b[..8] + b[8..];
  }
}

/** What load accepts and what save writes: they are inverse. */
module IndexRoundTrip {
  import opened Wrappers
  import opened ByteValues
  import opened Bytes
  import opened ExpertStates
  import opened IndexFormat
  import opened Products

  /** The index load makes of a file; None where it throws. */
  function Loaded(b: Bytes): Option<Index> {
    match Parse(b)
    case Some(x) => if Acceptable(x) then Some(x) else None
    case None => None
  }

  /** Load undoes save, for every index that was ever accepted and that the
      parser's size limit admits, with projections or without. */
  lemma {:induction false} LoadUndoesSave(x: Index)
    ensures Loaded(Image(x)) == Some(x) <==> Acceptable(x) && Fits(x)
  {
    hide Acceptable, Parse, ShortImage, LongImage, Fits;
    ParseExactly(Image(x), x);
  }

  /** Load accepts exactly the images of acceptable indexes. */
  lemma {:induction false} LoadAcceptsExactly(b: Bytes, x: Index)
    ensures Loaded(b) == Some(x) <==>
      Acceptable(x) && Fits(x) && (b == LongImage(x) || (x.projections == [] && b == ShortImage(x)))
  {
    hide Acceptable, Parse, ShortImage, LongImage, Fits;
    ParseExactly(b, x);
  }

  /** Save undoes load, except for a version-2 file without projections: that
      one comes back as version 1, eight bytes shorter. */
  lemma {:induction false} SaveUndoesLoad(b: Bytes, x: Index)
    requires Loaded(b) == Some(x)
    ensures Image(x) == b <==> !(x.projections == [] && |b| == 40 + 32 * |x.records|)
    ensures Image(x) != b ==> |Image(x)| == |b| - 8
  {
    hide Acceptable, Parse, Fits, Header, RecordTable, Section;
    ParseExactly(b, x);
  }

  /** The loop of save over one table. */
  method WriteRows(widths: seq<nat>, rows: seq<seq<nat>>) returns (b: Bytes)
    requires forall i | 0 <= i < |rows| :: |rows[i]| == |widths|
    ensures b == EncodeRows(widths, rows)
  {
    b := [];
    for i := 0 to |rows|
      invariant b == EncodeRows(widths, rows[..i])
    {
      hide EncodeFields;
      assert rows[..i + 1][..i] == rows[..i];
      b := b + EncodeFields(widths, rows[i]);
    }
    assert rows[..|rows|] == rows;
  }

  method Save(x: Index) returns (b: Bytes)
    ensures b == Image(x)
  {
    hide EncodeRows, Encode, RecordRows, ProjectionRows, Header, RecordTable, Section;
    var version: U32 := if x.projections == [] then 1 else 2;
    var header := Header(version, if x.projections == [] then 0 else 80, |x.records|);
    var table := WriteTable(x.records);
    b := MAGIC + header + table;
    if x.projections != [] {
      var section := WriteSection(x.projections);
      b := b + section;
      assert b == MAGIC + (header + (table + section));
    }
  }

  method WriteTable(records: seq<ExpertRecord>) returns (b: Bytes)
    ensures b == RecordTable(records)
  {
    hide EncodeRows, RecordFields;
    b := WriteRows(RECORD, RecordRows(records));
  }

  method WriteSection(projections: seq<Projection>) returns (b: Bytes)
    ensures b == Section(projections)
  {
    hide EncodeRows, ProjectionFields, Encode;
    var table := WriteRows(PROJECTION, ProjectionRows(projections));
    b := Encode(|projections|, 8) + table;
  }

  /** Where the i-th record starts. */
  function Span(i: nat, width: nat): nat {
    i * width
  }

  function RowAt(widths: seq<nat>, count: nat, s: Bytes, i: nat): (f: seq<nat>)
    requires |s| == Span(count, Width(widths)) && i < count
  {
    SpanBound(i, count, Width(widths));
    DecodeFields(widths, s[Span(i, Width(widths))..Span(i + 1, Width(widths))])
  }

  lemma {:induction false} SpanBound(i: nat, count: nat, width: nat)
    requires i < count
    ensures Span(0, width) == 0 && Span(i, width) + width == Span(i + 1, width) <= Span(count, width)
  {
  }

  lemma {:induction false} RowsAre(widths: seq<nat>, count: nat, s: Bytes, rows: seq<seq<nat>>)
    requires |s| == Span(count, Width(widths)) && |rows| == count
    requires forall i | 0 <= i < count :: rows[i] == RowAt(widths, count, s, i)
    ensures rows == DecodeRows(widths, count, s)
  {
    if count > 0 {
      SpanBound(count - 1, count, Width(widths));
      var n := Span(count - 1, Width(widths));
      assert n == (count - 1) * Width(widths);
      hide Span, DecodeFields, Width;
      forall i | 0 <= i < count - 1
        ensures RowAt(widths, count - 1, s[..n], i) == RowAt(widths, count, s, i)
      {
        SpanBound(i, count - 1, Width(widths));
        assert s[..n][Span(i, Width(widths))..Span(i + 1, Width(widths))]
            == s[Span(i, Width(widths))..Span(i + 1, Width(widths))];
      }
      RowsAre(widths, count - 1, s[..n], rows[..count - 1]);
      assert s[n..] == s[n..Span(count, Width(widths))];
      assert rows == rows[..count - 1] + [rows[count - 1]];
    }
  }

  /** The loop of load over one table: a cursor that moves by one record. */
  method ReadRows(widths: seq<nat>, width: nat, s: Bytes, count: nat) returns (rows: seq<seq<nat>>)
    requires width == Width(widths) && |s| == Span(count, width)
    ensures |s| == count * Width(widths) && rows == DecodeRows(widths, count, s)
  {
    hide DecodeFields, Width, Span;
    rows := [];
    var cursor := 0;
    if count > 0 {
      SpanBound(0, count, width);
    }
    for i := 0 to count
      invariant count > 0 ==> cursor == Span(i, width)
      invariant |rows| == i && forall j | 0 <= j < i :: rows[j] == RowAt(widths, count, s, j)
    {
      SpanBound(i, count, width);
      rows := rows + [DecodeFields(widths, s[cursor..cursor + width])];
      cursor := cursor + width;
    }
    RowsAre(widths, count, s, rows);
    SpanIs(count, width);
  }

  lemma {:induction false} SpanIs(i: nat, width: nat)
    ensures Span(i, width) == i * width
  {
  }

  method ReadRecords(count: nat, s: Bytes) returns (r: seq<ExpertRecord>)
    requires |s| == 32 * count
    ensures r == TableRecords(count, s)
  {
    hide DecodeRows, FieldsRecord;
    RecordWidth();
    var rows := ReadRows(RECORD, 32, s, count);
    r := seq(count, i requires 0 <= i < count => FieldsRecord(rows[i]));
  }

  method ReadProjections(count: nat, s: Bytes) returns (r: seq<Projection>)
    requires |s| == 80 * count
    ensures r == TableProjections(count, s)
  {
    hide DecodeRows, FieldsProjection;
    ProjectionWidth();
    var rows := ReadRows(PROJECTION, 80, s, count);
    r := seq(count, i requires 0 <= i < count => FieldsProjection(rows[i]));
  }

  /** Load, check by check; what remains is to build the lookup tables. The
      length of a file fits in 64 bits. */
  method ReadIndex(b: Bytes) returns (r: Option<Index>)
    requires |b| <= MAX64
    ensures r == Parse(b)
  {
    hide HeaderFields, ParseBody;
    if |b| < 8 || b[..8] != MAGIC || |b| < 32 {
      return None;
    }
    var s := b[8..];
    var f := HeaderFields(s[..24]);
    if (f[0] != 1 && f[0] != 2) || f[1] != ENDIAN || f[2] != 32
       || (f[0] == 1 && f[3] != 0) || (f[0] == 2 && f[3] != 80) || f[4] > MAX_STREAM / 32 {
      return None;
    }
    r := ReadBody(f[0], f[4], s[24..], |b|);
  }

  method ReadBody(version: nat, count: nat, body: Bytes, fileSize: nat) returns (r: Option<Index>)
    requires fileSize == 32 + |body| <= MAX64 && count <= MAX_STREAM / 32
    ensures r == ParseBody(version, count, body)
  {
    hide TableRecords, TableProjections, Decode;
    var base := 32 + count * 32;
    if fileSize < base || (version == 1 && fileSize != base) {
      return None;
    }
    var records := ReadRecords(count, body[..32 * count]);
    if version == 1 {
      return Some(Index(records, []));
    }
    var projections := ReadSection(body[32 * count..], base, fileSize);
    r := match projections case Some(p) => Some(Index(records, p)) case None => None;
  }

  method ReadSection(s: Bytes, base: nat, fileSize: nat) returns (r: Option<seq<Projection>>)
    requires fileSize == base + |s| <= MAX64
    ensures r == ParseSection(s)
  {
    hide TableProjections, Decode;
    if |s| < 8 || base > MAX64 - 8 {
      return None;
    }
    var count := Decode(s[..8]);
    if count > (MAX64 - (base + 8)) / 80 || fileSize != base + 8 + count * 80 {
      return None;
    }
    var projections := ReadProjections(count, s[8..]);
    r := Some(projections);
  }
}

/** The index object: its records, and the lookup tables built from them. */
module ExpertIndexClass {
  import opened Wrappers
  import opened ByteValues
  import opened Bytes
  import opened ExpertStates
  import opened IndexFormat
  import opened Products
  import IndexRoundTrip

  function RecordKey(r: ExpertRecord): Key {
    MakeKey(r.layer, r.expert)
  }

  function ProjectionKey(p: Projection): Key {
    MakeKey(p.layer, p.expert)
  }

  // ---- linear search, the reference for the lookups ----

  function LinearFind(records: seq<ExpertRecord>, layer: U32, expert: U32): (r: Option<ExpertRecord>)
    ensures r == None <==> forall i | 0 <= i < |records| :: !(records[i].layer == layer && records[i].expert == expert)
    ensures r.Some? ==> r.value in records && r.value.layer == layer && r.value.expert == expert
  {
    if records == [] then None
    else if records[0].layer == layer && records[0].expert == expert then Some(records[0])
    else
      assert forall i | 1 <= i < |records| :: records[i] == records[1..][i - 1];
      LinearFind(records[1..], layer, expert)
  }

  function LinearFindProjection(projections: seq<Projection>, layer: U32, expert: U32, kind: U32)
    : (r: Option<Projection>)
    ensures r == None <==> forall i | 0 <= i < |projections| ::
      !(projections[i].layer == layer && projections[i].expert == expert && projections[i].kind == kind)
    ensures r.Some? ==>
      r.value in projections && r.value.layer == layer && r.value.expert == expert && r.value.kind == kind
  {
    if projections == [] then None
    else if projections[0].layer == layer && projections[0].expert == expert && projections[0].kind == kind
    then Some(projections[0])
    else
      assert forall i | 1 <= i < |projections| :: projections[i] == projections[1..][i - 1];
      LinearFindProjection(projections[1..], layer, expert, kind)
  }

  // ---- the tables ----

  /** The lookup table of the first n records. */
  ghost predicate LookupOk(records: seq<ExpertRecord>, lookup: map<Key, nat>, n: nat)
    requires n <= |records|
  {
    && (forall i | 0 <= i < n :: RecordKey(records[i]) in lookup && lookup[RecordKey(records[i])] == i)
    && (forall k | k in lookup :: lookup[k] < n && RecordKey(records[lookup[k]]) == k)
  }

  type Slots = seq<Option<nat>>

  /** The slot table of the first n projections. */
  ghost predicate SlotsOk(projections: seq<Projection>, slots: map<Key, Slots>, n: nat)
    requires n <= |projections|
  {
    && (forall k | k in slots :: |slots[k]| == 3)
    && (forall i | 0 <= i < n ::
          && projections[i].kind < 3 && ProjectionKey(projections[i]) in slots
          && slots[ProjectionKey(projections[i])][projections[i].kind] == Some(i))
    && (forall k, t | k in slots && 0 <= t < 3 && slots[k][t].Some? :: SlotHolds(projections, k, t, slots[k][t].value, n))
  }

  predicate SlotHolds(projections: seq<Projection>, k: Key, t: nat, i: nat, n: nat)
    requires n <= |projections|
  {
    i < n && ProjectionKey(projections[i]) == k && projections[i].kind == t
  }

  lemma {:induction false} SameKeyIffEqual(a: ExpertRecord, b: ExpertRecord)
    ensures SameKey(a, b) <==> RecordKey(a) == RecordKey(b)
  {
    hide MakeKey, KeyLayer, KeyExpert;
    KeyRoundTrip(a.layer, a.expert, 0);
    KeyRoundTrip(b.layer, b.expert, 0);
  }

  lemma {:induction false} SameSlotIffEqual(a: Projection, b: Projection)
    ensures SameSlot(a, b) <==> ProjectionKey(a) == ProjectionKey(b) && a.kind == b.kind
  {
    hide MakeKey, KeyLayer, KeyExpert;
    KeyRoundTrip(a.layer, a.expert, 0);
    KeyRoundTrip(b.layer, b.expert, 0);
  }

  lemma {:induction false} LookupFinds(records: seq<ExpertRecord>, lookup: map<Key, nat>, layer: U32, expert: U32)
    requires LookupOk(records, lookup, |records|)
    requires forall i, j | 0 <= i < j < |records| :: !SameKey(records[i], records[j])
    ensures LinearFind(records, layer, expert) ==
      if MakeKey(layer, expert) in lookup then Some(records[lookup[MakeKey(layer, expert)]]) else None
  {
    hide MakeKey, KeyLayer, KeyExpert;
    var found := LinearFind(records, layer, expert);
    var k := MakeKey(layer, expert);
    if found.Some? {
      var i :| 0 <= i < |records| && records[i] == found.value;
      assert RecordKey(records[i]) == k;
    } else if k in lookup {
      var r := records[lookup[k]];
      KeyRoundTrip(r.layer, r.expert, 0);
      KeyRoundTrip(layer, expert, 0);
    }
  }

  lemma {:induction false} SlotsFind(projections: seq<Projection>, slots: map<Key, Slots>, layer: U32, expert: U32,
                                     kind: U32)
    requires SlotsOk(projections, slots, |projections|)
    ensures LinearFindProjection(projections, layer, expert, kind) ==
      var k := MakeKey(layer, expert);
      if k in slots && kind < 3 && slots[k][kind].Some? then Some(projections[slots[k][kind].value]) else None
  {
    hide MakeKey, KeyLayer, KeyExpert;
    var found := LinearFindProjection(projections, layer, expert, kind);
    var k := MakeKey(layer, expert);
    if found.Some? {
      var i :| 0 <= i < |projections| && projections[i] == found.value;
      assert ProjectionKey(projections[i]) == k;
    } else if k in slots && kind < 3 && slots[k][kind].Some? {
      assert SlotHolds(projections, k, kind, slots[k][kind].value, |projections|);
      var p := projections[slots[k][kind].value];
      KeyRoundTrip(p.layer, p.expert, 0);
      KeyRoundTrip(layer, expert, 0);
    }
  }

  /** A taken slot is a duplicate; a free one takes the next projection. */
  lemma {:induction false} NextSlot(projections: seq<Projection>, slots: map<Key, Slots>, i: nat)
    requires i < |projections| && SlotsOk(projections, slots, i) && projections[i].kind < 3
    ensures var p := projections[i];
      var row := if ProjectionKey(p) in slots then slots[ProjectionKey(p)] else [None, None, None];
      && |row| == 3
      && (row[p.kind].Some? <==> exists j :: 0 <= j < i && SameSlot(projections[j], p))
      && (row[p.kind] == None ==> SlotsOk(projections, slots[ProjectionKey(p) := row[p.kind := Some(i)]], i + 1))
  {
    hide MakeKey;
    var p := projections[i];
    var k := ProjectionKey(p);
    var row := if k in slots then slots[k] else [None, None, None];
    forall j | 0 <= j < i
      ensures SameSlot(projections[j], p) <==> ProjectionKey(projections[j]) == k && projections[j].kind == p.kind
    {
      SameSlotIffEqual(projections[j], p);
    }
    if row[p.kind].Some? {
      assert SlotHolds(projections, k, p.kind, row[p.kind].value, i);
      assert SameSlot(projections[row[p.kind].value], p);
    }
  }

  // ---- shapes ----

  /** The shape loops with their overflow guards in 64 bits: they accept
      exactly the shapes whose true size is the recorded one. */
  method CheckShape(p: Projection) returns (ok: bool)
    requires 1 <= p.rank <= 4
    ensures ok <==> ShapeOk(p)
  {
    var elements := 1;
    assert p.shape[..0] == [];
    for i := 0 to p.rank
      invariant elements == Product(p.shape[..i]) <= MAX64
      invariant forall j | 0 <= j < i :: p.shape[j] > 0
    {
      if p.shape[i] == 0 {
        return false;
      }
      assert p.shape[..i + 1][..i] == p.shape[..i];
      Overflow(elements, p.shape[i], MAX64);
      if elements > MAX64 / p.shape[i] {
        if ShapeOk(p) {
          ProductGrows(p.shape[..p.rank], i + 1);
          assert p.shape[..p.rank][..i + 1] == p.shape[..i + 1];
          Positive(Product(p.shape[..p.rank]), ElementBytes(p.dtype));
        }
        return false;
      }
      elements := elements * p.shape[i];
    }
    for i := p.rank to 4
      invariant forall j | p.rank <= j < i :: p.shape[j] == 0
    {
      if p.shape[i] != 0 {
        return false;
      }
    }
    var width := ElementBytes(p.dtype);
    Overflow(elements, width, MAX64);
    ok := !(elements > MAX64 / width) && elements * width == p.size;
  }

  /** The rules for the projections, as far as the first n. */
  ghost predicate FirstOk(records: seq<ExpertRecord>, projections: seq<Projection>, n: nat)
    requires n <= |projections|
  {
    && (forall i | 0 <= i < n :: ProjectionOk(records, projections[i]))
    && (forall i, j | 0 <= i < j < n :: !SameSlot(projections[i], projections[j]))
  }

  lemma {:induction false} KindSmall(p: Projection)
    ensures FieldsOk(p) ==> p.kind < 3
  {
  }

  lemma {:induction false} FirstOkNext(records: seq<ExpertRecord>, projections: seq<Projection>, n: nat)
    requires n < |projections| && FirstOk(records, projections, n)
    ensures var p := projections[n];
      var good := FieldsOk(p) && (exists i :: 0 <= i < |records| && Inside(p, records[i])) && ShapeOk(p)
                  && !exists j :: 0 <= j < n && SameSlot(projections[j], p);
      && (good ==> FirstOk(records, projections, n + 1))
      && (!good ==> !ProjectionsOk(records, projections))
  {
    hide FieldsOk, Inside, ShapeOk, SameSlot;
    var p := projections[n];
    assert ProjectionOk(records, p) <==>
      (FieldsOk(p) && (exists i :: 0 <= i < |records| && Inside(p, records[i])) && ShapeOk(p));
  }

  class ExpertIndex {
    const records: seq<ExpertRecord>
    const projections: seq<Projection>
    var lookup: map<Key, nat>
    var slots: map<Key, Slots>

    ghost predicate Valid()
      reads this
    {
      && Acceptable(Index(records, projections))
      && LookupOk(records, lookup, |records|)
      && SlotsOk(projections, slots, |projections|)
    }

    constructor (records: seq<ExpertRecord>, projections: seq<Projection>)
      ensures this.records == records && this.projections == projections
      ensures lookup == map[] && slots == map[]
    {
      this.records, this.projections := records, projections;
      lookup, slots := map[], map[];
    }

    /** The lookup tables are built exactly for the acceptable indexes. */
    method RebuildLookup() returns (ok: bool)
      requires lookup == map[] && slots == map[]
      modifies this
      ensures ok <==> Acceptable(Index(records, projections))
      ensures ok ==> Valid()
    {
      ok := BuildRecords();
      if ok {
        ok := BuildProjections();
      }
    }

    method BuildRecords() returns (ok: bool)
      requires lookup == map[]
      modifies `lookup
      ensures ok <==> RecordsOk(records)
      ensures ok ==> LookupOk(records, lookup, |records|)
    {
      for i := 0 to |records|
        invariant LookupOk(records, lookup, i)
        invariant forall j | 0 <= j < i :: RecordOk(records[j])
        invariant forall j, m | 0 <= j < m < i :: !SameKey(records[j], records[m])
      {
        var r := records[i];
        if r.size == 0 || r.quantization > 7 || r.offset > MAX64 - r.size {
          assert !RecordOk(records[i]);
          return false;
        }
        forall j | 0 <= j < i ensures SameKey(records[j], r) <==> RecordKey(records[j]) == RecordKey(r) {
          SameKeyIffEqual(records[j], r);
        }
        if RecordKey(r) in lookup {
          assert SameKey(records[lookup[RecordKey(r)]], r);
          return false;
        }
        lookup := lookup[RecordKey(r) := i];
      }
      ok := true;
    }

    /** Inside the loop, the record found by lookup decides whether the
        projection lies inside its expert. */
    method FindExpert(p: Projection) returns (r: Option<ExpertRecord>)
      requires RecordsOk(records) && LookupOk(records, lookup, |records|)
      ensures r.Some? && Inside(p, r.value) <==> exists i :: 0 <= i < |records| && Inside(p, records[i])
      ensures r.Some? ==> r.value in records && SameExpert(p, r.value)
    {
      LookupFinds(records, lookup, p.layer, p.expert);
      r := if ProjectionKey(p) in lookup then Some(records[lookup[ProjectionKey(p)]]) else None;
      if i :| 0 <= i < |records| && Inside(p, records[i]) {
        assert r.Some?;
        var j :| 0 <= j < |records| && records[j] == r.value;
        assert SameKey(records[i], records[j]);
      }
    }

    method CheckProjection(p: Projection) returns (ok: bool)
      requires RecordsOk(records) && LookupOk(records, lookup, |records|)
      ensures ok <==> FieldsOk(p) && exists i :: 0 <= i < |records| && Inside(p, records[i])
    {
      if !FieldsOk(p) {
        return false;
      }
      var r := FindExpert(p);
      ok := !(r == None || p.offset < r.value.offset || p.offset > MAX64 - p.size
              || p.offset + p.size > r.value.offset + r.value.size);
    }

    /** The loop's body: one projection checked and entered into its slot. */
    method AddProjection(i: nat) returns (ok: bool)
      requires i < |projections| && RecordsOk(records) && LookupOk(records, lookup, |records|)
      requires SlotsOk(projections, slots, i) && FirstOk(records, projections, i)
      modifies `slots
      ensures ok ==> SlotsOk(projections, slots, i + 1) && FirstOk(records, projections, i + 1)
      ensures !ok ==> !ProjectionsOk(records, projections)
    {
      var p := projections[i];
      KindSmall(p);
      hide FieldsOk, ShapeOk, Inside, SlotsOk, LookupOk, ProjectionKey, SameSlot, RecordsOk, ProjectionOk,
           ProjectionsOk, FirstOk;
      FirstOkNext(records, projections, i);
      var inside := CheckProjection(p);
      if !inside {
        return false;
      }
      NextSlot(projections, slots, i);
      var k := ProjectionKey(p);
      var row := if k in slots then slots[k] else [None, None, None];
      if row[p.kind].Some? {
        return false;
      }
      slots := slots[k := row[p.kind := Some(i)]];
      ok := CheckShape(p);
    }

    method BuildProjections() returns (ok: bool)
      requires RecordsOk(records) && LookupOk(records, lookup, |records|) && slots == map[]
      modifies `slots
      ensures ok <==> ProjectionsOk(records, projections)
      ensures ok ==> SlotsOk(projections, slots, |projections|)
    {
      for i := 0 to |projections|
        invariant SlotsOk(projections, slots, i)
        invariant FirstOk(records, projections, i)
      {
        hide SlotsOk, LookupOk, RecordsOk, ProjectionsOk, FirstOk;
        var added := AddProjection(i);
        if !added {
          return false;
        }
      }
      ok := true;
    }

    /** Lookup agrees with a linear search of the records. */
    method Find(layer: U32, expert: U32) returns (r: Option<ExpertRecord>)
      requires Valid()
      ensures r == LinearFind(records, layer, expert)
    {
      LookupFinds(records, lookup, layer, expert);
      var k := MakeKey(layer, expert);
      r := if k in lookup then Some(records[lookup[k]]) else None;
    }

    /** So does the lookup of a projection, for any kind. */
    method FindProjection(layer: U32, expert: U32, kind: U32) returns (r: Option<Projection>)
      requires Valid()
      ensures r == LinearFindProjection(projections, layer, expert, kind)
    {
      SlotsFind(projections, slots, layer, expert, kind);
      var k := MakeKey(layer, expert);
      if k !in slots || kind >= 3 || slots[k][kind] == None {
        return None;
      }
      r := Some(projections[slots[k][kind].value]);
    }
  }

  /** Load: parse, construct, build the tables. */
  method Load(b: Bytes) returns (r: Option<ExpertIndex>)
    requires |b| <= MAX64
    ensures r == None <==> IndexRoundTrip.Loaded(b) == None
    ensures r.Some? ==> fresh(r.value) && r.value.Valid()
    ensures r.Some? ==> IndexRoundTrip.Loaded(b) == Some(Index(r.value.records, r.value.projections))
  {
    var parsed := IndexRoundTrip.ReadIndex(b);
    if parsed == None {
      return None;
    }
    var index := new ExpertIndex(parsed.value.records, parsed.value.projections);
    var ok := index.RebuildLookup();
    r := if ok then Some(index) else None;
  }
}
