/**
Where every field of the index file stands, byte by byte
(src/storage/ExpertIndex.cpp:165-205): little-endian numbers at fixed places.
 */
module ImageLayout {
  import opened ByteValues
  import opened Bytes
  import opened Products
  import opened IndexFormat

  function ByteAt(b: Bytes, at: nat): nat
    requires at < |b|
  {
    b[at] as nat
  }

  /** Four bytes, the least significant first. */
  function Word(b: Bytes, at: nat): nat
    requires at + 4 <= |b|
  {
    ByteAt(b, at) + 0x100 * ByteAt(b, at + 1) + 0x1_0000 * ByteAt(b, at + 2) + 0x100_0000 * ByteAt(b, at + 3)
  }

  /** Eight. */
  function Long(b: Bytes, at: nat): nat
    requires at + 8 <= |b|
  {
    Word(b, at) + 0x1_0000_0000 * Word(b, at + 4)
  }

  lemma {:induction false} DecodeStep(b: Bytes, at: nat, n: nat)
    requires at + n <= |b| && n > 0
    ensures Decode(b[at..at + n]) == ByteAt(b, at) + 256 * Decode(b[at + 1..at + n])
  {
    var s := b[at..at + n];
    assert s[1..] == b[at + 1..at + n];
  }

  lemma {:induction false} DecodeNone(b: Bytes, at: nat)
    requires at <= |b|
    ensures Decode(b[at..at]) == 0
  {
  }

  lemma {:induction false} WordIs(b: Bytes, at: nat)
    requires at + 4 <= |b|
    ensures Decode(b[at..at + 4]) == Word(b, at)
  {
    DecodeStep(b, at, 4);
    DecodeStep(b, at + 1, 3);
    DecodeStep(b, at + 2, 2);
    DecodeStep(b, at + 3, 1);
    DecodeNone(b, at + 4);
    hide Decode, ByteAt;
  }

  lemma {:induction false} LongIs(b: Bytes, at: nat)
    requires at + 8 <= |b|
    ensures Decode(b[at..at + 8]) == Long(b, at)
  {
    DecodeStep(b, at, 8);
    DecodeStep(b, at + 1, 7);
    DecodeStep(b, at + 2, 6);
    DecodeStep(b, at + 3, 5);
    WordIs(b, at + 4);
    hide Decode, ByteAt;
  }

  // ---- fields ----

  lemma {:induction false} FieldSlice(widths: seq<nat>, values: seq<nat>, i: nat)
    requires |values| == |widths| && i < |widths|
    ensures Width(widths[..i]) + widths[i] <= |EncodeFields(widths, values)|
    ensures EncodeFields(widths, values)[Width(widths[..i])..Width(widths[..i]) + widths[i]] == Encode(values[i], widths[i])
  {
    var first, rest := Encode(values[0], widths[0]), EncodeFields(widths[1..], values[1..]);
    FirstField(widths, values);
    hide Encode, EncodeFields;
    if i == 0 {
      assert widths[..0] == [] && Width([]) == 0;
    } else {
      hide Width;
      FieldSlice(widths[1..], values[1..], i - 1);
      WidthFirst(widths, i);
      SliceMoved(first, rest, Width(widths[1..][..i - 1]), widths[i]);
    }
  }

  lemma {:induction false} FirstField(widths: seq<nat>, values: seq<nat>)
    requires |values| == |widths| > 0
    ensures EncodeFields(widths, values) == Encode(values[0], widths[0]) + EncodeFields(widths[1..], values[1..])
    ensures |Encode(values[0], widths[0])| == widths[0]
  {
    hide Encode;
  }

  lemma {:induction false} WidthFirst(widths: seq<nat>, i: nat)
    requires 0 < i <= |widths|
    ensures Width(widths[..i]) == widths[0] + Width(widths[1..][..i - 1])
  {
    assert widths[..i][1..] == widths[1..][..i - 1];
  }

  lemma {:induction false} SliceMoved(a: Bytes, b: Bytes, at: nat, n: nat)
    requires at + n <= |b|
    ensures (a + b)[|a| + at..|a| + at + n] == b[at..at + n]
  {
  }

  lemma {:induction false} NextPlace(widths: seq<nat>, i: nat)
    requires i < |widths|
    ensures Width(widths[..i + 1]) == Width(widths[..i]) + widths[i]
  {
    assert widths[..i + 1] == widths[..i] + [widths[i]];
    WidthAppend(widths[..i], [widths[i]]);
    assert [widths[i]][1..] == [];
  }

  /** The number that stands in a field. */
  function NumberAt(b: Bytes, at: nat, width: nat): nat
    requires at + width <= |b| && (width == 4 || width == 8)
  {
    if width == 4 then Word(b, at) else Long(b, at)
  }

  lemma {:induction false} FieldIs(widths: seq<nat>, values: seq<nat>, i: nat, at: nat)
    requires FitFields(widths, values) && i < |widths| && (widths[i] == 4 || widths[i] == 8)
    requires at == Width(widths[..i])
    ensures at + widths[i] <= |EncodeFields(widths, values)|
    ensures NumberAt(EncodeFields(widths, values), at, widths[i]) == values[i]
    ensures Width(widths[..i + 1]) == at + widths[i]
  {
    var b := EncodeFields(widths, values);
    FieldSlice(widths, values, i);
    NextPlace(widths, i);
    DecodeEncode(values[i], widths[i]);
    hide EncodeFields, Width, Encode, Decode, Word, Long;
    if widths[i] == 4 {
      WordIs(b, at);
    } else {
      LongIs(b, at);
    }
  }

  /** The 32 bytes of an expert's record. */
  predicate HoldsRecord(b: Bytes, r: ExpertRecord) {
    && |b| == 32
    && Word(b, 0) == r.layer && Word(b, 4) == r.expert && Long(b, 8) == r.offset && Long(b, 16) == r.size
    && Word(b, 24) == r.quantization && Word(b, 28) == r.checksum
  }

  lemma {:induction false} RecordLaid(r: ExpertRecord)
    ensures HoldsRecord(EncodeFields(RECORD, RecordFields(r)), r)
  {
    RecordWidth();
    var f := RecordFields(r);
    hide EncodeFields, Word, Long, FitFields, Width;
    NoWidth();
    assert RECORD[..0] == [];
    FieldIs(RECORD, f, 0, 0);
    FieldIs(RECORD, f, 1, 4);
    FieldIs(RECORD, f, 2, 8);
    FieldIs(RECORD, f, 3, 16);
    FieldIs(RECORD, f, 4, 24);
    FieldIs(RECORD, f, 5, 28);
  }

  lemma {:induction false} NoWidth()
    ensures Width([]) == 0
  {
  }

  /** The 80 bytes of a projection's record. */
  predicate HoldsProjection(b: Bytes, p: Projection) {
    && |b| == 80
    && Word(b, 0) == p.layer && Word(b, 4) == p.expert && Word(b, 8) == p.kind && Word(b, 12) == p.dtype
    && Word(b, 16) == p.rank && Word(b, 20) == p.reserved && Long(b, 24) == p.offset && Long(b, 32) == p.size
    && Long(b, 40) == p.shape[0] && Long(b, 48) == p.shape[1] && Long(b, 56) == p.shape[2] && Long(b, 64) == p.shape[3]
    && Word(b, 72) == p.checksum && Word(b, 76) == p.trailing
  }

  lemma {:induction false} ProjectionLaid(p: Projection)
    ensures HoldsProjection(EncodeFields(PROJECTION, ProjectionFields(p)), p)
  {
    ProjectionWidth();
    var f := ProjectionFields(p);
    hide EncodeFields, Word, Long, FitFields, Width;
    NoWidth();
    assert PROJECTION[..0] == [];
    FieldIs(PROJECTION, f, 0, 0);
    FieldIs(PROJECTION, f, 1, 4);
    FieldIs(PROJECTION, f, 2, 8);
    FieldIs(PROJECTION, f, 3, 12);
    FieldIs(PROJECTION, f, 4, 16);
    FieldIs(PROJECTION, f, 5, 20);
    FieldIs(PROJECTION, f, 6, 24);
    FieldIs(PROJECTION, f, 7, 32);
    FieldIs(PROJECTION, f, 8, 40);
    FieldIs(PROJECTION, f, 9, 48);
    FieldIs(PROJECTION, f, 10, 56);
    FieldIs(PROJECTION, f, 11, 64);
    FieldIs(PROJECTION, f, 12, 72);
    FieldIs(PROJECTION, f, 13, 76);
  }

  /** The magic, the version, the byte-order mark, the record sizes, the count. */
  predicate HoldsHeader(b: Bytes, version: nat, extension: nat, count: nat) {
    && |b| >= 32 && b[..8] == [0x48, 0x4d, 0x4f, 0x45, 0x49, 0x44, 0x58, 0x00]
    && Word(b, 8) == version && Word(b, 12) == 0x01020304 && Word(b, 16) == 32 && Word(b, 20) == extension
    && Long(b, 24) == count
  }

  function HeaderValues(version: U32, extension: U32, count: U64): (f: seq<nat>)
    ensures FitFields(HEADER, f)
  {
    Limits();
    [version, 0x01020304, 32, extension, count]
  }

  /** The same, without the magic in front. */
  predicate HoldsFields(h: Bytes, version: nat, extension: nat, count: nat) {
    && |h| == 24
    && Word(h, 0) == version && Word(h, 4) == 0x01020304 && Word(h, 8) == 32 && Word(h, 12) == extension
    && Long(h, 16) == count
  }

  lemma {:induction false} HeaderLaid(version: U32, extension: U32, count: U64)
    ensures HoldsFields(Header(version, extension, count), version, extension, count)
  {
    HeaderWidth();
    var f := HeaderValues(version, extension, count);
    HeaderIs(version, extension, count);
    hide EncodeFields, FitFields, Width, Word, Long, Header;
    NoWidth();
    assert HEADER[..0] == [];
    FieldIs(HEADER, f, 0, 0);
    FieldIs(HEADER, f, 1, 4);
    FieldIs(HEADER, f, 2, 8);
    FieldIs(HEADER, f, 3, 12);
    FieldIs(HEADER, f, 4, 16);
  }

  lemma {:induction false} HeaderIs(version: U32, extension: U32, count: U64)
    ensures Header(version, extension, count) == EncodeFields(HEADER, HeaderValues(version, extension, count))
  {
    hide EncodeFields, FitFields, Width;
  }

  lemma {:induction false} HeadMoved(a: Bytes, h: Bytes, rest: Bytes, version: nat, extension: nat, count: nat)
    requires |a| == 8 && HoldsFields(h, version, extension, count)
    ensures var b := a + (h + rest);
      && Word(b, 8) == version && Word(b, 12) == 0x01020304 && Word(b, 16) == 32 && Word(b, 20) == extension
      && Long(b, 24) == count && b[..8] == a
  {
    hide Word, Long;
    WordMoved(a, h, rest, 0);
    WordMoved(a, h, rest, 4);
    WordMoved(a, h, rest, 8);
    WordMoved(a, h, rest, 12);
    LongMoved(a, h, rest, 16);
  }

  lemma {:induction false} HeadLaid(version: U32, extension: U32, count: U64, rest: Bytes)
    ensures HoldsHeader(MAGIC + (Header(version, extension, count) + rest), version, extension, count)
  {
    HeaderLaid(version, extension, count);
    hide Word, Long, Header, HoldsFields;
    HeadMoved(MAGIC, Header(version, extension, count), rest, version, extension, count);
  }

  /** Numbers move with their bytes. */
  lemma {:induction false} WordMoved(a: Bytes, part: Bytes, rest: Bytes, at: nat)
    requires at + 4 <= |part|
    ensures Word(a + (part + rest), |a| + at) == Word(part, at)
  {
  }

  lemma {:induction false} LongMoved(a: Bytes, part: Bytes, rest: Bytes, at: nat)
    requires at + 8 <= |part|
    ensures Long(a + (part + rest), |a| + at) == Long(part, at)
  {
    hide Word;
    WordMoved(a, part, rest, at);
    WordMoved(a, part, rest, at + 4);
  }

  // ---- rows ----

  lemma {:induction false} RowSlice(widths: seq<nat>, rows: seq<seq<nat>>, i: nat, width: nat)
    requires i < |rows| && width == Width(widths) && forall j | 0 <= j < |rows| :: |rows[j]| == |widths|
    ensures 0 <= i * width && i * width + width <= |EncodeRows(widths, rows)|
    ensures EncodeRows(widths, rows)[i * width..i * width + width] == EncodeFields(widths, rows[i])
  {
    hide EncodeFields, Width;
    var n := |rows| - 1;
    var front := EncodeRows(widths, rows[..n]);
    assert EncodeRows(widths, rows) == front + EncodeFields(widths, rows[n]) && |front| == n * width;
    if i < n {
      RowSlice(widths, rows[..n], i, width);
    }
  }

  // ---- the image ----

  /** Where the projection section starts, after the header and the records. */
  function SectionStart(x: Index): nat {
    32 + 32 * |x.records|
  }

  /** The whole file: header, records, and with projections their count and
      their records; nothing between, before or after. */
  ghost predicate IsLaidOut(b: Bytes, x: Index) {
    var long := x.projections != [];
    var s := SectionStart(x);
    && HoldsHeader(b, if long then 2 else 1, if long then 80 else 0, |x.records|)
    && |b| == (if long then s + 8 + 80 * |x.projections| else s)
    && (forall i | 0 <= i < |x.records| :: HoldsRecord(b[32 + 32 * i..64 + 32 * i], x.records[i]))
    && (long ==> Long(b, s) == |x.projections|)
    && (long ==> forall j | 0 <= j < |x.projections| ::
          HoldsProjection(b[s + 8 + 80 * j..s + 88 + 80 * j], x.projections[j]))
  }

  lemma {:induction false} RecordsLaid(records: seq<ExpertRecord>, i: nat)
    requires i < |records|
    ensures HoldsRecord(RecordTable(records)[32 * i..32 * i + 32], records[i])
  {
    RecordWidth();
    RecordLaid(records[i]);
    RowSlice(RECORD, RecordRows(records), i, 32);
    hide EncodeRows, EncodeFields, HoldsRecord, RecordFields, Width;
  }

  lemma {:induction false} ProjectionsLaid(projections: seq<Projection>, j: nat)
    requires j < |projections|
    ensures HoldsProjection(ProjectionTable(projections)[80 * j..80 * j + 80], projections[j])
  {
    ProjectionWidth();
    ProjectionLaid(projections[j]);
    RowSlice(PROJECTION, ProjectionRows(projections), j, 80);
    hide EncodeRows, EncodeFields, HoldsProjection, ProjectionFields, Width;
  }

  lemma {:induction false} SectionCount(projections: seq<Projection>)
    requires |projections| <= MAX64
    ensures Long(Section(projections), 0) == |projections|
  {
    Limits();
    DecodeEncode(|projections|, 8);
    LongIs(Section(projections), 0);
    hide Encode, Decode, ProjectionTable, Limit, Long;
    assert Section(projections)[0..8] == Encode(|projections|, 8);
  }

  /** The file that is written for an index. */
  lemma {:induction false} ImageIsLaidOut(x: Index)
    requires |x.records| <= MAX64 && |x.projections| <= MAX64
    ensures IsLaidOut(Image(x), x)
  {
    hide HoldsHeader, HoldsRecord, HoldsProjection, Header, RecordTable, ProjectionTable, Long, Word, Encode;
    var b, long, n := Image(x), x.projections != [], |x.records|;
    var records, tail := RecordTable(x.records), if long then Section(x.projections) else [];
    var head := Header(if long then 2 else 1, if long then 80 else 0, n);
    assert b == MAGIC + (head + (records + tail));
    HeadLaid(if long then 2 else 1, if long then 80 else 0, n, records + tail);
    forall i | 0 <= i < n ensures HoldsRecord(b[32 + 32 * i..64 + 32 * i], x.records[i]) {
      RecordsLaid(x.records, i);
      Inside(MAGIC, head, records, tail, 32 * i, 32);
    }
    if long {
      var before := MAGIC + head + records;
      assert b == before + (tail + []);
      SectionCount(x.projections);
      LongMoved(before, tail, [], 0);
      forall j | 0 <= j < |x.projections|
        ensures HoldsProjection(b[32 + 32 * n + 8 + 80 * j..32 + 32 * n + 88 + 80 * j], x.projections[j])
      {
        ProjectionsLaid(x.projections, j);
        SliceMoved(Encode(|x.projections|, 8), ProjectionTable(x.projections), 80 * j, 80);
        assert b == before + tail;
        SliceMoved(before, tail, 8 + 80 * j, 80);
      }
    }
  }

  lemma {:induction false} Inside(a: Bytes, h: Bytes, m: Bytes, t: Bytes, at: nat, n: nat)
    requires at + n <= |m|
    ensures (a + (h + (m + t)))[|a| + |h| + at..|a| + |h| + at + n] == m[at..at + n]
  {
    assert a + (h + (m + t)) == (a + h) + (m + t);
    SliceMoved(a + h, m + t, at, n);
    assert (m + t)[at..at + n] == m[at..at + n];
  }
}

/** The rules an index must meet, in the fields of its records. */
module IndexRules {
  import opened Products
  import opened IndexFormat

  predicate GoodRecord(r: ExpertRecord) {
    0 < r.size && r.offset + r.size <= 0xffff_ffff_ffff_ffff && r.quantization <= 7
  }

  /** Four-byte, two-byte and one-byte elements. */
  function Bytes(dtype: nat): nat {
    match dtype
    case 0 => 4
    case 1 => 2
    case 2 => 2
    case _ => 1
  }

  function Dimension(p: Projection, i: nat): nat
    requires i < 4
  {
    if i < p.rank then p.shape[i] else 1
  }

  predicate GoodProjection(p: Projection) {
    && p.kind <= 2 && p.dtype <= 3 && p.reserved == 0 && p.trailing == 0 && 0 < p.size && 1 <= p.rank <= 4
    && (forall i | 0 <= i < 4 :: if i < p.rank then p.shape[i] > 0 else p.shape[i] == 0)
    && Dimension(p, 0) * Dimension(p, 1) * Dimension(p, 2) * Dimension(p, 3) * Bytes(p.dtype) == p.size
  }

  predicate Owned(p: Projection, r: ExpertRecord) {
    p.layer == r.layer && p.expert == r.expert && r.offset <= p.offset && p.offset + p.size <= r.offset + r.size
  }

  /** Good records, one for each expert; good projections, one for each slot,
      each inside the range of its expert. */
  lemma {:induction false} AcceptableExactly(x: Index)
    ensures Acceptable(x) <==>
      && (forall i | 0 <= i < |x.records| :: GoodRecord(x.records[i]))
      && (forall i, j | 0 <= i < j < |x.records| ::
            x.records[i].layer != x.records[j].layer || x.records[i].expert != x.records[j].expert)
      && (forall i | 0 <= i < |x.projections| ::
            GoodProjection(x.projections[i])
            && exists k :: 0 <= k < |x.records| && Owned(x.projections[i], x.records[k]))
      && (forall i, j | 0 <= i < j < |x.projections| ::
            || x.projections[i].layer != x.projections[j].layer || x.projections[i].expert != x.projections[j].expert
            || x.projections[i].kind != x.projections[j].kind)
  {
    forall i | 0 <= i < |x.projections|
      ensures ProjectionOk(x.records, x.projections[i]) <==>
        GoodProjection(x.projections[i]) && exists k :: 0 <= k < |x.records| && Owned(x.projections[i], x.records[k])
    {
      ProjectionIs(x.projections[i]);
      hide FieldsOk, ShapeOk, GoodProjection;
      assert forall k | 0 <= k < |x.records| ::
        Inside(x.projections[i], x.records[k]) <==> Owned(x.projections[i], x.records[k]);
    }
    assert forall i | 0 <= i < |x.records| :: RecordOk(x.records[i]) <==> GoodRecord(x.records[i]);
    hide ProjectionOk, GoodProjection, Owned, RecordOk, GoodRecord;
    assert forall i, j | 0 <= i < j < |x.records| :: SameKey(x.records[i], x.records[j]) <==>
      x.records[i].layer == x.records[j].layer && x.records[i].expert == x.records[j].expert;
  }

  lemma {:induction false} ProjectionIs(p: Projection)
    ensures FieldsOk(p) && ShapeOk(p) <==> GoodProjection(p)
  {
    if 1 <= p.rank <= 4 {
      FourDimensions(p);
    }
    hide Product;
  }

  lemma {:induction false} FourDimensions(p: Projection)
    requires 1 <= p.rank <= 4
    ensures Product(p.shape[..p.rank]) == Dimension(p, 0) * Dimension(p, 1) * Dimension(p, 2) * Dimension(p, 3)
  {
    var s := p.shape[..p.rank];
    ProductOfNone();
    ProductStep(s, 1);
    assert s[..0] == [] && s[..p.rank] == s;
    if p.rank > 1 { ProductStep(s, 2); }
    if p.rank > 2 { ProductStep(s, 3); }
    if p.rank > 3 { ProductStep(s, 4); }
    hide Product;
  }

  lemma {:induction false} ProductOfNone()
    ensures Product([]) == 1
  {
  }

  lemma {:induction false} ProductStep(s: seq<nat>, n: nat)
    requires 0 < n <= |s|
    ensures Product(s[..n]) == Product(s[..n - 1]) * s[n - 1]
  {
    assert s[..n][..n - 1] == s[..n - 1];
  }
}
