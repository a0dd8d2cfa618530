/**
The expert store (src/storage/ExpertStore.cpp): blobs laid out on 4096-byte
boundaries in one data file, their index beside it, and checked reads.
 */
module ExpertStore {
  import opened Wrappers
  import opened ByteValues
  import opened Bytes
  import opened IndexFormat
  import opened Products
  import opened IndexRoundTrip
  import opened ExpertIndexClass
  import Crc32

  const ALIGNMENT: nat := 4096

  datatype Blob = Blob(layer: U32, expert: U32, quantization: U32, data: Bytes)

  datatype StoreError =
    | NoExperts | NoMetadata | Exists | EmptyExpert | OffsetOverflow | TooLarge | BadIndex
    | Missing | ShortRead | ChecksumMismatch

  /** The next boundary; the source clears the low twelve bits. */
  function AlignUp(value: nat): (r: nat)
  {
    (value + 4095) / 4096 * 4096
  }

  /** It is the least multiple of the alignment that is no smaller. */
  lemma {:induction false} AlignUpIsLeast(value: nat, other: nat)
    ensures AlignUp(value) % 4096 == 0 && value <= AlignUp(value) < value + 4096
    ensures other % 4096 == 0 && other >= value ==> AlignUp(value) <= other
  {
  }

  function Zeros(n: nat): (r: Bytes)
    ensures |r| == n
  {
    seq(n, _ => 0)
  }

  /** The data file of the first blobs. */
  function Data(blobs: seq<Blob>): Bytes {
    if blobs == [] then []
    else
      var before := Data(blobs[..|blobs| - 1]);
      AlignUpIsLeast(|before|, 0);
      before + Zeros(AlignUp(|before|) - |before|) + blobs[|blobs| - 1].data
  }

  /** Where the i-th blob goes: the boundary after the blobs before it. */
  function Offset(blobs: seq<Blob>, i: nat): nat
    requires i < |blobs|
  {
    AlignUp(|Data(blobs[..i])|)
  }

  function Checksum(s: Bytes): U32 {
    Crc32.Checksum(s) as int
  }

  /** Blobs that a 64-bit store can hold. */
  predicate Storable(blobs: seq<Blob>) {
    forall i | 0 <= i < |blobs| ::
      && blobs[i].data != [] && |blobs[i].data| <= MAX_STREAM
      && |Data(blobs[..i])| <= MAX64 - 4095
      && Offset(blobs, i) + |blobs[i].data| <= MAX64
  }

  function RecordOf(blobs: seq<Blob>, i: nat): ExpertRecord
    requires i < |blobs| && Storable(blobs)
  {
    var b := blobs[i];
    ExpertRecord(b.layer, b.expert, Offset(blobs, i), |b.data|, b.quantization, Checksum(b.data))
  }

  function Records(blobs: seq<Blob>): (r: seq<ExpertRecord>)
    requires Storable(blobs)
    ensures |r| == |blobs|
  {
    seq(|blobs|, i requires 0 <= i < |blobs| => RecordOf(blobs, i))
  }

  // ---- layout ----

  lemma {:induction false} DataGrows(blobs: seq<Blob>, i: nat)
    requires i <= |blobs|
    ensures |Data(blobs[..i])| <= |Data(blobs)| && Data(blobs)[..|Data(blobs[..i])|] == Data(blobs[..i])
    decreases |blobs|
  {
    if i == |blobs| {
      assert blobs[..i] == blobs;
    } else {
      hide AlignUp;
      var front := blobs[..|blobs| - 1];
      AlignUpIsLeast(|Data(front)|, 0);
      DataGrows(front, i);
      assert front[..i] == blobs[..i];
    }
  }

  /** Every blob stands, byte for byte, at its aligned place in the file. */
  lemma {:induction false} BlobInPlace(blobs: seq<Blob>, i: nat)
    requires i < |blobs|
    ensures Offset(blobs, i) % 4096 == 0
    ensures |Data(blobs[..i])| <= Offset(blobs, i)
    ensures Offset(blobs, i) + |blobs[i].data| == |Data(blobs[..i + 1])| <= |Data(blobs)|
    ensures Data(blobs)[Offset(blobs, i)..Offset(blobs, i) + |blobs[i].data|] == blobs[i].data
  {
    AlignUpIsLeast(|Data(blobs[..i])|, 0);
    hide AlignUp;
    DataGrows(blobs, i + 1);
    var upTo := blobs[..i + 1];
    assert upTo[..i] == blobs[..i];
    var whole, part := Data(blobs), Data(upTo);
    var a, n := Offset(blobs, i), |blobs[i].data|;
    assert part[a..a + n] == blobs[i].data;
    assert whole[a..a + n] == whole[..|part|][a..a + n];
  }

  /** The ranges of different blobs do not meet. */
  lemma {:induction false} BlobsApart(blobs: seq<Blob>, i: nat, j: nat)
    requires i < j < |blobs|
    ensures Offset(blobs, i) + |blobs[i].data| <= Offset(blobs, j)
  {
    BlobInPlace(blobs, i);
    BlobInPlace(blobs, j);
    DataGrows(blobs[..j], i + 1);
    assert blobs[..j][..i + 1] == blobs[..i + 1];
  }

  /** Between the blobs there is nothing but zeros, and after the last nothing. */
  lemma {:induction false} GapsAreZero(blobs: seq<Blob>, at: nat)
    requires at < |Data(blobs)|
    ensures Data(blobs)[at] == 0 || exists i :: 0 <= i < |blobs| && Offset(blobs, i) <= at < Offset(blobs, i) + |blobs[i].data|
  {
    hide AlignUp;
    var n := |blobs| - 1;
    var before := Data(blobs[..n]);
    AlignUpIsLeast(|before|, 0);
    if at < |before| {
      GapsAreZero(blobs[..n], at);
      if i :| 0 <= i < n && Offset(blobs[..n], i) <= at < Offset(blobs[..n], i) + |blobs[..n][i].data| {
        assert blobs[..n][..i] == blobs[..i];
        assert Offset(blobs, i) <= at < Offset(blobs, i) + |blobs[i].data|;
      }
    } else if at >= AlignUp(|before|) {
      assert Offset(blobs, n) <= at < Offset(blobs, n) + |blobs[n].data|;
    }
  }

  /** What a record tells of its blob. */
  lemma {:induction false} RecordTells(blobs: seq<Blob>, i: nat)
    requires Storable(blobs) && i < |blobs|
    ensures var r, b := Records(blobs)[i], blobs[i];
      && r.layer == b.layer && r.expert == b.expert && r.quantization == b.quantization
      && r.size == |b.data| && r.offset == Offset(blobs, i) && r.offset % 4096 == 0
      && r.checksum == Crc32.Checksum(b.data) as int
  {
    AlignUpIsLeast(|Data(blobs[..i])|, 0);
    hide Data, AlignUp;
  }

  // ---- create ----

  predicate DistinctBlobs(blobs: seq<Blob>) {
    forall i, j | 0 <= i < j < |blobs| :: !(blobs[i].layer == blobs[j].layer && blobs[i].expert == blobs[j].expert)
  }

  /** The store create owes: the data file and the index file. */
  datatype Files = Files(data: Bytes, index: Bytes)

  /** The loop of create over the blobs, with its moving cursor. */
  method LayOut(blobs: seq<Blob>) returns (r: Result<(Bytes, seq<ExpertRecord>), StoreError>)
    ensures r.Ok? <==> Storable(blobs)
    ensures r.Ok? ==> r.value == (Data(blobs), Records(blobs))
    ensures r.Err? ==> r.error == EmptyExpert || r.error == TooLarge || r.error == OffsetOverflow
  {
    var data: Bytes := [];
    var records: seq<ExpertRecord> := [];
    var cursor := 0;
    assert blobs[..0] == [];
    for i := 0 to |blobs|
      invariant data == Data(blobs[..i]) && cursor == |data| <= MAX64
      invariant Storable(blobs[..i])
      invariant records == Records(blobs[..i])
    {
      hide AlignUp, Checksum;
      AlignUpIsLeast(cursor, 0);
      StorableStep(blobs, i);
      var b := blobs[i];
      if b.data == [] {
        return Err(EmptyExpert);
      }
      if cursor > MAX64 - 4095 {
        return Err(OffsetOverflow);
      }
      var offset := AlignUp(cursor);
      var padding := offset - cursor;
      if |b.data| > MAX_STREAM {
        return Err(TooLarge);
      }
      if offset + |b.data| > MAX64 {
        return Err(OffsetOverflow);
      }
      data := data + Zeros(padding) + b.data;
      records := records + [ExpertRecord(b.layer, b.expert, offset, |b.data|, b.quantization, Checksum(b.data))];
      cursor := offset + |b.data|;
      assert blobs[..i + 1][..i] == blobs[..i];
      assert Data(blobs[..i + 1]) == data;
    }
    assert blobs[..|blobs|] == blobs;
    r := Ok((data, records));
  }

  /** Blob i is neither empty nor beyond 63 bits, the file before it leaves
      room for the padding, and the file with it fits 64 bits. */
  predicate FitsUpTo(blobs: seq<Blob>, i: nat)
    requires i < |blobs|
  {
    && 0 < |blobs[i].data| <= 0x7fff_ffff_ffff_ffff
    && |Data(blobs[..i])| <= 0xffff_ffff_ffff_f000 && |Data(blobs[..i + 1])| <= 0xffff_ffff_ffff_ffff
  }

  /** Blobs are storable when each of them fits. */
  lemma {:induction false} StorableExactly(blobs: seq<Blob>)
    ensures Storable(blobs) <==> forall i | 0 <= i < |blobs| :: FitsUpTo(blobs, i)
  {
    forall i | 0 <= i < |blobs|
      ensures FitsUpTo(blobs, i) <==>
        && 0 < |blobs[i].data| <= MAX_STREAM && |Data(blobs[..i])| <= MAX64 - 4095
        && Offset(blobs, i) + |blobs[i].data| <= MAX64
    {
      assert blobs[..i + 1][..i] == blobs[..i];
      AlignUpIsLeast(|Data(blobs[..i])|, 0);
      hide AlignUp;
    }
    hide Data, Offset, FitsUpTo;
  }

  /** One more blob: what storable means for it, and the records so far. */
  lemma {:induction false} StorableStep(blobs: seq<Blob>, i: nat)
    requires i < |blobs| && Storable(blobs[..i])
    ensures Storable(blobs) ==> Storable(blobs[..i + 1])
    ensures Storable(blobs[..i + 1]) <==>
      && blobs[i].data != [] && |blobs[i].data| <= MAX_STREAM && |Data(blobs[..i])| <= MAX64 - 4095
      && Offset(blobs, i) + |blobs[i].data| <= MAX64
    ensures Storable(blobs[..i + 1]) ==> Records(blobs[..i + 1]) == Records(blobs[..i]) + [
      ExpertRecord(blobs[i].layer, blobs[i].expert, Offset(blobs, i), |blobs[i].data|, blobs[i].quantization,
                   Checksum(blobs[i].data))]
  {
    hide Data, AlignUp, Checksum;
    var upTo := blobs[..i + 1];
    assert forall j | 0 <= j <= i :: upTo[..j] == blobs[..j];
    assert forall j | 0 <= j < i :: blobs[..i][..j] == blobs[..j];
    assert forall j | 0 <= j <= i :: Offset(upTo, j) == Offset(blobs, j);
    assert forall j | 0 <= j < i :: Offset(blobs[..i], j) == Offset(blobs, j);
    assert forall j | 0 <= j < i :: blobs[..i][j] == blobs[j] && upTo[j] == blobs[j];
  }

  /** Quantization codes the index knows. */
  predicate KnownCodes(blobs: seq<Blob>) {
    forall i | 0 <= i < |blobs| :: blobs[i].quantization <= 7
  }

  lemma {:induction false} RecordsAcceptable(blobs: seq<Blob>)
    requires Storable(blobs)
    ensures Acceptable(Index(Records(blobs), [])) <==> KnownCodes(blobs) && DistinctBlobs(blobs)
  {
    hide Data, AlignUp, Checksum, Offset;
    var records := Records(blobs);
    assert forall i | 0 <= i < |blobs| :: records[i] == RecordOf(blobs, i);
    assert forall i | 0 <= i < |blobs| :: RecordOk(records[i]) <==> blobs[i].quantization <= 7;
  }

  /** Create: refused for no experts, empty metadata, an existing store, an
      empty or oversized blob, an unknown code, or two blobs for one expert;
      otherwise the data file is the layout and the index file describes it. */
  method Create(existing: bool, blobs: seq<Blob>, metadata: Bytes) returns (r: Result<Files, StoreError>)
    ensures r.Ok? <==>
      && blobs != [] && metadata != [] && !existing && Storable(blobs) && KnownCodes(blobs) && DistinctBlobs(blobs)
    ensures r.Ok? ==> r.value == Files(Data(blobs), Image(Index(Records(blobs), [])))
    ensures r == Err(NoExperts) <==> blobs == []
    ensures r == Err(NoMetadata) <==> blobs != [] && metadata == []
    ensures r == Err(Exists) <==> blobs != [] && metadata != [] && existing
    ensures r == Err(BadIndex) <==>
      && blobs != [] && metadata != [] && !existing && Storable(blobs) && !(KnownCodes(blobs) && DistinctBlobs(blobs))
  {
    if blobs == [] {
      return Err(NoExperts);
    }
    if metadata == [] {
      return Err(NoMetadata);
    }
    if existing {
      return Err(Exists);
    }
    var laidOut := LayOut(blobs);
    if laidOut.Err? {
      return Err(laidOut.error);
    }
    RecordsAcceptable(blobs);
    var index := new ExpertIndex(laidOut.value.1, []);
    var ok := index.RebuildLookup();
    if !ok {
      return Err(BadIndex);
    }
    var image := Save(Index(laidOut.value.1, []));
    r := Ok(Files(laidOut.value.0, image));
  }

  // ---- read ----

  /** Opening a store: every record must lie inside the data file. */
  predicate Covered(records: seq<ExpertRecord>, data: Bytes) {
    forall i | 0 <= i < |records| :: records[i].offset + records[i].size <= |data|
  }

  /** What a checked read owes. */
  function Read(records: seq<ExpertRecord>, data: Bytes, layer: U32, expert: U32, validate: bool)
    : Result<Bytes, StoreError>
  {
    match LinearFind(records, layer, expert)
    case None => Err(Missing)
    case Some(r) =>
      if r.offset > MAX_STREAM || r.size > MAX_STREAM then Err(TooLarge)
      else if r.offset + r.size > |data| then Err(ShortRead)
      else
        var bytes := data[r.offset..r.offset + r.size];
        if validate && Checksum(bytes) != r.checksum then Err(ChecksumMismatch) else Ok(bytes)
  }

  /** Reading an expert that has one record: what is refused, in which order,
      and otherwise the bytes of its range. */
  lemma {:induction false} ReadExactly(records: seq<ExpertRecord>, data: Bytes, layer: U32, expert: U32, validate: bool,
                                       i: nat)
    requires i < |records| && records[i].layer == layer && records[i].expert == expert
    requires forall j | 0 <= j < |records| && j != i :: records[j].layer != layer || records[j].expert != expert
    ensures var r, read := records[i], Read(records, data, layer, expert, validate);
      if r.offset > 0x7fff_ffff_ffff_ffff || r.size > 0x7fff_ffff_ffff_ffff then read == Err(TooLarge)
      else if r.offset + r.size > |data| then read == Err(ShortRead)
      else
        var bytes := data[r.offset..r.offset + r.size];
        if validate && Crc32.Checksum(bytes) as int != r.checksum then read == Err(ChecksumMismatch)
        else read == Ok(bytes)
  {
    assert LinearFind(records, layer, expert) == Some(records[i]);
    hide LinearFind;
  }

  lemma {:induction false} MissingExactly(records: seq<ExpertRecord>, data: Bytes, layer: U32, expert: U32,
                                          validate: bool)
    ensures Read(records, data, layer, expert, validate) == Err(Missing) <==>
      forall j | 0 <= j < |records| :: records[j].layer != layer || records[j].expert != expert
  {
    hide LinearFind;
  }

  method ReadExpert(index: ExpertIndex, data: Bytes, layer: U32, expert: U32, validate: bool)
    returns (r: Result<Bytes, StoreError>)
    requires index.Valid()
    ensures r == Read(index.records, data, layer, expert, validate)
  {
    var found := index.Find(layer, expert);
    if found == None {
      return Err(Missing);
    }
    var record := found.value;
    if record.offset > MAX_STREAM || record.size > MAX_STREAM {
      return Err(TooLarge);
    }
    if record.offset + record.size > |data| {
      return Err(ShortRead);
    }
    var bytes := data[record.offset..record.offset + record.size];
    if validate {
      var crc := Crc32.Compute(bytes);
      if crc as int != record.checksum {
        return Err(ChecksumMismatch);
      }
    }
    r := Ok(bytes);
  }

  lemma {:induction false} RecordFound(blobs: seq<Blob>, i: nat)
    requires Storable(blobs) && DistinctBlobs(blobs) && i < |blobs|
    ensures LinearFind(Records(blobs), blobs[i].layer, blobs[i].expert) == Some(RecordOf(blobs, i))
  {
    hide Data, AlignUp, Checksum, Offset;
    var found := LinearFind(Records(blobs), blobs[i].layer, blobs[i].expert);
    assert Records(blobs)[i].layer == blobs[i].layer && Records(blobs)[i].expert == blobs[i].expert;
    var j :| 0 <= j < |blobs| && Records(blobs)[j] == found.value;
    assert Records(blobs)[j].layer == blobs[j].layer && Records(blobs)[j].expert == blobs[j].expert;
  }

  lemma {:induction false} IndexLoadsBack(blobs: seq<Blob>)
    requires Storable(blobs) && KnownCodes(blobs) && DistinctBlobs(blobs) && |blobs| <= MAX_STREAM / 32
    ensures Loaded(Image(Index(Records(blobs), []))) == Some(Index(Records(blobs), []))
  {
    hide Image, Loaded, Acceptable, Storable, RecordOf;
    RecordsAcceptable(blobs);
    LoadUndoesSave(Index(Records(blobs), []));
  }

  lemma {:induction false} RecordsCovered(blobs: seq<Blob>)
    requires Storable(blobs)
    ensures Covered(Records(blobs), Data(blobs))
  {
    hide Data, AlignUp, Checksum, Offset;
    forall i | 0 <= i < |blobs|
      ensures Records(blobs)[i].offset + Records(blobs)[i].size <= |Data(blobs)|
    {
      BlobInPlace(blobs, i);
    }
  }

  /** A store written by create gives every blob back byte for byte, its
      checksum test passing: the saved index loads, its records lie inside the
      data file, and each read returns the blob. The stream limits of the
      reader are the only condition. */
  lemma {:induction false} StoreReadsBack(blobs: seq<Blob>, i: nat)
    requires Storable(blobs) && KnownCodes(blobs) && DistinctBlobs(blobs) && i < |blobs|
    requires |blobs| <= MAX_STREAM / 32
    ensures Loaded(Image(Index(Records(blobs), []))) == Some(Index(Records(blobs), []))
    ensures Covered(Records(blobs), Data(blobs))
    ensures Read(Records(blobs), Data(blobs), blobs[i].layer, blobs[i].expert, true) ==
      if Offset(blobs, i) <= MAX_STREAM then Ok(blobs[i].data) else Err(TooLarge)
  {
    hide Data, AlignUp, Checksum, Offset, Image, Loaded, Covered, LinearFind, Records;
    IndexLoadsBack(blobs);
    RecordsCovered(blobs);
    RecordFound(blobs, i);
    BlobInPlace(blobs, i);
  }

  lemma {:induction false} ChecksumsDiffer(front: Bytes, w: Bytes, v: Bytes, rest: Bytes)
    requires |w| == |v| <= 4 && w != v
    ensures Checksum(front + w + rest) != Checksum(front + v + rest)
  {
    Crc32.BurstIsDetected(front, w, v, rest);
    hide Crc32.Checksum;
    NumbersDiffer(Crc32.Checksum(front + w + rest), Crc32.Checksum(front + v + rest));
  }

  lemma {:induction false} NumbersDiffer(x: bv32, y: bv32)
    requires x != y
    ensures x as int != y as int
  {
    assert (x as int) as bv32 == x && (y as int) as bv32 == y;
  }

  /** Damage to up to four neighbouring bytes of a stored blob is always
      found: the checked read of that expert fails, and of no other. */
  lemma {:induction false} DamageIsFound(blobs: seq<Blob>, i: nat, from: nat, damaged: Bytes, j: nat)
    requires Storable(blobs) && DistinctBlobs(blobs) && i < |blobs| && j < |blobs|
    requires |damaged| <= 4 && from + |damaged| <= |blobs[i].data|
    requires damaged != blobs[i].data[from..from + |damaged|]
    requires Offset(blobs, i) <= MAX_STREAM && Offset(blobs, j) <= MAX_STREAM
    ensures var at := Offset(blobs, i) + from;
      && at + |damaged| <= |Data(blobs)|
      && var data := Data(blobs)[..at] + damaged + Data(blobs)[at + |damaged|..];
      Read(Records(blobs), data, blobs[j].layer, blobs[j].expert, true) ==
        if j == i then Err(ChecksumMismatch) else Ok(blobs[j].data)
  {
    hide Data, AlignUp, Checksum, Offset, LinearFind, Records;
    BlobInPlace(blobs, i);
    BlobInPlace(blobs, j);
    RecordFound(blobs, j);
    var whole, a, b, n := Data(blobs), Offset(blobs, i), Offset(blobs, j), |blobs[j].data|;
    if j == i {
      DamagedSlice(whole, a, n, from, damaged);
      DamagedBlob(blobs[i].data, from, damaged);
    } else {
      if i < j {
        BlobsApart(blobs, i, j);
      } else {
        BlobsApart(blobs, j, i);
      }
      UntouchedSlice(whole, a + from, damaged, b, n);
    }
  }

  lemma {:induction false} DamagedBlob(d: Bytes, from: nat, damaged: Bytes)
    requires |damaged| <= 4 && from + |damaged| <= |d| && damaged != d[from..from + |damaged|]
    ensures Checksum(d[..from] + damaged + d[from + |damaged|..]) != Checksum(d)
  {
    hide Checksum;
    ChecksumsDiffer(d[..from], d[from..from + |damaged|], damaged, d[from + |damaged|..]);
    assert d == d[..from] + d[from..from + |damaged|] + d[from + |damaged|..];
  }

  lemma {:induction false} UntouchedSlice(whole: Bytes, at: nat, damaged: Bytes, b: nat, n: nat)
    requires at + |damaged| <= |whole| && b + n <= |whole| && (b + n <= at || at + |damaged| <= b)
    ensures (whole[..at] + damaged + whole[at + |damaged|..])[b..b + n] == whole[b..b + n]
  {
  }

  lemma {:induction false} DamagedSlice(whole: Bytes, a: nat, n: nat, from: nat, damaged: Bytes)
    requires a + n <= |whole| && from + |damaged| <= n
    ensures var at := a + from;
      var data := whole[..at] + damaged + whole[at + |damaged|..];
      var d := whole[a..a + n];
      data[a..a + n] == d[..from] + damaged + d[from + |damaged|..]
  {
  }
}
