/** A number of one byte survives the way into bits and back. */
module ByteNumbers {

  lemma {:induction false} Next(b: bv8)
    requires b != 255
    ensures (b + 1) as int == b as int + 1
  {
  }

  lemma {:induction false} Back(b: bv8)
    ensures (b as int) as bv8 == b
  {
  }

  lemma {:induction false} BitsOf(value: int) returns (b: bv8)
    requires 0 <= value < 256
    ensures b as int == value
  {
    if value == 0 {
      b := 0;
    } else {
      var less := BitsOf(value - 1);
      Below255(less);
      Next(less);
      b := less + 1;
    }
  }

  lemma {:induction false} Below255(b: bv8)
    requires b as int < 255
    ensures b != 255
  {
  }

  lemma {:induction false} RoundTrip(value: int)
    requires 0 <= value < 256
    ensures (value as bv8) as int == value
  {
    var b := BitsOf(value);
    Back(b);
  }
}

/** A byte and the number it stands for. */
module ByteValues {
  import opened ByteNumbers

  type byte = bv8

  function ToByte(value: nat): byte
    requires value < 256
  {
    value as byte
  }

  function FromByte(b: byte): (r: nat)
    ensures r < 256
  {
    b as nat
  }

  lemma {:induction false} ByteOf(value: nat)
    requires value < 256
    ensures FromByte(ToByte(value)) == value
  {
    RoundTrip(value);
  }

  lemma {:induction false} ByteFrom(b: byte)
    ensures ToByte(FromByte(b)) == b
  {
  }
}

/** Bytes, and unsigned numbers written as bytes, least significant first. */
module Bytes {
  import opened ByteValues

  type Bytes = seq<byte>

  /** How many values fit in n bytes. */
  function Limit(n: nat): (r: nat)
    ensures r > 0
  {
    if n == 0 then 1 else 256 * Limit(n - 1)
  }

  lemma {:induction false} Limits()
    ensures Limit(4) == 0x1_0000_0000 && Limit(8) == 0x1_0000_0000_0000_0000
  {
    assert Limit(1) == 256 && Limit(2) == 0x1_0000 && Limit(3) == 0x100_0000;
    assert Limit(5) == 0x100_0000_0000 && Limit(6) == 0x1_0000_0000_0000 && Limit(7) == 0x100_0000_0000_0000;
  }

  function Encode(value: nat, width: nat): (r: Bytes)
    ensures |r| == width
  {
    if width == 0 then [] else [ToByte(value % 256)] + Encode(value / 256, width - 1)
  }

  function Decode(s: Bytes): (r: nat)
    ensures r < Limit(|s|)
  {
    if s == [] then 0 else FromByte(s[0]) + 256 * Decode(s[1..])
  }

  lemma {:induction false} DecodeEncode(value: nat, width: nat)
    requires value < Limit(width)
    ensures Decode(Encode(value, width)) == value
  {
    hide ToByte, FromByte;
    if width > 0 {
      ByteOf(value % 256);
      DecodeEncode(value / 256, width - 1);
      assert Encode(value, width)[1..] == Encode(value / 256, width - 1);
    }
  }

  lemma {:induction false} EncodeDecode(s: Bytes)
    ensures Encode(Decode(s), |s|) == s
  {
    hide ToByte, FromByte;
    if s != [] {
      ByteFrom(s[0]);
      assert Decode(s) % 256 == FromByte(s[0]) && Decode(s) / 256 == Decode(s[1..]);
      EncodeDecode(s[1..]);
      assert s == [s[0]] + s[1..];
    }
  }

  // ---- records of fixed-width fields ----

  function Width(widths: seq<nat>): nat {
    if widths == [] then 0 else widths[0] + Width(widths[1..])
  }

  predicate FitFields(widths: seq<nat>, values: seq<nat>) {
    |values| == |widths| && forall i | 0 <= i < |widths| :: values[i] < Limit(widths[i])
  }

  function EncodeFields(widths: seq<nat>, values: seq<nat>): (r: Bytes)
    requires |values| == |widths|
    ensures |r| == Width(widths)
  {
    if widths == [] then [] else Encode(values[0], widths[0]) + EncodeFields(widths[1..], values[1..])
  }

  function DecodeFields(widths: seq<nat>, s: Bytes): (r: seq<nat>)
    requires |s| == Width(widths)
    ensures FitFields(widths, r)
  {
    if widths == [] then []
    else
      var r := [Decode(s[..widths[0]])] + DecodeFields(widths[1..], s[widths[0]..]);
      assert forall i | 1 <= i < |widths| :: widths[i] == widths[1..][i - 1] && r[i] == r[1..][i - 1];
      r
  }

  lemma {:induction false} DecodeEncodeFields(widths: seq<nat>, values: seq<nat>)
    requires FitFields(widths, values)
    ensures DecodeFields(widths, EncodeFields(widths, values)) == values
  {
    if widths != [] {
      var s := EncodeFields(widths, values);
      DecodeEncode(values[0], widths[0]);
      DecodeEncodeFields(widths[1..], values[1..]);
      assert s[..widths[0]] == Encode(values[0], widths[0]);
      assert s[widths[0]..] == EncodeFields(widths[1..], values[1..]);
      assert values == [values[0]] + values[1..];
    }
  }

  lemma {:induction false} EncodeDecodeFields(widths: seq<nat>, s: Bytes)
    requires |s| == Width(widths)
    ensures EncodeFields(widths, DecodeFields(widths, s)) == s
  {
    if widths != [] {
      EncodeDecode(s[..widths[0]]);
      EncodeDecodeFields(widths[1..], s[widths[0]..]);
      assert s == s[..widths[0]] + s[widths[0]..];
    }
  }

  // ---- tables of records ----

  function EncodeRows(widths: seq<nat>, rows: seq<seq<nat>>): (r: Bytes)
    requires forall i | 0 <= i < |rows| :: |rows[i]| == |widths|
    ensures |r| == |rows| * Width(widths)
  {
    if rows == [] then [] else EncodeRows(widths, rows[..|rows| - 1]) + EncodeFields(widths, rows[|rows| - 1])
  }

  function DecodeRows(widths: seq<nat>, count: nat, s: Bytes): (r: seq<seq<nat>>)
    requires |s| == count * Width(widths)
    ensures |r| == count && forall i | 0 <= i < count :: FitFields(widths, r[i])
  {
    if count == 0 then []
    else
      var n := (count - 1) * Width(widths);
      assert n + Width(widths) == |s|;
      DecodeRows(widths, count - 1, s[..n]) + [DecodeFields(widths, s[n..])]
  }

  lemma {:induction false} DecodeEncodeRows(widths: seq<nat>, rows: seq<seq<nat>>)
    requires forall i | 0 <= i < |rows| :: |rows[i]| == |widths| && FitFields(widths, rows[i])
    ensures DecodeRows(widths, |rows|, EncodeRows(widths, rows)) == rows
  {
    hide Width, EncodeFields, DecodeFields;
    if rows != [] {
      var front, last := rows[..|rows| - 1], rows[|rows| - 1];
      var n := |front| * Width(widths);
      var s := EncodeRows(widths, rows);
      DecodeEncodeRows(widths, front);
      DecodeEncodeFields(widths, last);
      assert s[..n] == EncodeRows(widths, front) && s[n..] == EncodeFields(widths, last);
    }
  }

  lemma {:induction false} DecodeRowsStep(widths: seq<nat>, count: nat, s: Bytes, n: nat)
    requires |s| == count * Width(widths) && count > 0 && n == (count - 1) * Width(widths)
    ensures n + Width(widths) == |s|
    ensures DecodeRows(widths, count, s) == DecodeRows(widths, count - 1, s[..n]) + [DecodeFields(widths, s[n..])]
  {
    hide Width, DecodeFields;
    assert n + Width(widths) == |s|;
  }

  lemma {:induction false} EncodeDecodeRows(widths: seq<nat>, count: nat, s: Bytes)
    requires |s| == count * Width(widths)
    ensures EncodeRows(widths, DecodeRows(widths, count, s)) == s
  {
    hide Width, EncodeFields, DecodeFields, DecodeRows;
    if count > 0 {
      var n := (count - 1) * Width(widths);
      DecodeRowsStep(widths, count, s, n);
      EncodeDecodeRows(widths, count - 1, s[..n]);
      EncodeDecodeFields(widths, s[n..]);
      var rows := DecodeRows(widths, count, s);
      assert rows[..count - 1] == DecodeRows(widths, count - 1, s[..n]);
      assert s == s[..n] + s[n..];
    }
  }
}
