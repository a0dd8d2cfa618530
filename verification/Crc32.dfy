/**
The checksum of the expert store (ExpertStore::crc32): bit by bit, against the
table-driven CRC of section 8 of RFC 1952, and what it detects.
 */
module Crc32 {
  import opened ByteValues
  import opened Bytes

  /** One bit, as the source computes it: a mask in place of a branch. */
  function Shift(c: bv32): bv32 {
    (c >> 1) ^ Mask(c & 1)
  }

  function Mask(bit: bv32): bv32 {
    0xedb88320 & (0 - bit)
  }

  function Shift8(c: bv32): bv32 {
    Shift(Shift(Shift(Shift(Shift(Shift(Shift(Shift(c))))))))
  }

  /** A byte enters the low bits. */
  function Enter(c: bv32, b: byte): bv32 {
    c ^ (b as bv32)
  }

  function Fold(c: bv32, s: Bytes): bv32 {
    if s == [] then c else Shift8(Enter(Fold(c, s[..|s| - 1]), s[|s| - 1]))
  }

  function Inverted(c: bv32): bv32 {
    !c
  }

  function Checksum(s: Bytes): bv32 {
    Inverted(Fold(0xffff_ffff, s))
  }

  function Shifts(c: bv32, n: nat): bv32 {
    if n == 0 then c else Shift(Shifts(c, n - 1))
  }

  lemma {:induction false} EightShifts(c: bv32)
    ensures Shifts(c, 8) == Shift8(c)
  {
    hide Shift;
    assert Shifts(c, 1) == Shift(c);
    assert Shifts(c, 2) == Shift(Shift(c));
    assert Shifts(c, 3) == Shift(Shifts(c, 2));
    assert Shifts(c, 4) == Shift(Shifts(c, 3));
    assert Shifts(c, 5) == Shift(Shifts(c, 4));
    assert Shifts(c, 6) == Shift(Shifts(c, 5));
    assert Shifts(c, 7) == Shift(Shifts(c, 6));
  }

  /** The source's inner loop, over the bits of one byte. */
  method EnterByte(c: bv32, b: byte) returns (crc: bv32)
    ensures crc == Shift8(Enter(c, b))
  {
    hide Shift, Shift8, Enter;
    crc := Enter(c, b);
    ghost var start := crc;
    for bit := 0 to 8
      invariant crc == Shifts(start, bit)
    {
      crc := Shift(crc);
    }
    EightShifts(start);
  }

  /** The source's outer loop. */
  method Compute(s: Bytes) returns (r: bv32)
    ensures r == Checksum(s)
  {
    hide Shift8, Enter;
    var crc: bv32 := 0xffff_ffff;
    for i := 0 to |s|
      invariant crc == Fold(0xffff_ffff, s[..i])
    {
      assert s[..i + 1][..i] == s[..i];
      crc := EnterByte(crc, s[i]);
    }
    assert s[..|s|] == s;
    r := Inverted(crc);
  }

  // ---- the table-driven form of RFC 1952 ----

  /** One step of the loop that makes the table. */
  function TableStep(c: bv32): bv32 {
    if c & 1 == 1 then 0xedb88320 ^ (c >> 1) else c >> 1
  }

  /** The table's entry for one byte: eight steps from the byte itself. */
  function TableEntry(n: bv32): bv32 {
    TableStep(TableStep(TableStep(TableStep(TableStep(TableStep(TableStep(TableStep(n))))))))
  }

  function Low(x: bv32): bv32 {
    x & 0xff
  }

  function High(x: bv32): bv32 {
    x >> 8
  }

  function TableEnter(c: bv32, b: byte): bv32 {
    Xor(TableEntry(Low(Enter(c, b))), High(c))
  }

  function TableUpdate(c: bv32, s: Bytes): bv32 {
    if s == [] then c else TableEnter(TableUpdate(c, s[..|s| - 1]), s[|s| - 1])
  }

  function TableCrc(s: Bytes): bv32 {
    TableUpdate(0xffff_ffff, s) ^ 0xffff_ffff
  }

  lemma {:induction false} LowBit(c: bv32)
    ensures c & 1 == 0 || c & 1 == 1
  {
  }

  /** The mask is nothing or the whole polynomial. */
  lemma {:induction false} MaskOfBit(bit: bv32)
    requires bit == 0 || bit == 1
    ensures Mask(bit) == if bit == 1 then 0xedb88320 else 0
  {
    if bit == 1 {
      assert Mask(1) == 0xedb88320;
    } else {
      assert Mask(0) == 0;
    }
  }

  lemma {:induction false} XorFacts(x: bv32, y: bv32)
    ensures x ^ 0 == x && x ^ y == y ^ x
  {
  }

  lemma {:induction false} StepsAgree(c: bv32)
    ensures Shift(c) == TableStep(c)
  {
    hide Mask;
    LowBit(c);
    MaskOfBit(c & 1);
    XorFacts(c >> 1, 0xedb88320);
  }

  lemma {:induction false} EntriesAgree(c: bv32)
    ensures Shift8(c) == TableEntry(c)
  {
    hide Shift, TableStep;
    var c1 := Shift(c);
    var c2 := Shift(c1);
    var c3 := Shift(c2);
    var c4 := Shift(c3);
    var c5 := Shift(c4);
    var c6 := Shift(c5);
    StepsAgree(c);
    StepsAgree(c1);
    StepsAgree(c2);
    StepsAgree(c3);
    StepsAgree(c4);
    StepsAgree(c5);
    StepsAgree(c6);
    StepsAgree(Shift(c6));
  }

  function Xor(x: bv32, y: bv32): bv32 {
    x ^ y
  }

  function Double(y: bv32): bv32 {
    y << 1
  }

  predicate TopClear(y: bv32) {
    y & 0x8000_0000 == 0
  }

  lemma {:induction false} OneBitMoves(x: bv32, y: bv32)
    requires TopClear(y)
    ensures Shift(Xor(x, Double(y))) == Xor(Shift(x), y)
  {
    hide Shift;
    OneBitMovesRaw(x, y);
  }

  lemma {:induction false} OneBitMovesRaw(x: bv32, y: bv32)
    requires y & 0x8000_0000 == 0
    ensures Shift(x ^ (y << 1)) == Shift(x) ^ y
  {
  }

  lemma {:induction false} Doubles(y: bv32)
    requires y & 0xff00_0000 == 0
    ensures TopClear(y) && TopClear(Double(y)) && TopClear(Double(Double(y)))
    ensures TopClear(Double(Double(Double(y)))) && TopClear(Double(Double(Double(Double(y)))))
    ensures TopClear(Double(Double(Double(Double(Double(y))))))
    ensures TopClear(Double(Double(Double(Double(Double(Double(y)))))))
    ensures TopClear(Double(Double(Double(Double(Double(Double(Double(y))))))))
    ensures Double(Double(Double(Double(Double(Double(Double(Double(y)))))))) == y << 8
  {
  }

  /** High bits just move down: eight shifts never mix them back in. */
  lemma {:induction false} HighBitsMove(x: bv32, y: bv32)
    requires y & 0xff00_0000 == 0
    ensures Shift8(Xor(x, y << 8)) == Xor(Shift8(x), y)
  {
    Doubles(y);
    DoublesMove(x, y);
  }

  lemma {:induction false} DoublesMove(x: bv32, y: bv32)
    requires TopClear(y) && TopClear(Double(y)) && TopClear(Double(Double(y)))
    requires TopClear(Double(Double(Double(y)))) && TopClear(Double(Double(Double(Double(y)))))
    requires TopClear(Double(Double(Double(Double(Double(y))))))
    requires TopClear(Double(Double(Double(Double(Double(Double(y)))))))
    requires TopClear(Double(Double(Double(Double(Double(Double(Double(y))))))))
    ensures Shift8(Xor(x, Double(Double(Double(Double(Double(Double(Double(Double(y))))))))))
         == Xor(Shift8(x), y)
  {
    hide Shift, Xor, Double, TopClear;
    var y1 := Double(y);
    var y2 := Double(y1);
    var y3 := Double(y2);
    var y4 := Double(y3);
    var y5 := Double(y4);
    var y6 := Double(y5);
    var y7 := Double(y6);
    var x1 := Shift(x);
    var x2 := Shift(x1);
    var x3 := Shift(x2);
    var x4 := Shift(x3);
    var x5 := Shift(x4);
    var x6 := Shift(x5);
    var x7 := Shift(x6);
    OneBitMoves(x, y7);
    OneBitMoves(x1, y6);
    OneBitMoves(x2, y5);
    OneBitMoves(x3, y4);
    OneBitMoves(x4, y3);
    OneBitMoves(x5, y2);
    OneBitMoves(x6, y1);
    OneBitMoves(x7, y);
  }

  lemma {:induction false} EntersAgree(c: bv32, b: byte)
    ensures Shift8(Enter(c, b)) == TableEnter(c, b)
  {
    hide Shift8, TableEntry, Enter, Low, High, Xor;
    var x := Enter(c, b);
    EntriesAgree(Low(x));
    SplitLowByte(x);
    HighBitsMove(Low(x), High(x));
    SameHigh(c, b);
  }

  lemma {:induction false} SplitLowByte(x: bv32)
    ensures Xor(Low(x), High(x) << 8) == x
    ensures High(x) & 0xff00_0000 == 0
  {
  }

  lemma {:induction false} SameHigh(c: bv32, b: byte)
    ensures High(Enter(c, b)) == High(c)
  {
  }

  lemma {:induction false} FoldsAgree(c: bv32, s: Bytes)
    ensures Fold(c, s) == TableUpdate(c, s)
  {
    hide Shift8, Enter, TableEnter;
    if s != [] {
      FoldsAgree(c, s[..|s| - 1]);
      EntersAgree(Fold(c, s[..|s| - 1]), s[|s| - 1]);
    }
  }

  /** The checksum is the CRC of RFC 1952 on every input. */
  lemma {:induction false} IsTheRfcCrc(s: Bytes)
    ensures Checksum(s) == TableCrc(s)
  {
    hide Fold, TableUpdate;
    FoldsAgree(0xffff_ffff, s);
  }

  // ---- what it detects ----

  lemma {:induction false} ShiftInjective(x: bv32, y: bv32)
    requires Shift(x) == Shift(y)
    ensures x == y
  {
  }

  lemma {:induction false} Shift8Injective(x: bv32, y: bv32)
    requires Shift8(x) == Shift8(y)
    ensures x == y
  {
    hide Shift;
    var x2, y2 := Shift(Shift(x)), Shift(Shift(y));
    var x4, y4 := Shift(Shift(x2)), Shift(Shift(y2));
    var x6, y6 := Shift(Shift(x4)), Shift(Shift(y4));
    ShiftInjective(Shift(x6), Shift(y6));
    ShiftInjective(x6, y6);
    ShiftInjective(Shift(x4), Shift(y4));
    ShiftInjective(x4, y4);
    ShiftInjective(Shift(x2), Shift(y2));
    ShiftInjective(x2, y2);
    ShiftInjective(Shift(x), Shift(y));
    ShiftInjective(x, y);
  }

  lemma {:induction false} EnterInjective(x: bv32, y: bv32, b: byte)
    requires Enter(x, b) == Enter(y, b)
    ensures x == y
  {
  }

  lemma {:induction false} FoldAppend(c: bv32, s: Bytes, t: Bytes)
    ensures Fold(c, s + t) == Fold(Fold(c, s), t)
  {
    hide Shift8, Enter;
    if t == [] {
      assert s + t == s;
    } else {
      FoldAppend(c, s, t[..|t| - 1]);
      assert (s + t)[..|s + t| - 1] == s + t[..|t| - 1];
    }
  }

  /** Different states stay different over the same bytes. */
  lemma {:induction false} FoldInjective(c: bv32, d: bv32, s: Bytes)
    requires Fold(c, s) == Fold(d, s)
    ensures c == d
  {
    hide Shift8, Enter;
    if s != [] {
      var b, x, y := s[|s| - 1], Fold(c, s[..|s| - 1]), Fold(d, s[..|s| - 1]);
      Shift8Injective(Enter(x, b), Enter(y, b));
      EnterInjective(x, y, b);
      FoldInjective(c, d, s[..|s| - 1]);
    }
  }

  /** Up to four bytes as a little-endian word. */
  function Word(w: Bytes): bv32
    requires |w| <= 4
  {
    if w == [] then 0 else Join(w[0], Word(w[1..]))
  }

  function Join(b: byte, rest: bv32): bv32 {
    (b as bv32) ^ (rest << 8)
  }

  predicate FitsIn(x: bv32, n: nat) {
    && (n == 0 ==> x == 0) && (n == 1 ==> x & 0xffff_ff00 == 0)
    && (n == 2 ==> x & 0xffff_0000 == 0) && (n == 3 ==> x & 0xff00_0000 == 0)
  }

  lemma {:induction false} JoinFits(b: byte, rest: bv32, n: nat)
    requires FitsIn(rest, n)
    ensures n <= 3 ==> FitsIn(Join(b, rest), n + 1) && rest & 0xff00_0000 == 0
  {
    hide Join;
    JoinBits(b, rest);
    if n <= 2 {
      SmallerFits(rest, n);
    }
  }

  lemma {:induction false} JoinBits(b: byte, rest: bv32)
    ensures rest == 0 ==> Join(b, rest) & 0xffff_ff00 == 0
    ensures rest & 0xffff_ff00 == 0 ==> Join(b, rest) & 0xffff_0000 == 0
    ensures rest & 0xffff_0000 == 0 ==> Join(b, rest) & 0xff00_0000 == 0
  {
  }

  lemma {:induction false} SmallerFits(x: bv32, n: nat)
    requires n <= 2 && FitsIn(x, n)
    ensures x & 0xff00_0000 == 0
  {
    Narrower(x);
  }

  lemma {:induction false} Narrower(x: bv32)
    ensures x & 0xffff_ff00 == 0 ==> x & 0xff00_0000 == 0
    ensures x & 0xffff_0000 == 0 ==> x & 0xff00_0000 == 0
  {
  }

  lemma {:induction false} WordFits(w: Bytes)
    requires |w| <= 4
    ensures FitsIn(Word(w), |w|)
  {
    if w != [] {
      WordFits(w[1..]);
      hide FitsIn, Join;
      JoinFits(w[0], Word(w[1..]), |w| - 1);
    }
  }

  lemma {:induction false} JoinInjective(b: byte, x: bv32, d: byte, y: bv32)
    requires x & 0xff00_0000 == 0 && y & 0xff00_0000 == 0 && Join(b, x) == Join(d, y)
    ensures x == y && b == d
  {
    hide Join;
    JoinSplits(b, x);
    JoinSplits(d, y);
  }

  lemma {:induction false} JoinSplits(b: byte, x: bv32)
    requires x & 0xff00_0000 == 0
    ensures Join(b, x) >> 8 == x && (Join(b, x) & 0xff) as bv8 == b
  {
  }

  lemma {:induction false} WordInjective(w: Bytes, v: Bytes)
    requires |w| == |v| <= 4 && Word(w) == Word(v)
    ensures w == v
  {
    if w != [] {
      hide FitsIn, Join;
      var x, y := Word(w[1..]), Word(v[1..]);
      WordFits(w[1..]);
      WordFits(v[1..]);
      JoinFits(w[0], x, |w| - 1);
      JoinFits(v[0], y, |v| - 1);
      JoinInjective(w[0], x, v[0], y);
      WordInjective(w[1..], v[1..]);
      assert w == [w[0]] + w[1..] && v == [v[0]] + v[1..];
    }
  }

  function Times8(c: bv32, n: nat): bv32
    decreases n
  {
    if n == 0 then c else Times8(Shift8(c), n - 1)
  }

  lemma {:induction false} Times8Injective(x: bv32, y: bv32, n: nat)
    requires Times8(x, n) == Times8(y, n)
    ensures x == y
    decreases n
  {
    hide Shift8;
    if n > 0 {
      Times8Injective(Shift8(x), Shift8(y), n - 1);
      Shift8Injective(x, y);
    }
  }

  lemma {:induction false} EnterThenWord(c: bv32, b: byte, rest: bv32)
    requires rest & 0xff00_0000 == 0
    ensures Xor(Shift8(Enter(c, b)), rest) == Shift8(Xor(c, Join(b, rest)))
  {
    hide Shift8;
    HighBitsMove(Enter(c, b), rest);
    assert Xor(Enter(c, b), rest << 8) == Xor(c, Join(b, rest));
  }

  /** Bytes that enter one by one may as well enter as one word. */
  lemma {:induction false} WordEnters(c: bv32, w: Bytes)
    requires |w| <= 4
    ensures Fold(c, w) == Times8(Xor(c, Word(w)), |w|)
    decreases |w|
  {
    if w == [] {
      assert Xor(c, 0) == c;
    } else {
      hide Shift8, Enter, Xor, Join, FitsIn;
      var c' := Shift8(Enter(c, w[0]));
      assert Fold(c, w) == Fold(c', w[1..]) by {
        FoldAppend(c, [w[0]], w[1..]);
        assert w == [w[0]] + w[1..] && [w[0]][..0] == [];
      }
      WordEnters(c', w[1..]);
      WordFits(w[1..]);
      JoinFits(w[0], Word(w[1..]), |w| - 1);
      EnterThenWord(c, w[0], Word(w[1..]));
    }
  }

  lemma {:induction false} XorInjective(c: bv32, x: bv32, y: bv32)
    requires Xor(c, x) == Xor(c, y)
    ensures x == y
  {
    assert c ^ (c ^ x) == x && c ^ (c ^ y) == y;
  }

  lemma {:induction false} InvertedInjective(x: bv32, y: bv32)
    requires Inverted(x) == Inverted(y)
    ensures x == y
  {
    assert !(!x) == x && !(!y) == y;
  }

  /** Any change confined to four consecutive bytes is detected. */
  lemma {:induction false} BurstIsDetected(front: Bytes, w: Bytes, v: Bytes, rest: Bytes)
    requires |w| == |v| <= 4 && w != v
    ensures Checksum(front + w + rest) != Checksum(front + v + rest)
  {
    hide Fold, Word, Times8, Xor, Inverted;
    var c := Fold(0xffff_ffff, front);
    FoldAppend(0xffff_ffff, front, w);
    FoldAppend(0xffff_ffff, front + w, rest);
    FoldAppend(0xffff_ffff, front, v);
    FoldAppend(0xffff_ffff, front + v, rest);
    if Checksum(front + w + rest) == Checksum(front + v + rest) {
      InvertedInjective(Fold(Fold(c, w), rest), Fold(Fold(c, v), rest));
      FoldInjective(Fold(c, w), Fold(c, v), rest);
      WordEnters(c, w);
      WordEnters(c, v);
      Times8Injective(Xor(c, Word(w)), Xor(c, Word(v)), |w|);
      XorInjective(c, Word(w), Word(v));
      WordInjective(w, v);
    }
  }
}
