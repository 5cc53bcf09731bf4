// CRC-32 as the browser computes it from a table, its bit-by-bit definition,
// and the corruption it always detects.

module Crc {
  import opened Field

  type Word = bv32

  // ---------------------------------------------------------------------
  // Operations on 32-bit registers
  // ---------------------------------------------------------------------

  predicate Odd(c: Word) { c & 1 != 0 }

  predicate High(c: Word) { c & 0x8000_0000 != 0 }

  function HalfWord(c: Word): Word { c >> 1 }

  function Double(c: Word): Word { c << 1 }

  function Mix(c: Word, d: Word): Word { c ^ d }

  function Flip(c: Word): Word { Mix(0xedb88320, c) }

  function LowWord(c: Word): Word { c & 0xff }

  function DropByte(c: Word): Word { c >> 8 }

  function RaiseByte(c: Word): Word { c << 8 }

  function Widen(b: Byte): Word { b as Word }

  function WordAt(i: int): Word
    requires 0 <= i < 256
  {
    i as Word
  }

  function LowByte(c: Word): (i: int)
    ensures 0 <= i < 256
  {
    LowWord(c) as int
  }

  predicate InOne(c: Word) { c & 0xffff_ff00 == 0 }

  predicate InTwo(c: Word) { c & 0xffff_0000 == 0 }

  predicate InThree(c: Word) { c & 0xff00_0000 == 0 }

  // c occupies no more than the n low bytes
  predicate Fits(c: Word, n: nat) {
    if n == 0 then c == 0
    else if n == 1 then InOne(c)
    else if n == 2 then InTwo(c)
    else if n == 3 then InThree(c)
    else true
  }

  // ---------------------------------------------------------------------
  // The source's computation
  // ---------------------------------------------------------------------

  // One round of the inner loop that fills the table.
  function Shift(c: Word): Word {
    if Odd(c) then Flip(HalfWord(c)) else HalfWord(c)
  }

  function Shifts(c: Word, n: nat): Word
    decreases n
  {
    if n == 0 then c else Shifts(Shift(c), n - 1)
  }

  function Entry(i: int): Word
    requires 0 <= i < 256
  {
    Shifts(WordAt(i), 8)
  }

  function CrcTable(): (t: seq<Word>)
    ensures |t| == 256
  {
    seq(256, i requires 0 <= i < 256 => Entry(i))
  }

  function Update(c: Word, b: Byte): Word {
    Mix(CrcTable()[LowByte(Mix(c, Widen(b)))], DropByte(c))
  }

  function Run(c: Word, data: seq<Byte>): Word
    decreases |data|
  {
    if data == [] then c else Run(Update(c, data[0]), data[1..])
  }

  function Crc32(data: seq<Byte>): Word {
    Mix(Run(0xffff_ffff, data), 0xffff_ffff)
  }

  method InitCrc() returns (table: array<Word>)
    ensures table[..] == CrcTable()
  {
    hide Shift, WordAt;
    table := new Word[256](_ => 0);
    for i := 0 to 256
      invariant forall k :: 0 <= k < i ==> table[k] == Entry(k)
    {
      var c := WordAt(i);
      for j := 0 to 8
        invariant Shifts(c, 8 - j) == Entry(i)
      {
        c := Shift(c);
      }
      table[i] := c;
    }
  }

  method ComputeCrc32(table: array<Word>, data: seq<Byte>) returns (r: Word)
    requires table[..] == CrcTable()
    ensures r == Crc32(data)
  {
    hide CrcTable, Mix, Widen, LowByte, DropByte;
    var c: Word := 0xffff_ffff;
    for i := 0 to |data|
      invariant Run(c, data[i..]) == Run(0xffff_ffff, data)
    {
      assert data[i..][0] == data[i] && data[i..][1..] == data[i + 1..];
      c := Mix(table[..][LowByte(Mix(c, Widen(data[i])))], DropByte(c));
    }
    r := Mix(c, 0xffff_ffff);
  }

  // ---------------------------------------------------------------------
  // Reference: each byte enters at the low end of the register, which is then
  // shifted by eight bits (section 8 of RFC 1952).
  // ---------------------------------------------------------------------

  function BitUpdate(c: Word, b: Byte): Word {
    Shifts(Mix(c, Widen(b)), 8)
  }

  function BitRun(c: Word, data: seq<Byte>): Word
    decreases |data|
  {
    if data == [] then c else BitRun(BitUpdate(c, data[0]), data[1..])
  }

  lemma MixLaws(c: Word, d: Word, e: Word)
    ensures Mix(c, 0) == c && Mix(c, d) == Mix(d, c)
    ensures Mix(Mix(c, d), e) == Mix(c, Mix(d, e))
  {
    assert (c ^ d) ^ e == c ^ (d ^ e);
  }

  lemma MixCancels(c: Word, d: Word, e: Word)
    ensures Mix(c, e) == Mix(d, e) ==> c == d
    ensures Mix(e, c) == Mix(e, d) ==> c == d
  {
    assert (c ^ e) ^ e == c && (d ^ e) ^ e == d && (e ^ c) ^ e == c && (e ^ d) ^ e == d;
  }

  // The high bit of a shifted register tells which branch was taken.
  lemma ShiftInjective(c: Word, d: Word)
    requires Shift(c) == Shift(d)
    ensures c == d
  {
    BranchMarked(c); BranchMarked(d);
    hide *;
    MixCancels(HalfWord(c), HalfWord(d), 0xedb88320);
    HalfInjective(c, d);
  }

  lemma BranchMarked(c: Word)
    ensures Shift(c) == if Odd(c) then Mix(0xedb88320, HalfWord(c)) else HalfWord(c)
    ensures High(Shift(c)) == Odd(c)
  {
    assert (c >> 1) & 0x8000_0000 == 0;
    assert (0xedb88320 ^ (c >> 1)) & 0x8000_0000 != 0;
  }

  lemma HalfInjective(c: Word, d: Word)
    requires HalfWord(c) == HalfWord(d) && Odd(c) == Odd(d)
    ensures c == d
  {
    assert c == ((c >> 1) << 1) | (c & 1) && d == ((d >> 1) << 1) | (d & 1);
    LowBitOf(c); LowBitOf(d);
  }

  lemma LowBitOf(c: Word)
    ensures c & 1 == 0 || c & 1 == 1
  {}

  lemma {:induction false} ShiftsInjective(c: Word, d: Word, n: nat)
    requires Shifts(c, n) == Shifts(d, n)
    ensures c == d
    decreases n
  {
    hide Shift;
    if n != 0 {
      ShiftsInjective(Shift(c), Shift(d), n - 1);
      ShiftInjective(c, d);
    }
  }

  lemma {:induction false} ShiftsAdd(c: Word, m: nat, n: nat)
    ensures Shifts(c, m + n) == Shifts(Shifts(c, m), n)
    ensures Shifts(c, 0) == c
    decreases m
  {
    hide Shift;
    if m != 0 { ShiftsAdd(Shift(c), m - 1, n); }
  }

  // Bits above the lowest pass through a shift unchanged.
  lemma ShiftPasses(x: Word, y: Word)
    requires !High(y)
    ensures Shift(Mix(x, Double(y))) == Mix(Shift(x), y)
  {
    BranchMarked(x); BranchMarked(Mix(x, Double(y)));
    DoubleMeets(x, y);
    hide *;
    MixLaws(0xedb88320, HalfWord(x), y);
  }

  lemma DoubleMeets(x: Word, y: Word)
    requires !High(y)
    ensures Odd(Mix(x, Double(y))) == Odd(x)
    ensures HalfWord(Mix(x, Double(y))) == Mix(HalfWord(x), y)
  {
    assert (x ^ (y << 1)) & 1 == x & 1;
    assert (x ^ (y << 1)) >> 1 == (x >> 1) ^ y by { HighClear(x, y); }
  }

  lemma HighClear(x: Word, y: Word)
    requires y & 0x8000_0000 == 0
    ensures (x ^ (y << 1)) >> 1 == (x >> 1) ^ y
  {}

  function Doubles(y: Word, n: nat): Word {
    if n == 0 then y else Double(Doubles(y, n - 1))
  }

  // y can be doubled n times without losing a bit
  predicate Room(y: Word, n: nat) {
    n == 0 || (Room(y, n - 1) && !High(Doubles(y, n - 1)))
  }

  lemma {:induction false} ShiftsPass(x: Word, y: Word, n: nat)
    requires Room(y, n)
    ensures Shifts(Mix(x, Doubles(y, n)), n) == Mix(Shifts(x, n), y)
    decreases n
  {
    hide Mix, Shift, Double, High;
    if n != 0 {
      ShiftPasses(x, Doubles(y, n - 1));
      ShiftsPass(Shift(x), y, n - 1);
    }
  }

  lemma DoubledEight(y: Word)
    ensures Double(Double(Double(Double(Double(Double(Double(Double(y)))))))) == RaiseByte(y)
  {}

  lemma RoomForEight(y: Word)
    requires InThree(y)
    ensures !High(y)
    ensures !High(Double(y))
    ensures !High(Double(Double(y)))
    ensures !High(Double(Double(Double(y))))
    ensures !High(Double(Double(Double(Double(y)))))
    ensures !High(Double(Double(Double(Double(Double(y))))))
    ensures !High(Double(Double(Double(Double(Double(Double(y)))))))
    ensures !High(Double(Double(Double(Double(Double(Double(Double(y))))))))
  {}

  lemma Unrolled(y: Word)
    ensures Doubles(y, 1) == Double(y) && Doubles(y, 2) == Double(Double(y))
    ensures Doubles(y, 3) == Double(Double(Double(y)))
    ensures Doubles(y, 4) == Double(Double(Double(Double(y))))
    ensures Doubles(y, 5) == Double(Double(Double(Double(Double(y)))))
    ensures Doubles(y, 6) == Double(Double(Double(Double(Double(Double(y))))))
    ensures Doubles(y, 7) == Double(Double(Double(Double(Double(Double(Double(y)))))))
    ensures Doubles(y, 8) == Double(Double(Double(Double(Double(Double(Double(Double(y))))))))
  {
    hide Double;
  }

  lemma ByteRoom(y: Word)
    requires InThree(y)
    ensures Room(y, 8)
    ensures Doubles(y, 8) == RaiseByte(y)
  {
    hide *;
    Unrolled(y); DoubledEight(y); RoomForEight(y);
    RoomStep(y, 0); RoomStep(y, 1); RoomStep(y, 2); RoomStep(y, 3);
    RoomStep(y, 4); RoomStep(y, 5); RoomStep(y, 6); RoomStep(y, 7);
  }

  lemma RoomStep(y: Word, n: nat)
    ensures Room(y, 0) && Doubles(y, 0) == y
    ensures Room(y, n) && !High(Doubles(y, n)) ==> Room(y, n + 1)
  {
    hide High, Double;
  }

  lemma ByteSplit(x: Word)
    ensures x == Mix(LowWord(x), RaiseByte(DropByte(x)))
    ensures InThree(DropByte(x))
  {}

  lemma LowByteRoundTrip(x: Word)
    ensures WordAt(LowByte(x)) == LowWord(x)
  {
    var w := LowWord(x);
    assert LowByte(x) == w as int;
    hide LowByte, LowWord;
    assert (w as int) as Word == w;
  }

  lemma WidenStaysLow(c: Word, b: Byte)
    ensures DropByte(Mix(c, Widen(b))) == DropByte(c)
  {}

  // The table is a shortcut for eight shifts.
  lemma UpdateIsBits(c: Word, b: Byte)
    ensures Update(c, b) == BitUpdate(c, b)
  {
    hide Mix, Shifts, LowByte, LowWord, DropByte, RaiseByte, Widen, WordAt, Doubles, Room, InThree;
    var x := Mix(c, Widen(b));
    ByteSplit(x); LowByteRoundTrip(x);
    ByteRoom(DropByte(x));
    ShiftsPass(LowWord(x), DropByte(x), 8);
    WidenStaysLow(c, b);
  }

  lemma {:induction false} RunIsBits(c: Word, data: seq<Byte>)
    ensures Run(c, data) == BitRun(c, data)
    decreases |data|
  {
    hide Update, BitUpdate;
    if data != [] {
      UpdateIsBits(c, data[0]);
      RunIsBits(Update(c, data[0]), data[1..]);
    }
  }

  // The table-driven CRC of any string is the bit-by-bit one.
  lemma TableIsExact(data: seq<Byte>)
    ensures Crc32(data) == Mix(BitRun(0xffff_ffff, data), 0xffff_ffff)
  {
    hide Run, BitRun, Mix;
    RunIsBits(0xffff_ffff, data);
  }

  // ---------------------------------------------------------------------
  // Detection of short bursts
  // ---------------------------------------------------------------------

  lemma {:induction false} BitRunInjective(c: Word, d: Word, data: seq<Byte>)
    requires BitRun(c, data) == BitRun(d, data)
    ensures c == d
    decreases |data|
  {
    hide Mix, Shifts, Widen;
    if data != [] {
      var w := Widen(data[0]);
      BitRunInjective(BitUpdate(c, data[0]), BitUpdate(d, data[0]), data[1..]);
      ShiftsInjective(Mix(c, w), Mix(d, w), 8);
      MixCancels(c, d, w);
    }
  }

  lemma {:induction false} BitRunAppends(c: Word, a: seq<Byte>, b: seq<Byte>)
    ensures BitRun(c, a + b) == BitRun(BitRun(c, a), b)
    decreases |a|
  {
    hide BitUpdate;
    if a == [] {
      assert a + b == b;
    } else {
      assert (a + b)[1..] == a[1..] + b;
      BitRunAppends(BitUpdate(c, a[0]), a[1..], b);
    }
  }

  // A window of bytes, as it lies in the register.
  function Pack(w: seq<Byte>): Word
    decreases |w|
  {
    if w == [] then 0 else Mix(Widen(w[0]), RaiseByte(Pack(w[1..])))
  }

  lemma PackOne(b: Byte)
    ensures InOne(Mix(Widen(b), RaiseByte(0)))
  {}

  lemma PackTwo(b: Byte, p: Word)
    requires InOne(p)
    ensures InTwo(Mix(Widen(b), RaiseByte(p)))
  {}

  lemma PackThree(b: Byte, p: Word)
    requires InTwo(p)
    ensures InThree(Mix(Widen(b), RaiseByte(p)))
  {}

  lemma PackStep(b: Byte, p: Word, n: nat)
    requires n <= 3 && Fits(p, n)
    ensures Fits(Mix(Widen(b), RaiseByte(p)), n + 1)
  {
    hide Mix, Widen, RaiseByte, InOne, InTwo, InThree;
    if n == 0 {
      PackOne(b);
    } else if n == 1 {
      PackTwo(b, p);
    } else if n == 2 {
      PackThree(b, p);
    }
  }

  lemma Nested(p: Word)
    ensures InThree(0)
    ensures InOne(p) ==> InThree(p)
    ensures InTwo(p) ==> InThree(p)
  {}

  lemma FitsThree(p: Word, n: nat)
    requires n <= 3 && Fits(p, n)
    ensures InThree(p)
  {
    hide InOne, InTwo, InThree;
    Nested(p);
  }

  lemma {:induction false} PackFits(w: seq<Byte>)
    requires |w| <= 4
    ensures Fits(Pack(w), |w|)
    decreases |w|
  {
    if w == [] {
    } else {
      PackFits(w[1..]);
      hide Mix, RaiseByte, Widen, Fits;
      PackStep(w[0], Pack(w[1..]), |w| - 1);
    }
  }

  // After a window the register holds the window added to what was there,
  // shifted by the window's length.
  lemma {:induction false} WindowRun(c: Word, w: seq<Byte>)
    requires |w| <= 4
    ensures BitRun(c, w) == Shifts(Mix(c, Pack(w)), 8 * |w|)
    decreases |w|
  {
    if w == [] {
      hide Mix;
      MixLaws(c, 0, 0);
    } else {
      var t, b, p := w[1..], Widen(w[0]), Pack(w[1..]);
      WindowRun(BitUpdate(c, w[0]), t);
      PackFits(t);
      hide Mix, Shifts, RaiseByte, Widen, Fits;
      WindowStep(c, w[0], p, |t|);
    }
  }

  lemma WindowStep(c: Word, b: Byte, p: Word, n: nat)
    requires n <= 3 && Fits(p, n)
    ensures Shifts(Mix(BitUpdate(c, b), p), 8 * n)
         == Shifts(Mix(c, Mix(Widen(b), RaiseByte(p))), 8 * (n + 1))
  {
    hide Mix, Shifts, RaiseByte, Widen, Fits, InThree, Room, Doubles;
    FitsThree(p, n);
    ByteRoom(p);
    ShiftsPass(Mix(c, Widen(b)), p, 8);
    MixLaws(c, Widen(b), RaiseByte(p));
    ShiftsAdd(Mix(c, Mix(Widen(b), RaiseByte(p))), 8, 8 * n);
  }

  lemma UnpackHigh(b: Byte, p: Word)
    requires InThree(p)
    ensures DropByte(Mix(Widen(b), RaiseByte(p))) == p
  {}

  lemma UnpackLow(b: Byte, p: Word)
    ensures LowWord(Mix(Widen(b), RaiseByte(p))) == Widen(b)
  {}

  lemma WidenInjective(b: Byte, c: Byte)
    requires Widen(b) == Widen(c)
    ensures b == c
  {}

  lemma {:induction false} PackInjective(v: seq<Byte>, w: seq<Byte>)
    requires |v| == |w| <= 4 && Pack(v) == Pack(w)
    ensures v == w
    decreases |v|
  {
    if v != [] {
      var p, q := Pack(v[1..]), Pack(w[1..]);
      PackFits(v[1..]); PackFits(w[1..]);
      hide Mix, RaiseByte, DropByte, LowWord, Widen, Fits, InThree;
      FitsThree(p, |v| - 1); FitsThree(q, |w| - 1);
      UnpackHigh(v[0], p); UnpackHigh(w[0], q);
      UnpackLow(v[0], p); UnpackLow(w[0], q);
      WidenInjective(v[0], w[0]);
      PackInjective(v[1..], w[1..]);
      assert v == [v[0]] + v[1..] && w == [w[0]] + w[1..];
    }
  }

  // Two strings that differ only inside one window of at most four consecutive
  // bytes never have the same CRC.
  lemma BurstDetected(prefix: seq<Byte>, v: seq<Byte>, w: seq<Byte>, suffix: seq<Byte>)
    requires |v| == |w| <= 4 && v != w
    ensures Crc32(prefix + v + suffix) != Crc32(prefix + w + suffix)
  {
    hide *;
    var c := BitRun(0xffff_ffff, prefix);
    TableIsExact(prefix + v + suffix); TableIsExact(prefix + w + suffix);
    BitRunAppends(0xffff_ffff, prefix + v, suffix); BitRunAppends(0xffff_ffff, prefix, v);
    BitRunAppends(0xffff_ffff, prefix + w, suffix); BitRunAppends(0xffff_ffff, prefix, w);
    if Crc32(prefix + v + suffix) == Crc32(prefix + w + suffix) {
      MixCancels(BitRun(0xffff_ffff, prefix + v + suffix), BitRun(0xffff_ffff, prefix + w + suffix), 0xffff_ffff);
      BitRunInjective(BitRun(c, v), BitRun(c, w), suffix);
      WindowRun(c, v); WindowRun(c, w);
      ShiftsInjective(Mix(c, Pack(v)), Mix(c, Pack(w)), 8 * |v|);
      MixCancels(Pack(v), Pack(w), c);
      PackInjective(v, w);
    }
  }

  // ---------------------------------------------------------------------
  // Differences that reach into the checksum
  // ---------------------------------------------------------------------

  lemma OddMix(c: Word, d: Word)
    ensures Odd(Mix(c, d)) <==> Odd(c) != Odd(d)
  {
    assert (c ^ d) & 1 == (c & 1) ^ (d & 1);
    LowBitOf(c); LowBitOf(d);
  }

  lemma HalfMix(c: Word, d: Word)
    ensures HalfWord(Mix(c, d)) == Mix(HalfWord(c), HalfWord(d))
  {}

  lemma MixTwice(p: Word, d: Word)
    ensures Mix(p, Mix(p, d)) == d
  {}

  lemma MixDrop(p: Word, c: Word, d: Word)
    ensures Mix(Mix(p, c), Mix(p, d)) == Mix(c, d)
  {
    hide *;
    MixLaws(p, c, 0);
    MixLaws(c, p, Mix(p, d));
    MixTwice(p, d);
  }

  lemma MixSwap(p: Word, c: Word, d: Word)
    ensures Mix(c, Mix(p, d)) == Mix(p, Mix(c, d))
  {}

  // A shift, and so any number of them, adds up.
  lemma ShiftAdds(c: Word, d: Word)
    ensures Shift(Mix(c, d)) == Mix(Shift(c), Shift(d))
  {
    BranchMarked(c); BranchMarked(d); BranchMarked(Mix(c, d));
    OddMix(c, d); HalfMix(c, d);
    hide *;
    var h, k := HalfWord(c), HalfWord(d);
    MixDrop(0xedb88320, h, k); MixLaws(0xedb88320, h, k); MixSwap(0xedb88320, h, k);
  }

  lemma {:induction false} ShiftsMix(c: Word, d: Word, n: nat)
    ensures Shifts(Mix(c, d), n) == Mix(Shifts(c, n), Shifts(d, n))
    decreases n
  {
    hide Mix, Shift;
    if n != 0 {
      ShiftAdds(c, d);
      ShiftsMix(Shift(c), Shift(d), n - 1);
    }
  }

  // How the CRC changes with the last bytes of a string.
  lemma CrcDifference(prefix: seq<Byte>, v: seq<Byte>, w: seq<Byte>)
    requires |v| == |w| <= 4
    ensures Mix(Crc32(prefix + v), Crc32(prefix + w)) == Shifts(Mix(Pack(v), Pack(w)), 8 * |v|)
  {
    hide *;
    var c := BitRun(0xffff_ffff, prefix);
    TableIsExact(prefix + v); TableIsExact(prefix + w);
    BitRunAppends(0xffff_ffff, prefix, v); BitRunAppends(0xffff_ffff, prefix, w);
    WindowRun(c, v); WindowRun(c, w);
    MixLaws(BitRun(c, v), 0xffff_ffff, 0); MixLaws(BitRun(c, w), 0xffff_ffff, 0);
    MixDrop(0xffff_ffff, BitRun(c, v), BitRun(c, w));
    ShiftsMix(Mix(c, Pack(v)), Mix(c, Pack(w)), 8 * |v|);
    MixDrop(c, Pack(v), Pack(w));
  }

  // A shift without a branch, and the way back.
  function Step(c: Word): Word {
    (c >> 1) ^ (0xedb88320 & (0 - (c & 1)))
  }

  function Back(c: Word): Word {
    ((c ^ (0xedb88320 & (0 - (c >> 31)))) << 1) | (c >> 31)
  }

  function Step8(c: Word): Word { Step(Step(Step(Step(Step(Step(Step(Step(c)))))))) }

  function Back8(c: Word): Word { Back(Back(Back(Back(Back(Back(Back(Back(c)))))))) }

  lemma StepEven(c: Word)
    requires c & 1 == 0
    ensures Step(c) == c >> 1
  {}

  lemma StepOdd(c: Word)
    requires c & 1 == 1
    ensures Step(c) == 0xedb88320 ^ (c >> 1)
  {}

  lemma ShiftIsStep(c: Word)
    ensures Shift(c) == Step(c)
  {
    BranchMarked(c);
    LowBitOf(c);
    if Odd(c) {
      StepOdd(c);
    } else {
      StepEven(c);
    }
  }

  lemma BackFromStep(c: Word)
    ensures Back(Step(c)) == c
  {}

  lemma {:induction false} ShiftsUnroll(c: Word, n: nat)
    requires n > 0
    ensures Shifts(c, n) == Shifts(Step(c), n - 1) && Shifts(Step(c), 0) == Step(c)
  {
    hide Step, Shift;
    ShiftIsStep(c);
  }

  lemma EightSteps(c: Word)
    ensures Shifts(c, 8) == Step8(c)
  {
    hide Step, Shifts;
    var d1 := Step(c);
    var d2 := Step(d1);
    var d3 := Step(d2);
    var d4 := Step(d3);
    var d5 := Step(d4);
    var d6 := Step(d5);
    var d7 := Step(d6);
    ShiftsUnroll(c, 8); ShiftsUnroll(d1, 7); ShiftsUnroll(d2, 6); ShiftsUnroll(d3, 5);
    ShiftsUnroll(d4, 4); ShiftsUnroll(d5, 3); ShiftsUnroll(d6, 2); ShiftsUnroll(d7, 1);
  }

  lemma EightBack(c: Word)
    ensures Back8(Step8(c)) == c
  {
    hide Step, Back;
    var d1 := Step(c);
    var d2 := Step(d1);
    var d3 := Step(d2);
    var d4 := Step(d3);
    var d5 := Step(d4);
    var d6 := Step(d5);
    var d7 := Step(d6);
    BackFromStep(c); BackFromStep(d1); BackFromStep(d2); BackFromStep(d3);
    BackFromStep(d4); BackFromStep(d5); BackFromStep(d6); BackFromStep(d7);
  }

  lemma OneByteEdge(x: Word)
    requires x & 0xffff_ff00 == 0 && Step8(x) & 0xff == 0
    ensures x == 0
  {}

  lemma TwoByteEdge(x: Word)
    requires x & 0xffff_0000 == 0 && Step8(Step8(x)) & 0xffff == 0
    ensures x == 0 || x == 0xd861
  {}

  lemma TwoByteValue()
    ensures Step8(Step8(0xd861)) == 0xf4ee_0000
  {}

  lemma ThreeByteEdge(z: Word)
    requires z & 0xff_ffff == 0 && Back8(Back8(Back8(z))) & 0xff00_0000 == 0
    ensures z == 0
  {}

  lemma ZeroBack()
    ensures Back8(Back8(Back8(0))) == 0
  {}

  lemma MixOne(c: Word, d: Word)
    requires InOne(c) && InOne(d)
    ensures InOne(Mix(c, d))
  {}

  lemma MixTwo(c: Word, d: Word)
    requires InTwo(c) && InTwo(d)
    ensures InTwo(Mix(c, d))
  {}

  lemma MixThree(c: Word, d: Word)
    requires InThree(c) && InThree(d)
    ensures InThree(Mix(c, d))
  {}

  lemma MixZero(c: Word, d: Word)
    ensures Mix(c, d) == 0 <==> c == d
  {}

  // A difference of one, two or three last bytes that leaves as many low bytes
  // of the CRC alone is no difference, with one exception.
  lemma EdgeOne(x: Word)
    requires InOne(x) && Shifts(x, 8) & 0xff == 0
    ensures x == 0
  {
    EightSteps(x);
    hide Shifts, Step8;
    OneByteEdge(x);
  }

  lemma EdgeTwo(x: Word)
    requires InTwo(x) && Shifts(x, 16) & 0xffff == 0
    ensures x == 0 || x == 0xd861
  {
    hide Shifts, Step8;
    ShiftsAdd(x, 8, 8);
    EightSteps(x); EightSteps(Step8(x));
    TwoByteEdge(x);
  }

  lemma EdgeThree(x: Word)
    requires InThree(x) && Shifts(x, 24) & 0xff_ffff == 0
    ensures x == 0
  {
    hide Shifts, Step8, Back8;
    ShiftsAdd(x, 8, 8); ShiftsAdd(x, 16, 8);
    EightSteps(x); EightSteps(Step8(x)); EightSteps(Step8(Step8(x)));
    EightBack(x); EightBack(Step8(x)); EightBack(Step8(Step8(x)));
    ThreeByteEdge(Step8(Step8(Step8(x))));
    ZeroBack();
  }

  lemma EdgeException()
    ensures Shifts(0xd861, 16) == 0xf4ee_0000
  {
    hide Shifts, Step8;
    ShiftsAdd(0xd861, 8, 8);
    EightSteps(0xd861); EightSteps(Step8(0xd861));
    TwoByteValue();
  }

  lemma {:induction false} ShiftsZero(n: nat)
    ensures Shifts(0, n) == 0
    decreases n
  {
    if n != 0 {
      assert Shift(0) == 0;
      hide Shift;
      ShiftsZero(n - 1);
    }
  }
}
