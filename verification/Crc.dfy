/** The checksum of the bar code: how it acts on cells, and which changes it cannot miss. */
module Crc {
  import opened CrcBits
  import opened Digits
  import opened Folds

  function Mixed(crc: bv16, b: byte): bv16 {
    crc ^ ((b as bv16) << 8)
  }

  function AddByte(crc: bv16, b: byte): bv16 {
    Iterate(Shift, 8, Mixed(crc, b))
  }

  /** The checksum of some bytes, starting from `crc`. */
  function Register(crc: bv16, data: seq<byte>): bv16 {
    Fold(AddByte, crc, data)
  }

  method Crc16(data: seq<byte>) returns (crc: bv16)
    ensures crc == Register(0xFFFF, data)
  {
    crc := 0xFFFF;
    for i := 0 to |data|
      invariant crc == Register(0xFFFF, data[..i])
    {
      ghost var before := crc;
      crc := Mixed(crc, data[i]);
      for k := 0 to 8
        invariant crc == Iterate(Shift, k, Mixed(before, data[i]))
      {
        crc := Shift(crc);
      }
      FoldSnoc(AddByte, 0xFFFF, data[..i], data[i]);
      assert data[..i + 1] == data[..i] + [data[i]];
    }
    assert data[..|data|] == data;
  }

  // --- Which checksum it is ---

  /** Eight shifts, one after the other. */
  lemma EightShifts(w: bv16, a: bv16, b: bv16, c: bv16, d: bv16, e: bv16, f: bv16, g: bv16, h: bv16)
    requires Shift(w) == a && Shift(a) == b && Shift(b) == c && Shift(c) == d
    requires Shift(d) == e && Shift(e) == f && Shift(f) == g && Shift(g) == h
    ensures Iterate(Shift, 8, w) == h
  {
    assert Iterate(Shift, 0, w) == w;
    assert Iterate(Shift, 1, w) == a;
    assert Iterate(Shift, 2, w) == b;
    assert Iterate(Shift, 3, w) == c;
    assert Iterate(Shift, 4, w) == d;
    assert Iterate(Shift, 5, w) == e;
    assert Iterate(Shift, 6, w) == f;
    assert Iterate(Shift, 7, w) == g;
  }

  lemma NextByte(data: seq<byte>, b: byte, before: bv16, after: bv16)
    requires Register(0xFFFF, data) == before && Iterate(Shift, 8, Mixed(before, b)) == after
    ensures Register(0xFFFF, data + [b]) == after
  {
    FoldSnoc(AddByte, 0xFFFF, data, b);
  }

  lemma FirstDigits()
    ensures Register(0xFFFF, [49, 50, 51]) == 0x5BCE
  {
    assert Mixed(0xFFFF, 49) == 0xCEFF;
    EightShifts(0xCEFF, 0x8DDF, 0x0B9F, 0x173E, 0x2E7C, 0x5CF8, 0xB9F0, 0x63C1, 0xC782);
    NextByte([], 49, 0xFFFF, 0xC782);
    assert [] + [49] == [49];
    assert Mixed(0xC782, 50) == 0xF582;
    EightShifts(0xF582, 0xFB25, 0xE66B, 0xDCF7, 0xA9CF, 0x43BF, 0x877E, 0x1EDD, 0x3DBA);
    NextByte([49], 50, 0xC782, 0x3DBA);
    assert [49] + [50] == [49, 50];
    assert Mixed(0x3DBA, 51) == 0x0EBA;
    EightShifts(0x0EBA, 0x1D74, 0x3AE8, 0x75D0, 0xEBA0, 0xC761, 0x9EE3, 0x2DE7, 0x5BCE);
    NextByte([49, 50], 51, 0x3DBA, 0x5BCE);
    assert [49, 50] + [51] == [49, 50, 51];
  }

  lemma MiddleDigits()
    requires Register(0xFFFF, [49, 50, 51]) == 0x5BCE
    ensures Register(0xFFFF, [49, 50, 51, 52, 53, 54]) == 0x2EF4
  {
    assert Mixed(0x5BCE, 52) == 0x6FCE;
    EightShifts(0x6FCE, 0xDF9C, 0xAF19, 0x4E13, 0x9C26, 0x286D, 0x50DA, 0xA1B4, 0x5349);
    NextByte([49, 50, 51], 52, 0x5BCE, 0x5349);
    assert [49, 50, 51] + [52] == [49, 50, 51, 52];
    assert Mixed(0x5349, 53) == 0x6649;
    EightShifts(0x6649, 0xCC92, 0x8905, 0x022B, 0x0456, 0x08AC, 0x1158, 0x22B0, 0x4560);
    NextByte([49, 50, 51, 52], 53, 0x5349, 0x4560);
    assert [49, 50, 51, 52] + [53] == [49, 50, 51, 52, 53];
    assert Mixed(0x4560, 54) == 0x7360;
    EightShifts(0x7360, 0xE6C0, 0xDDA1, 0xAB63, 0x46E7, 0x8DCE, 0x0BBD, 0x177A, 0x2EF4);
    NextByte([49, 50, 51, 52, 53], 54, 0x4560, 0x2EF4);
    assert [49, 50, 51, 52, 53] + [54] == [49, 50, 51, 52, 53, 54];
  }

  lemma LastDigits()
    requires Register(0xFFFF, [49, 50, 51, 52, 53, 54]) == 0x2EF4
    ensures Register(0xFFFF, [49, 50, 51, 52, 53, 54, 55, 56, 57]) == 0x29B1
  {
    assert Mixed(0x2EF4, 55) == 0x19F4;
    EightShifts(0x19F4, 0x33E8, 0x67D0, 0xCFA0, 0x8F61, 0x0EE3, 0x1DC6, 0x3B8C, 0x7718);
    NextByte([49, 50, 51, 52, 53, 54], 55, 0x2EF4, 0x7718);
    assert [49, 50, 51, 52, 53, 54] + [55] == [49, 50, 51, 52, 53, 54, 55];
    assert Mixed(0x7718, 56) == 0x4F18;
    EightShifts(0x4F18, 0x9E30, 0x2C41, 0x5882, 0xB104, 0x7229, 0xE452, 0xD885, 0xA12B);
    NextByte([49, 50, 51, 52, 53, 54, 55], 56, 0x7718, 0xA12B);
    assert [49, 50, 51, 52, 53, 54, 55] + [56] == [49, 50, 51, 52, 53, 54, 55, 56];
    assert Mixed(0xA12B, 57) == 0x982B;
    EightShifts(0x982B, 0x2077, 0x40EE, 0x81DC, 0x1399, 0x2732, 0x4E64, 0x9CC8, 0x29B1);
    NextByte([49, 50, 51, 52, 53, 54, 55, 56], 57, 0xA12B, 0x29B1);
    assert [49, 50, 51, 52, 53, 54, 55, 56] + [57] == [49, 50, 51, 52, 53, 54, 55, 56, 57];
  }

  /** The check value of CRC-16/CCITT-FALSE: the checksum of the digits "123456789". */
  lemma CheckValue()
    ensures Register(0xFFFF, [49, 50, 51, 52, 53, 54, 55, 56, 57]) == 0x29B1
  {
    FirstDigits();
    MiddleDigits();
    LastDigits();
  }

  // --- A step is a bijection ---

  lemma ShiftIsInjective()
    ensures Injective(Shift)
  {
    forall x, y | Shift(x) == Shift(y)
      ensures x == y
    {
      ShiftCanBeUndone(x);
      ShiftCanBeUndone(y);
    }
  }

  lemma AddCellIsInjective()
    ensures InjectiveInState(AddCell)
  {
    forall s, t, x | AddCell(s, x) == AddCell(t, x)
      ensures s == t
    {
      ShiftCanBeUndone(Xor(s, TopCell(x)));
      ShiftCanBeUndone(Xor(t, TopCell(x)));
      XorCancels(s, t, TopCell(x));
    }
  }

  // --- The register one cell at a time ---

  function TopCell(cell: Cell): bv16 {
    if cell == 1 then 0x8000 else 0
  }

  function AddCell(crc: bv16, cell: Cell): bv16 {
    Shift(Xor(crc, TopCell(cell)))
  }

  function ByCell(crc: bv16, cells: seq<Cell>): bv16 {
    Fold(AddCell, crc, cells)
  }

  /** The word that up to 16 cells spell. */
  function Word(cells: seq<Cell>): bv16 {
    if cells == [] then 0
    else Xor(Left(Word(cells[..|cells| - 1])), LowCell(cells[|cells| - 1]))
  }

  function LowCell(cell: Cell): bv16 {
    if cell == 1 then 1 else 0
  }

  lemma SmallPowers(n: nat)
    requires n <= 15
    ensures Pow2(n) <= 0x8000
    decreases 15 - n
  {
    if n < 15 {
      SmallPowers(n + 1);
    } else {
      PowersOfTwo();
    }
  }

  lemma {:induction false} WordIsNumber(cells: seq<Cell>)
    requires |cells| <= 16
    ensures Word(cells) as nat == Number(cells)
  {
    if cells != [] {
      var w := Word(cells[..|cells| - 1]);
      WordIsNumber(cells[..|cells| - 1]);
      SmallPowers(|cells| - 1);
      Double(w);
      DoubleAndOne(w);
    }
  }

  lemma CellRises(cell: Cell)
    ensures Iterate(Left, 15, LowCell(cell)) == TopCell(cell)
    ensures forall at :: 0 <= at < 15 ==> !Top(Iterate(Left, at, LowCell(cell)))
  {
    if cell == 1 {
      OneRises();
    } else {
      forall at: nat ensures Iterate(Left, at, 0) == 0 {
        ZeroStays(at);
      }
    }
  }

  /** A bit waiting at place `at` moves up with the steps. */
  lemma {:induction false} BitWaits(crc: bv16, cell: Cell, at: nat, n: nat)
    requires at + n <= 15
    ensures Iterate(Shift, n, Xor(crc, Iterate(Left, at, LowCell(cell)))) ==
            Xor(Iterate(Shift, n, crc), Iterate(Left, at + n, LowCell(cell)))
  {
    if n > 0 {
      BitWaits(crc, cell, at, n - 1);
      CellRises(cell);
      LaterBit(Iterate(Shift, n - 1, crc), Iterate(Left, at + n - 1, LowCell(cell)));
    }
  }

  lemma WordSplits(cells: seq<Cell>, room: nat)
    requires cells != []
    ensures var init := Word(cells[..|cells| - 1]);
            Iterate(Left, room, Word(cells)) ==
            Xor(Iterate(Left, room + 1, init), Iterate(Left, room, LowCell(cells[|cells| - 1])))
  {
    var init, low := Word(cells[..|cells| - 1]), LowCell(cells[|cells| - 1]);
    LeftIsLinear();
    IterateDistributes(Left, Xor, room, Left(init), low);
    IterateShift(Left, room, init);
  }

  /** Adding a whole word and shifting is adding its cells one by one. */
  lemma {:induction false} WordByCells(crc: bv16, cells: seq<Cell>, room: nat)
    requires |cells| + room == 16
    ensures Iterate(Shift, |cells|, Xor(crc, Iterate(Left, room, Word(cells)))) == ByCell(crc, cells)
    decreases |cells|
  {
    if cells == [] {
      ZeroStays(room);
      XorZero(crc);
    } else {
      var init, last := cells[..|cells| - 1], cells[|cells| - 1];
      WordByCells(crc, init, room + 1);
      WordSplits(cells, room);
      var rest := Iterate(Left, room + 1, Word(init));
      XorAssociates(crc, rest, Iterate(Left, room, LowCell(last)));
      BitWaits(Xor(crc, rest), last, room, |init|);
      CellRises(last);
    }
  }

  lemma WordOfOctet(cells: seq<Cell>)
    requires |cells| == 8
    ensures (Octet(cells) as bv16) == Word(cells)
  {
    WordIsNumber(cells);
    WordOfNumber(Word(cells));
  }

  lemma AddOctet(crc: bv16, cells: seq<Cell>)
    requires |cells| == 8
    ensures AddByte(crc, Octet(cells)) == ByCell(crc, cells)
  {
    WordOfOctet(cells);
    LeftEight(Word(cells));
    WordByCells(crc, cells, 8);
  }

  lemma RegisterSnoc(crc: bv16, data: seq<byte>, last: byte)
    ensures Register(crc, data + [last]) == AddByte(Register(crc, data), last)
  {
    FoldSnoc(AddByte, crc, data, last);
  }

  /** The byte-wise checksum is the cell-wise one. */
  lemma {:induction false} RegisterByCell(crc: bv16, cells: seq<Cell>, n: nat)
    requires |cells| == 8 * n
    ensures Register(crc, Octets(cells, n)) == ByCell(crc, cells)
  {
    if n > 0 {
      var m := 8 * (n - 1);
      var init, last := cells[..m], cells[m..];
      RegisterByCell(crc, init, n - 1);
      OctetsSnoc(cells, n - 1);
      RegisterSnoc(crc, Octets(init, n - 1), Octet(last));
      AddOctet(ByCell(crc, init), last);
      ByCellSplits(crc, init, last);
      assert cells == init + last;
    }
  }

  /** Checksum cells clear the register exactly when they spell it. */
  lemma ClearedByItsOwn(crc: bv16, cells: seq<Cell>)
    requires |cells| == 16
    ensures ByCell(crc, cells) == 0 <==> Number(cells) == crc as nat
  {
    WordByCells(crc, cells, 0);
    ShiftIsInjective();
    ShiftOfZero(16);
    XorZeroExactly(crc, Word(cells));
    if ByCell(crc, cells) == 0 {
      IterateIsInjective(Shift, 16, Xor(crc, Word(cells)), 0);
    }
    WordIsNumber(cells);
    WordOfNumber(Word(cells));
    WordOfNumber(crc);
  }

  lemma ByCellSplits(crc: bv16, a: seq<Cell>, b: seq<Cell>)
    ensures ByCell(crc, a + b) == ByCell(ByCell(crc, a), b)
  {
    FoldAppend(AddCell, crc, a, b);
  }

  // --- Changes that are never missed ---

  /** A change inside 16 neighbouring cells always changes the register. */
  lemma BurstChangesRegister(crc: bv16, head: seq<Cell>, a: seq<Cell>, b: seq<Cell>, tail: seq<Cell>)
    requires |a| == |b| == 16 && a != b
    ensures ByCell(crc, head + a + tail) != ByCell(crc, head + b + tail)
  {
    var start := ByCell(crc, head);
    FoldAppend(AddCell, crc, head + a, tail);
    FoldAppend(AddCell, crc, head + b, tail);
    FoldAppend(AddCell, crc, head, a);
    FoldAppend(AddCell, crc, head, b);
    WindowChangesRegister(start, a, b);
    AddCellIsInjective();
    if ByCell(ByCell(start, a), tail) == ByCell(ByCell(start, b), tail) {
      FoldIsInjective(AddCell, ByCell(start, a), ByCell(start, b), tail);
    }
  }

  lemma WindowChangesRegister(crc: bv16, a: seq<Cell>, b: seq<Cell>)
    requires |a| == |b| == 16 && a != b
    ensures ByCell(crc, a) != ByCell(crc, b)
  {
    WordByCells(crc, a, 0);
    WordByCells(crc, b, 0);
    WordIsNumber(a);
    WordIsNumber(b);
    if ByCell(crc, a) == ByCell(crc, b) {
      ShiftIsInjective();
      IterateIsInjective(Shift, 16, Xor(crc, Word(a)), Xor(crc, Word(b)));
      XorAgrees(crc, Word(a), Word(b));
      BitsOfNumber(a);
      BitsOfNumber(b);
    }
  }

  lemma XorAgrees(x: bv16, a: bv16, b: bv16)
    requires Xor(x, a) == Xor(x, b)
    ensures a == b
  {
  }

  predicate OddCells(cells: seq<Cell>) {
    cells != [] && OddCells(cells[..|cells| - 1]) != (cells[|cells| - 1] == 1)
  }

  lemma AddCellParity(crc: bv16, cell: Cell, n: nat)
    requires n >= 16
    ensures Odd(AddCell(crc, cell), n) == (Odd(crc, n) != (cell == 1))
  {
    ShiftKeepsOdd(Xor(crc, TopCell(cell)), n);
    OddXor(crc, TopCell(cell), n);
    OddTopBit(n);
    NoOnes(n);
  }

  lemma {:induction false} RegisterParity(crc: bv16, cells: seq<Cell>, n: nat)
    requires n >= 16
    ensures Odd(ByCell(crc, cells), n) == (Odd(crc, n) != OddCells(cells))
    decreases |cells|
  {
    if cells != [] {
      var init := cells[..|cells| - 1];
      RegisterParity(crc, init, n);
      AddCellParity(ByCell(crc, init), cells[|cells| - 1], n);
    }
  }

  /** In how many places two rows of cells differ. */
  function Changes(a: seq<Cell>, b: seq<Cell>): nat
    requires |a| == |b|
  {
    if a == [] then 0
    else
      var n := |a| - 1;
      Changes(a[..n], b[..n]) + if a[n] != b[n] then 1 else 0
  }

  lemma {:induction false} OddChangesFlipParity(a: seq<Cell>, b: seq<Cell>)
    requires |a| == |b|
    ensures Changes(a, b) % 2 == 1 <==> OddCells(a) != OddCells(b)
  {
    if a != [] {
      OddChangesFlipParity(a[..|a| - 1], b[..|b| - 1]);
    }
  }

  /** An odd number of changed cells, wherever they are, changes the register. */
  lemma OddChangesRegister(crc: bv16, a: seq<Cell>, b: seq<Cell>)
    requires |a| == |b| && Changes(a, b) % 2 == 1
    ensures ByCell(crc, a) != ByCell(crc, b)
  {
    RegisterParity(crc, a, |a| + 16);
    RegisterParity(crc, b, |a| + 16);
    OddChangesFlipParity(a, b);
  }

  /** How the difference of two registers goes on with the next cells. */
  lemma DifferenceGoesOn(r: bv16, s: bv16, x: Cell, y: Cell)
    ensures Xor(AddCell(r, x), AddCell(s, y)) == Shift(if x == y then Xor(r, s) else Xor(Xor(r, s), 0x8000))
  {
    ShiftIsLinear(Xor(r, TopCell(x)), Xor(s, TopCell(y)));
    XorWithItself(r);
    XorWithItself(s);
    FeedbackXor(r, s, TopCell(x));
    FeedbackXor(r, s, TopCell(y));
  }

  lemma {:induction false} NoChange(a: seq<Cell>, b: seq<Cell>)
    requires |a| == |b| && Changes(a, b) == 0
    ensures a == b
  {
    if a != [] {
      var n := |a| - 1;
      NoChange(a[..n], b[..n]);
      assert a == a[..n] + [a[n]] && b == b[..n] + [b[n]];
    }
  }

  /** After a single changed cell the registers differ by what `m` shifts make of the top bit. */
  lemma {:induction false} OneChangeDiffers(crc: bv16, a: seq<Cell>, b: seq<Cell>) returns (m: nat)
    requires |a| == |b| && Changes(a, b) == 1
    ensures 1 <= m <= |a| && Xor(ByCell(crc, a), ByCell(crc, b)) == Iterate(Shift, m, 0x8000)
    decreases |a|
  {
    var n := |a| - 1;
    DifferenceGoesOn(ByCell(crc, a[..n]), ByCell(crc, b[..n]), a[n], b[n]);
    if a[n] != b[n] {
      NoChange(a[..n], b[..n]);
      XorZeroExactly(ByCell(crc, a[..n]), ByCell(crc, b[..n]));
      ZeroAndTop();
      m := 1;
    } else {
      var before := OneChangeDiffers(crc, a[..n], b[..n]);
      m := before + 1;
    }
  }

  lemma ZeroAndTop()
    ensures Xor(0, 0x8000) == 0x8000 && Iterate(Shift, 1, 0x8000) == Shift(0x8000) && Shift(0) == 0
  {
    assert Iterate(Shift, 0, 0x8000) == 0x8000;
  }

  /** Two changed cells of at most 64 always change the register. */
  lemma {:induction false} TwoChangesRegister(crc: bv16, a: seq<Cell>, b: seq<Cell>)
    requires |a| == |b| <= 64 && Changes(a, b) == 2
    ensures ByCell(crc, a) != ByCell(crc, b)
    decreases |a|
  {
    var n := |a| - 1;
    var r, s := ByCell(crc, a[..n]), ByCell(crc, b[..n]);
    DifferenceGoesOn(r, s, a[n], b[n]);
    ZeroAndTop();
    ShiftIsInjective();
    if a[n] != b[n] {
      var m := OneChangeDiffers(crc, a[..n], b[..n]);
      TopStaysAway(m);
      XorZeroExactly(Xor(r, s), 0x8000);
    } else {
      TwoChangesRegister(crc, a[..n], b[..n]);
      XorZeroExactly(r, s);
    }
    XorZeroExactly(ByCell(crc, a), ByCell(crc, b));
  }
}
