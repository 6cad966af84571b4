/** The painter's clock as a row of 72 cells, and the time it stands for near a known time. */
module BarCode {
  import opened Crc
  import opened Digits

  const CELLS: nat := 72

  const MODULUS: nat := 0x1_0000_0000_0000

  const HALF: nat := 0x8000_0000_0000

  const LEAD: seq<Cell> := [1, 0, 1, 0]

  const TAIL: seq<Cell> := [0, 1, 0, 1]

  function EncodeBits(micros: int): (cells: seq<Cell>)
    ensures |cells| == CELLS
  {
    var value := micros % MODULUS;
    LEAD + Bits(value, 48) + Bits(Register(0xFFFF, ToBytes(value, 6)) as nat, 16) + TAIL
  }

  /** The value of a row, or -1 (sync) or -2 (checksum). */
  function DecodeBits(cells: seq<Cell>): int {
    if |cells| < CELLS || cells[..4] != LEAD || cells[68..72] != TAIL then -1
    else
      var data := Octets(cells[4..52], 6);
      if Register(0xFFFF, data) as nat != Number(cells[52..68]) then -2 else FromBytes(data)
  }

  ghost predicate Framed(cells: seq<Cell>) {
    |cells| >= CELLS && cells[..4] == LEAD && cells[68..72] == TAIL
  }

  /** A row is out of sync exactly if it is too short or one of its eight frame cells is wrong. */
  lemma SyncIsChecked(cells: seq<Cell>)
    ensures DecodeBits(cells) == -1 <==>
            !(|cells| >= 72 && (forall i :: 0 <= i < 4 ==> cells[i] == (i + 1) % 2)
              && (forall i :: 68 <= i < 72 ==> cells[i] == i % 2))
  {
    if |cells| >= 72 {
      assert cells[..4] == [cells[0], cells[1], cells[2], cells[3]];
      assert cells[68..72] == [cells[68], cells[69], cells[70], cells[71]];
    }
  }

  /** Decoding in one pass: the time cells and the checksum cells together clear the register. */
  lemma DecodedByCell(cells: seq<Cell>)
    requires Framed(cells)
    ensures DecodeBits(cells) == if ByCell(0xFFFF, cells[4..68]) == 0 then Number(cells[4..52]) else -2
  {
    var data, check := cells[4..52], cells[52..68];
    assert cells[4..68] == data + check;
    ByCellSplits(0xFFFF, data, check);
    RegisterByCell(0xFFFF, data, 6);
    ClearedByItsOwn(Register(0xFFFF, Octets(data, 6)), check);
    OctetsAreTheNumber(data, 6);
  }

  lemma PartsOfEncoding(micros: int)
    ensures var value, cells := micros % MODULUS, EncodeBits(micros);
            && Framed(cells)
            && cells[4..52] == Bits(value, 48)
            && cells[52..68] == Bits(Register(0xFFFF, ToBytes(value, 6)) as nat, 16)
  {
  }

  lemma BitAt(value: nat, n: nat, i: nat)
    requires i < n
    ensures Bits(value, n)[i] == value / Pow2(n - 1 - i) % 2
  {
    assert Bits(value, n)[i] == Bit(value, n - 1 - i);
  }

  /**
   The row of a time: 1 0 1 0, its 48 lowest bits and the checksum of their six bytes from 0xFFFF, each
   with the most significant bit first, and 0 1 0 1.
   */
  lemma RowLayout(micros: int, i: nat)
    requires i < 72
    ensures var value, row := micros % 0x1_0000_0000_0000, EncodeBits(micros);
            && |row| == 72
            && row[i] ==
               if i < 4 then (i + 1) % 2
               else if i < 52 then value / Pow2(51 - i) % 2
               else if i < 68 then Register(0xFFFF, ToBytes(value, 6)) as nat / Pow2(67 - i) % 2
               else i % 2
  {
    var value, row := micros % MODULUS, EncodeBits(micros);
    var check := Register(0xFFFF, ToBytes(value, 6)) as nat;
    PartsOfEncoding(micros);
    if i < 4 {
      assert row[i] == row[..4][i] == LEAD[i] && (i == 0 || i == 1 || i == 2 || i == 3);
    } else if i < 52 {
      BitAt(value, 48, i - 4);
      assert row[i] == row[4..52][i - 4];
    } else if i < 68 {
      BitAt(check, 16, i - 52);
      assert row[i] == row[52..68][i - 52];
    } else {
      assert row[i] == row[68..72][i - 68] == TAIL[i - 68] && (i == 68 || i == 69 || i == 70 || i == 71);
    }
  }

  /** The bytes are the digits to base 256, the most significant first. */
  lemma {:induction false} ByteLayout(value: nat, n: nat, i: nat)
    requires i < n
    ensures ToBytes(value, n)[i] == value / Pow2(8 * (n - 1 - i)) % 256
  {
    if i < n - 1 {
      ByteLayout(value / 256, n - 1, i);
      var k := 8 * (n - 2 - i);
      PowerUp(k);
      HalveEight(value, Pow2(k));
    }
  }

  lemma HalveEight(value: nat, p: nat)
    requires p > 0
    ensures value / (256 * p) == value / 256 / p
  {
    var q, r := value / 256 / p, value / 256 % p;
    DivisionIsUnique(value, 256 * p, q, 256 * r + value % 256);
  }

  /** What is decoded is the time modulo 2^48, for every time. */
  lemma RoundTrip(micros: int)
    ensures DecodeBits(EncodeBits(micros)) == micros % MODULUS
  {
    var value, cells := micros % MODULUS, EncodeBits(micros);
    var data := cells[4..52];
    PartsOfEncoding(micros);
    PowersOfTwo();
    NumberOfBits(value, 48);
    OctetsAreTheNumber(data, 6);
    BytesAreTheOctets(data, 6);
    NumberOfBits(Register(0xFFFF, ToBytes(value, 6)) as nat, 16);
  }

  /** A row that decodes is what the encoder makes of its value. */
  lemma DecodedRow(cells: seq<Cell>)
    requires DecodeBits(cells) >= 0
    ensures DecodeBits(cells) < MODULUS
    ensures Framed(cells)
    ensures cells[4..52] == Bits(DecodeBits(cells), 48)
    ensures cells[52..68] == Bits(Register(0xFFFF, ToBytes(DecodeBits(cells), 6)) as nat, 16)
  {
    var data, check := cells[4..52], cells[52..68];
    OctetsAreTheNumber(data, 6);
    BytesAreTheOctets(data, 6);
    PowersOfTwo();
    BitsOfNumber(data);
    BitsOfNumber(check);
  }

  lemma RowOfValue(value: nat)
    requires value < MODULUS
    ensures EncodeBits(value) ==
            LEAD + Bits(value, 48) + Bits(Register(0xFFFF, ToBytes(value, 6)) as nat, 16) + TAIL
  {
    assert value % MODULUS == value;
  }

  lemma RowOfParts(cells: seq<Cell>)
    requires |cells| >= CELLS
    ensures cells[..CELLS] == cells[..4] + cells[4..52] + cells[52..68] + cells[68..72]
  {
  }

  lemma DecodedIsEncoded(cells: seq<Cell>)
    requires DecodeBits(cells) >= 0
    ensures DecodeBits(cells) < MODULUS && |cells| >= CELLS && cells[..CELLS] == EncodeBits(DecodeBits(cells))
  {
    DecodedRow(cells);
    RowOfParts(cells);
    RowOfValue(DecodeBits(cells));
  }

  /** Only the encoder's own rows decode: whatever else is read is refused. */
  lemma OnlyEncodingsDecode(cells: seq<Cell>, value: nat)
    ensures DecodeBits(cells) == value <==>
            value < MODULUS && |cells| >= CELLS && cells[..CELLS] == EncodeBits(value)
  {
    if value < MODULUS && |cells| >= CELLS && cells[..CELLS] == EncodeBits(value) {
      RoundTrip(value);
      SamePrefix(cells);
    }
    if DecodeBits(cells) == value {
      DecodedIsEncoded(cells);
    }
  }

  lemma SamePrefix(cells: seq<Cell>)
    requires |cells| >= CELLS
    ensures DecodeBits(cells) == DecodeBits(cells[..CELLS])
  {
    assert cells[..CELLS][4..52] == cells[4..52];
    assert cells[..CELLS][52..68] == cells[52..68];
    assert cells[..CELLS][68..72] == cells[68..72];
    assert cells[..CELLS][..4] == cells[..4];
  }

  // --- Misread cells ---

  lemma EncodingClears(micros: int)
    ensures Framed(EncodeBits(micros)) && ByCell(0xFFFF, EncodeBits(micros)[4..68]) == 0
  {
    RoundTrip(micros);
    DecodedByCell(EncodeBits(micros));
  }

  /** Two rows that agree outside 16 cells, in parts. */
  lemma AgreeingParts(good: seq<Cell>, cells: seq<Cell>, from: nat)
    requires |good| == |cells| == CELLS && 4 <= from <= 52
    requires cells[..from] == good[..from] && cells[from + 16..] == good[from + 16..]
    ensures good[4..68] == good[4..from] + good[from..from + 16] + good[from + 16..68]
    ensures cells[4..68] == good[4..from] + cells[from..from + 16] + good[from + 16..68]
    ensures good[from..from + 16] == cells[from..from + 16] ==> good == cells
  {
    assert forall i :: 0 <= i < from ==> cells[i] == cells[..from][i] == good[..from][i] == good[i];
    assert forall i :: from + 16 <= i < CELLS ==>
      cells[i] == cells[from + 16..][i - from - 16] == good[from + 16..][i - from - 16] == good[i];
    assert good == good[..from] + good[from..from + 16] + good[from + 16..];
    assert cells == cells[..from] + cells[from..from + 16] + cells[from + 16..];
  }

  lemma StaysFramed(good: seq<Cell>, cells: seq<Cell>, from: nat)
    requires |good| == |cells| == CELLS && 4 <= from <= 52 && Framed(good)
    requires cells[..from] == good[..from] && cells[from + 16..] == good[from + 16..]
    ensures Framed(cells)
  {
    assert cells[..4] == cells[..from][..4] && good[..4] == good[..from][..4];
    assert cells[68..72] == cells[from + 16..][52 - from..56 - from];
    assert good[68..72] == good[from + 16..][52 - from..56 - from];
  }

  /**
   Misreading any cells among 16 neighbours of the 64 time and checksum cells is noticed: those of
   one time byte, of two neighbouring bytes, or the whole checksum.
   */
  lemma BurstIsNoticed(micros: int, cells: seq<Cell>, from: nat)
    requires |cells| == CELLS && cells != EncodeBits(micros)
    requires 4 <= from <= 52
    requires cells[..from] == EncodeBits(micros)[..from] && cells[from + 16..] == EncodeBits(micros)[from + 16..]
    ensures DecodeBits(cells) == -2
  {
    var good := EncodeBits(micros);
    EncodingClears(micros);
    StaysFramed(good, cells, from);
    DecodedByCell(cells);
    AgreeingParts(good, cells, from);
    BurstChangesRegister(0xFFFF, good[4..from], good[from..from + 16], cells[from..from + 16], good[from + 16..68]);
  }

  /** So is misreading an odd number of them, wherever they are. */
  lemma OddMisreadingIsNoticed(micros: int, cells: seq<Cell>)
    requires Framed(cells) && |cells| == CELLS
    requires Changes(EncodeBits(micros)[4..68], cells[4..68]) % 2 == 1
    ensures DecodeBits(cells) == -2
  {
    EncodingClears(micros);
    DecodedByCell(cells);
    OddChangesRegister(0xFFFF, EncodeBits(micros)[4..68], cells[4..68]);
  }

  /** Any one, two or three misread time or checksum cells are noticed. */
  lemma ThreeMisreadingsAreNoticed(micros: int, cells: seq<Cell>)
    requires Framed(cells) && |cells| == CELLS
    requires 1 <= Changes(EncodeBits(micros)[4..68], cells[4..68]) <= 3
    ensures DecodeBits(cells) == -2
  {
    var good := EncodeBits(micros);
    if Changes(good[4..68], cells[4..68]) == 2 {
      EncodingClears(micros);
      DecodedByCell(cells);
      TwoChangesRegister(0xFFFF, good[4..68], cells[4..68]);
    } else {
      OddMisreadingIsNoticed(micros, cells);
    }
  }

  // --- The clock ---

  /** The painter time nearest to `nowMs`, the page's whole milliseconds, that matches the 48-bit value. */
  function FullMicros(nowMs: int, value: int): int {
    var nowUs := nowMs * 1000;
    nowUs - ((nowUs - value + HALF) % MODULUS - HALF)
  }

  /** `micros` is less than half the modulus from the clock, the lower bound included. */
  predicate InRange(nowMs: int, micros: int) {
    0 <= nowMs * 1000 - micros + HALF < MODULUS
  }

  /** Whole times that agree in their 48 bits and are both in range are the same. */
  lemma OneInRange(nowMs: int, a: int, b: int)
    requires a % MODULUS == b % MODULUS && InRange(nowMs, a) && InRange(nowMs, b)
    ensures a == b
  {
    assert a == a / MODULUS * MODULUS + a % MODULUS && b == b / MODULUS * MODULUS + b % MODULUS;
  }

  lemma {:induction false} WholeTurns(value: int, turns: int)
    ensures (value + turns * MODULUS) % MODULUS == value % MODULUS
    decreases if turns < 0 then -turns else turns
  {
    if turns > 0 {
      WholeTurns(value, turns - 1);
      assert (value + turns * MODULUS) % MODULUS == (value + (turns - 1) * MODULUS) % MODULUS;
    } else if turns < 0 {
      WholeTurns(value, turns + 1);
      assert (value + turns * MODULUS) % MODULUS == (value + (turns + 1) * MODULUS) % MODULUS;
    }
  }

  /** The answer has the value's 48 bits and is in range. */
  lemma AnswerIsInRange(nowMs: int, value: int)
    ensures FullMicros(nowMs, value) % MODULUS == value % MODULUS && InRange(nowMs, FullMicros(nowMs, value))
  {
    var x := nowMs * 1000 - value + HALF;
    assert x == x / MODULUS * MODULUS + x % MODULUS;
    WholeTurns(value, x / MODULUS);
    assert FullMicros(nowMs, value) == value + x / MODULUS * MODULUS;
  }

  /** Whatever the clocks say, the answer is a time with the value's 48 bits, and the only one in range. */
  lemma AnswerMatchesTheValue(nowMs: int, value: int)
    ensures var micros := FullMicros(nowMs, value);
            && micros % MODULUS == value % MODULUS && InRange(nowMs, micros)
            && forall other :: other % MODULUS == value % MODULUS && InRange(nowMs, other) ==> other == micros
  {
    AnswerIsInRange(nowMs, value);
    forall other | other % MODULUS == value % MODULUS && InRange(nowMs, other)
      ensures other == FullMicros(nowMs, value)
    {
      OneInRange(nowMs, other, FullMicros(nowMs, value));
    }
  }

  /** A time is recovered exactly from its row if and only if it is in range of the clock. */
  lemma TimeIsRecoveredExactly(nowMs: int, micros: int)
    ensures FullMicros(nowMs, DecodeBits(EncodeBits(micros))) == micros <==> InRange(nowMs, micros)
  {
    RoundTrip(micros);
    AnswerMatchesTheValue(nowMs, micros % MODULUS);
  }
}
