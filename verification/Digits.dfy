/** Binary digits, bytes and the numbers they stand for, most significant first. */
module Digits {
  type Cell = c: nat | c < 2

  type byte = b: nat | b < 256

  function Pow2(n: nat): (p: nat)
    ensures p > 0
  {
    if n == 0 then 1 else 2 * Pow2(n - 1)
  }

  function Number(cells: seq<Cell>): (n: nat)
    ensures n < Pow2(|cells|)
  {
    if cells == [] then 0 else 2 * Number(cells[..|cells| - 1]) + cells[|cells| - 1]
  }

  function Bit(value: nat, k: nat): Cell {
    (value / Pow2(k)) % 2
  }

  /** The `n` lowest binary digits of `value`. */
  function Bits(value: nat, n: nat): (cells: seq<Cell>)
    ensures |cells| == n
  {
    seq(n, i requires 0 <= i < n => Bit(value, n - 1 - i))
  }

  lemma DivisionIsUnique(value: nat, d: nat, q: nat, r: nat)
    requires d > 0 && r < d && value == q * d + r
    ensures value / d == q
  {
    var k := value / d - q;
    assert k * d == r - value % d;
    assert k >= 1 ==> k * d >= d;
    assert k <= -1 ==> k * d + d <= 0;
  }

  lemma HalveFirst(value: nat, p: nat)
    requires p > 0
    ensures value / (2 * p) == (value / 2) / p
  {
    var q, r := (value / 2) / p, (value / 2) % p;
    var rest := 2 * r + value % 2;
    assert value == q * (2 * p) + rest;
    DivisionIsUnique(value, 2 * p, q, rest);
  }

  lemma BitUp(value: nat, k: nat)
    ensures Bit(value, k + 1) == Bit(value / 2, k)
  {
    HalveFirst(value, Pow2(k));
  }

  lemma BitsSnoc(value: nat, n: nat)
    ensures Bits(value, n + 1) == Bits(value / 2, n) + [value % 2]
  {
    assert Bit(value, 0) == value % 2;
    forall i | 0 <= i < n
      ensures Bits(value, n + 1)[i] == Bits(value / 2, n)[i]
    {
      BitUp(value, n - 1 - i);
    }
  }

  lemma {:induction false} NumberOfBits(value: nat, n: nat)
    requires value < Pow2(n)
    ensures Number(Bits(value, n)) == value
  {
    if n > 0 {
      BitsSnoc(value, n - 1);
      NumberOfBits(value / 2, n - 1);
      assert Bits(value, n)[..n - 1] == Bits(value / 2, n - 1);
    }
  }

  lemma {:induction false} BitsOfNumber(cells: seq<Cell>)
    ensures Bits(Number(cells), |cells|) == cells
  {
    if cells != [] {
      var init := cells[..|cells| - 1];
      BitsOfNumber(init);
      BitsSnoc(Number(cells), |init|);
      assert cells == init + [cells[|cells| - 1]];
    }
  }

  lemma PowersOfTwo()
    ensures Pow2(8) == 256 && Pow2(16) == 0x1_0000 && Pow2(48) == 0x1_0000_0000_0000
  {
    PowerUp(0);
    PowerUp(8);
    PowerUp(16);
    PowerUp(24);
    PowerUp(32);
    PowerUp(40);
  }

  lemma PowerUp(n: nat)
    ensures Pow2(n + 8) == 256 * Pow2(n)
  {
    assert Pow2(n + 2) == 4 * Pow2(n);
    assert Pow2(n + 4) == 4 * Pow2(n + 2);
    assert Pow2(n + 6) == 4 * Pow2(n + 4);
  }

  // --- Bytes ---

  function Doubled(n: nat, times: nat): nat {
    if times == 0 then n else 2 * Doubled(n, times - 1)
  }

  lemma {:induction false} NumberAppend(a: seq<Cell>, b: seq<Cell>)
    ensures Number(a + b) == Doubled(Number(a), |b|) + Number(b)
    decreases |b|
  {
    if b == [] {
      assert a + b == a;
    } else {
      NumberAppend(a, b[..|b| - 1]);
      assert (a + b)[..|a + b| - 1] == a + b[..|b| - 1];
    }
  }

  lemma DoubledEight(n: nat)
    ensures Doubled(n, 8) == 256 * n
  {
    assert Doubled(n, 1) == 2 * n;
    assert Doubled(n, 2) == 4 * n;
    assert Doubled(n, 3) == 8 * n;
    assert Doubled(n, 4) == 16 * n;
    assert Doubled(n, 5) == 32 * n;
    assert Doubled(n, 6) == 64 * n;
    assert Doubled(n, 7) == 128 * n;
  }

  /** Eight more digits. */
  lemma NumberOctet(a: seq<Cell>, b: seq<Cell>)
    requires |b| == 8
    ensures Number(b) < 256 && Number(a + b) == 256 * Number(a) + Number(b)
  {
    NumberAppend(a, b);
    PowerUp(0);
    DoubledEight(Number(a));
  }

  function Octet(cells: seq<Cell>): byte
    requires |cells| == 8
  {
    NumberOctet([], cells);
    Number(cells)
  }

  /** The bytes that groups of eight cells stand for. */
  function Octets(cells: seq<Cell>, n: nat): seq<byte>
    requires |cells| == 8 * n
  {
    seq(n, i requires 0 <= i < n => Octet(cells[8 * i..8 * i + 8]))
  }

  lemma OctetsSnoc(cells: seq<Cell>, n: nat)
    requires |cells| == 8 * (n + 1)
    ensures Octets(cells, n + 1) == Octets(cells[..8 * n], n) + [Octet(cells[8 * n..])]
  {
    assert cells[8 * n..8 * n + 8] == cells[8 * n..];
    forall i | 0 <= i < n
      ensures cells[8 * i..8 * i + 8] == cells[..8 * n][8 * i..8 * i + 8]
    {
    }
  }

  /** A number as `n` bytes. */
  function ToBytes(value: nat, n: nat): (data: seq<byte>)
    ensures |data| == n
  {
    if n == 0 then [] else ToBytes(value / 256, n - 1) + [value % 256]
  }

  function FromBytes(data: seq<byte>): nat {
    if data == [] then 0 else 256 * FromBytes(data[..|data| - 1]) + data[|data| - 1]
  }

  lemma ToBytesSnoc(high: nat, low: byte, n: nat)
    ensures ToBytes(256 * high + low, n + 1) == ToBytes(high, n) + [low]
  {
    assert (256 * high + low) / 256 == high && (256 * high + low) % 256 == low;
  }

  lemma FromBytesSnoc(data: seq<byte>, last: byte)
    ensures FromBytes(data + [last]) == 256 * FromBytes(data) + last
  {
    assert (data + [last])[..|data|] == data;
  }

  lemma NumberSplits(cells: seq<Cell>, n: nat)
    requires |cells| == n + 8
    ensures Number(cells) == 256 * Number(cells[..n]) + Octet(cells[n..])
  {
    NumberOctet(cells[..n], cells[n..]);
    assert cells == cells[..n] + cells[n..];
  }

  /** Reading cells by bytes is reading them at once. */
  lemma {:induction false} OctetsAreTheNumber(cells: seq<Cell>, n: nat)
    requires |cells| == 8 * n
    ensures FromBytes(Octets(cells, n)) == Number(cells)
  {
    if n > 0 {
      var m := 8 * (n - 1);
      OctetsAreTheNumber(cells[..m], n - 1);
      OctetsSnoc(cells, n - 1);
      NumberSplits(cells, m);
      FromBytesSnoc(Octets(cells[..m], n - 1), Octet(cells[m..]));
    }
  }

  /** Writing a number as bytes gives the bytes of its cells. */
  lemma {:induction false} BytesAreTheOctets(cells: seq<Cell>, n: nat)
    requires |cells| == 8 * n
    ensures ToBytes(Number(cells), n) == Octets(cells, n)
  {
    if n > 0 {
      var m := 8 * (n - 1);
      BytesAreTheOctets(cells[..m], n - 1);
      OctetsSnoc(cells, n - 1);
      NumberSplits(cells, m);
      ToBytesSnoc(Number(cells[..m]), Octet(cells[m..]), n - 1);
    }
  }
}
