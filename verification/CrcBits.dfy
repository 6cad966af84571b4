/** One step of the 16-bit checksum register (polynomial 0x1021, most significant bit first). */
module CrcBits {
  import opened Folds

  function Shift(crc: bv16): bv16 {
    if crc & 0x8000 != 0 then (crc << 1) ^ 0x1021 else crc << 1
  }

  function Unshift(crc: bv16): bv16 {
    if crc & 1 == 1 then ((crc ^ 0x1021) >> 1) | 0x8000 else crc >> 1
  }

  function Left(w: bv16): bv16 {
    w << 1
  }

  function Xor(a: bv16, b: bv16): bv16 {
    a ^ b
  }

  predicate Top(w: bv16) {
    w & 0x8000 != 0
  }

  /** Whether an odd number of the first `n` bits are set; from 16 on, `n` does not matter. */
  predicate Odd(w: bv16, n: nat) {
    OddAlong(Left, Top, n, w)
  }

  lemma UndoFeedback(crc: bv16)
    requires crc & 0x8000 != 0
    ensures (((((crc << 1) ^ 0x1021) ^ 0x1021) >> 1) | 0x8000) == crc
    ensures ((crc << 1) ^ 0x1021) & 1 == 1
  {
  }

  lemma UndoPlain(crc: bv16)
    requires crc & 0x8000 == 0
    ensures (crc << 1) >> 1 == crc && (crc << 1) & 1 == 0
  {
  }

  /** A shift is a bijection: `Unshift` takes it back. */
  lemma ShiftCanBeUndone(crc: bv16)
    ensures Unshift(Shift(crc)) == crc
  {
    if crc & 0x8000 != 0 {
      UndoFeedback(crc);
      assert Shift(crc) == (crc << 1) ^ 0x1021;
      assert Unshift((crc << 1) ^ 0x1021) == crc;
    } else {
      UndoPlain(crc);
      assert Shift(crc) == crc << 1;
      assert Unshift(crc << 1) == crc;
    }
  }

  lemma XorCancels(a: bv16, b: bv16, x: bv16)
    requires Xor(a, x) == Xor(b, x)
    ensures a == b
  {
  }

  lemma LeftDistributes(a: bv16, b: bv16)
    ensures Left(Xor(a, b)) == Xor(Left(a), Left(b))
  {
  }

  lemma LaterWithFeedback(crc: bv16, low: bv16)
    requires low & 0x8000 == 0 && crc & 0x8000 != 0
    ensures (crc ^ low) & 0x8000 != 0 && ((crc ^ low) << 1) ^ 0x1021 == ((crc << 1) ^ 0x1021) ^ (low << 1)
  {
  }

  lemma LaterPlain(crc: bv16, low: bv16)
    requires low & 0x8000 == 0 && crc & 0x8000 == 0
    ensures (crc ^ low) & 0x8000 == 0 && (crc ^ low) << 1 == (crc << 1) ^ (low << 1)
  {
  }

  /** A bit below the top of the register takes effect only when it gets there. */
  lemma LaterBit(crc: bv16, low: bv16)
    requires low & 0x8000 == 0
    ensures Shift(Xor(crc, low)) == Xor(Shift(crc), Left(low))
  {
    if crc & 0x8000 != 0 {
      LaterWithFeedback(crc, low);
    } else {
      LaterPlain(crc, low);
    }
  }

  lemma TopOfXor(a: bv16, b: bv16)
    ensures Top(Xor(a, b)) == (Top(a) != Top(b))
  {
  }

  lemma LeftIsLinear()
    ensures Distributes(Left, Xor)
  {
    forall x, y ensures Left(Xor(x, y)) == Xor(Left(x), Left(y)) {
      LeftDistributes(x, y);
    }
  }

  lemma TopIsLinear()
    ensures TestsApart(Top, Xor)
  {
    forall x, y ensures Top(Xor(x, y)) == (Top(x) != Top(y)) {
      TopOfXor(x, y);
    }
  }

  lemma OddAlongXor(a: bv16, b: bv16, n: nat)
    ensures OddAlong(Left, Top, n, Xor(a, b)) == (OddAlong(Left, Top, n, a) != OddAlong(Left, Top, n, b))
  {
    LeftIsLinear();
    TopIsLinear();
    OddAlongDistributes(Left, Top, Xor, n, a, b);
  }

  lemma OddXor(a: bv16, b: bv16, n: nat)
    ensures Odd(Xor(a, b), n) == (Odd(a, n) != Odd(b, n))
  {
    OddAlongXor(a, b, n);
  }

  lemma {:induction false} ZeroStays(n: nat)
    ensures Iterate(Left, n, 0) == 0
  {
    if n > 0 {
      ZeroStays(n - 1);
    }
  }

  /** The lowest bit reaches the top in fifteen moves and not before. */
  lemma OneRises()
    ensures Iterate(Left, 15, 1) == 0x8000
    ensures forall at :: 0 <= at < 15 ==> !Top(Iterate(Left, at, 1))
  {
    assert Iterate(Left, 0, 1) == 0x0001;
    assert Iterate(Left, 1, 1) == 0x0002;
    assert Iterate(Left, 2, 1) == 0x0004;
    assert Iterate(Left, 3, 1) == 0x0008;
    assert Iterate(Left, 4, 1) == 0x0010;
    assert Iterate(Left, 5, 1) == 0x0020;
    assert Iterate(Left, 6, 1) == 0x0040;
    assert Iterate(Left, 7, 1) == 0x0080;
    assert Iterate(Left, 8, 1) == 0x0100;
    assert Iterate(Left, 9, 1) == 0x0200;
    assert Iterate(Left, 10, 1) == 0x0400;
    assert Iterate(Left, 11, 1) == 0x0800;
    assert Iterate(Left, 12, 1) == 0x1000;
    assert Iterate(Left, 13, 1) == 0x2000;
    assert Iterate(Left, 14, 1) == 0x4000;
    assert Iterate(Left, 15, 1) == 0x8000;
  }

  lemma FourLefts(w: bv16)
    ensures Left(Left(Left(Left(w)))) == w << 4
  {
  }

  lemma LeftFour(w: bv16, n: nat)
    ensures Iterate(Left, n + 4, w) == Iterate(Left, n, w) << 4
  {
    var v := Iterate(Left, n, w);
    FourLefts(v);
    assert Iterate(Left, n + 2, w) == Left(Left(v));
    assert Iterate(Left, n + 4, w) == Left(Left(Iterate(Left, n + 2, w)));
  }

  lemma {:induction false} LeftLoses(w: bv16, n: nat)
    requires n >= 16
    ensures Iterate(Left, n, w) == 0
  {
    if n == 16 {
      LeftFour(w, 0);
      LeftFour(w, 4);
      LeftFour(w, 8);
      LeftFour(w, 12);
    } else {
      LeftLoses(w, n - 1);
    }
  }

  /** Moving left loses the top bit and nothing else. */
  lemma LeftMovesOdd(w: bv16, n: nat)
    requires n >= 16
    ensures Odd(Left(w), n) == (Odd(w, n) != Top(w))
  {
    OddAlongLast(Left, Top, n - 1, Left(w));
    IterateShift(Left, n - 1, w);
    LeftLoses(w, n);
  }

  lemma {:induction false} NoOnes(n: nat)
    ensures !Odd(0, n)
  {
    if n > 0 {
      NoOnes(n - 1);
    }
  }

  lemma OddTopBit(n: nat)
    requires n >= 1
    ensures Odd(0x8000, n)
  {
    NoOnes(n - 1);
  }

  lemma OddPolynomial(n: nat)
    requires n >= 16
    ensures Odd(0x1021, n)
  {
    OddTopBit(n - 15);
    assert Odd(0x4000, n - 14);
    assert Odd(0x2000, n - 13);
    assert Odd(0x1000, n - 12);
    assert Odd(0x0800, n - 11);
    assert !Odd(0x8400, n - 10);
    assert !Odd(0x4200, n - 9);
    assert !Odd(0x2100, n - 8);
    assert !Odd(0x1080, n - 7);
    assert !Odd(0x0840, n - 6);
    assert !Odd(0x0420, n - 5);
    assert !Odd(0x0210, n - 4);
    assert Odd(0x8108, n - 3);
    assert Odd(0x4084, n - 2);
    assert Odd(0x2042, n - 1);
  }

  lemma ShiftCases(crc: bv16)
    ensures Shift(crc) == if Top(crc) then Xor(Left(crc), 0x1021) else Left(crc)
  {
  }

  /** The polynomial has an even number of terms, so a shift keeps parity. */
  lemma ShiftKeepsOdd(crc: bv16, n: nat)
    requires n >= 16
    ensures Odd(Shift(crc), n) == Odd(crc, n)
  {
    ShiftCases(crc);
    LeftMovesOdd(crc, n);
    OddPolynomial(n);
    OddXor(Left(crc), 0x1021, n);
  }

  lemma SmallWord(w: bv16)
    requires (w as nat) < 0x8000
    ensures w & 0x8000 == 0
  {
  }

  lemma DoubleRaw(w: bv16)
    requires w & 0x8000 == 0
    ensures ((w << 1) as nat) == 2 * (w as nat)
  {
  }

  lemma DoubleAndOneRaw(w: bv16)
    requires w & 0x8000 == 0
    ensures (((w << 1) ^ 1) as nat) == 2 * (w as nat) + 1
  {
  }

  lemma XorZero(w: bv16)
    ensures w ^ 0 == w
  {
  }

  lemma Double(w: bv16)
    requires (w as nat) < 0x8000
    ensures (Xor(Left(w), 0) as nat) == 2 * (w as nat)
  {
    SmallWord(w);
    DoubleRaw(w);
    assert Left(w) == w << 1;
    XorZero(Left(w));
    assert Xor(Left(w), 0) == Left(w);
  }

  lemma DoubleAndOne(w: bv16)
    requires (w as nat) < 0x8000
    ensures (Xor(Left(w), 1) as nat) == 2 * (w as nat) + 1
  {
    SmallWord(w);
    DoubleAndOneRaw(w);
    assert Left(w) == w << 1;
    assert Xor(Left(w), 1) == (w << 1) ^ 1;
  }

  lemma WordOfNumber(w: bv16)
    ensures (w as nat) < 0x1_0000 && ((w as nat) as bv16) == w
  {
  }

  lemma XorAssociatesRaw(a: bv16, b: bv16, c: bv16)
    ensures a ^ (b ^ c) == (a ^ b) ^ c
  {
  }

  lemma XorAssociates(a: bv16, b: bv16, c: bv16)
    ensures Xor(a, Xor(b, c)) == Xor(Xor(a, b), c)
  {
    XorAssociatesRaw(a, b, c);
    assert Xor(b, c) == b ^ c && Xor(a, b) == a ^ b;
  }

  lemma XorZeroExactly(a: bv16, b: bv16)
    ensures Xor(a, b) == 0 <==> a == b
  {
  }

  lemma EightLefts(w: bv16)
    ensures (w << 4) << 4 == w << 8
  {
  }

  lemma LeftEight(w: bv16)
    ensures Iterate(Left, 8, w) == w << 8
  {
    LeftFour(w, 0);
    LeftFour(w, 4);
    EightLefts(w);
  }

  lemma {:induction false} ShiftOfZero(n: nat)
    ensures Iterate(Shift, n, 0) == 0
  {
    if n > 0 {
      ShiftOfZero(n - 1);
      assert Shift(0) == 0;
    }
  }

  lemma XorCommutes(a: bv16, b: bv16)
    ensures Xor(a, b) == Xor(b, a)
  {
  }

  lemma XorWithItself(a: bv16)
    ensures Xor(a, a) == 0 && Xor(a, 0) == a
  {
    XorZero(a);
  }

  /** Fed back once, twice or not at all: the feedback counts modulo two. */
  lemma FeedbackXor(a: bv16, b: bv16, c: bv16)
    ensures Xor(Xor(a, c), b) == Xor(Xor(a, b), c)
    ensures Xor(a, Xor(b, c)) == Xor(Xor(a, b), c)
    ensures Xor(Xor(a, c), Xor(b, c)) == Xor(a, b)
  {
    XorAssociates(a, c, b);
    XorCommutes(c, b);
    XorAssociates(a, b, c);
    XorAssociates(Xor(a, c), b, c);
    XorAssociates(Xor(a, b), c, c);
    XorWithItself(c);
    XorWithItself(Xor(a, b));
  }

  /** A shift is linear. */
  lemma ShiftIsLinear(a: bv16, b: bv16)
    ensures Shift(Xor(a, b)) == Xor(Shift(a), Shift(b))
  {
    ShiftCases(a);
    ShiftCases(b);
    ShiftCases(Xor(a, b));
    TopOfXor(a, b);
    LeftDistributes(a, b);
    FeedbackXor(Left(a), Left(b), 0x1021);
    if Top(a) {
      assert Shift(a) == Xor(Left(a), 0x1021);
    } else {
      assert Shift(a) == Left(a);
    }
    if Top(b) {
      assert Shift(b) == Xor(Left(b), 0x1021);
    } else {
      assert Shift(b) == Left(b);
    }
  }

  lemma TopStaysAway0()
    requires Avoids(Shift, 0x8000, 47, 0x1B98)
    ensures Avoids(Shift, 0x8000, 63, 0x8000)
  {
    assert Avoids(Shift, 0x8000, 48, 0x0DCC);
    assert Avoids(Shift, 0x8000, 49, 0x06E6);
    assert Avoids(Shift, 0x8000, 50, 0x0373);
    assert Avoids(Shift, 0x8000, 51, 0x89A9);
    assert Avoids(Shift, 0x8000, 52, 0xCCC4);
    assert Avoids(Shift, 0x8000, 53, 0x6662);
    assert Avoids(Shift, 0x8000, 54, 0x3331);
    assert Avoids(Shift, 0x8000, 55, 0x9188);
    assert Avoids(Shift, 0x8000, 56, 0x48C4);
    assert Avoids(Shift, 0x8000, 57, 0x2462);
    assert Avoids(Shift, 0x8000, 58, 0x1231);
    assert Avoids(Shift, 0x8000, 59, 0x8108);
    assert Avoids(Shift, 0x8000, 60, 0x4084);
    assert Avoids(Shift, 0x8000, 61, 0x2042);
    assert Avoids(Shift, 0x8000, 62, 0x1021);
  }

  lemma TopStaysAway1()
    requires Avoids(Shift, 0x8000, 31, 0xDD38)
    ensures Avoids(Shift, 0x8000, 47, 0x1B98)
  {
    assert Avoids(Shift, 0x8000, 32, 0x6E9C);
    assert Avoids(Shift, 0x8000, 33, 0x374E);
    assert Avoids(Shift, 0x8000, 34, 0x1BA7);
    assert Avoids(Shift, 0x8000, 35, 0x85C3);
    assert Avoids(Shift, 0x8000, 36, 0xCAF1);
    assert Avoids(Shift, 0x8000, 37, 0xED68);
    assert Avoids(Shift, 0x8000, 38, 0x76B4);
    assert Avoids(Shift, 0x8000, 39, 0x3B5A);
    assert Avoids(Shift, 0x8000, 40, 0x1DAD);
    assert Avoids(Shift, 0x8000, 41, 0x86C6);
    assert Avoids(Shift, 0x8000, 42, 0x4363);
    assert Avoids(Shift, 0x8000, 43, 0xA9A1);
    assert Avoids(Shift, 0x8000, 44, 0xDCC0);
    assert Avoids(Shift, 0x8000, 45, 0x6E60);
    assert Avoids(Shift, 0x8000, 46, 0x3730);
  }

  lemma TopStaysAway2()
    requires Avoids(Shift, 0x8000, 15, 0xD420)
    ensures Avoids(Shift, 0x8000, 31, 0xDD38)
  {
    assert Avoids(Shift, 0x8000, 16, 0x6A10);
    assert Avoids(Shift, 0x8000, 17, 0x3508);
    assert Avoids(Shift, 0x8000, 18, 0x1A84);
    assert Avoids(Shift, 0x8000, 19, 0x0D42);
    assert Avoids(Shift, 0x8000, 20, 0x06A1);
    assert Avoids(Shift, 0x8000, 21, 0x8B40);
    assert Avoids(Shift, 0x8000, 22, 0x45A0);
    assert Avoids(Shift, 0x8000, 23, 0x22D0);
    assert Avoids(Shift, 0x8000, 24, 0x1168);
    assert Avoids(Shift, 0x8000, 25, 0x08B4);
    assert Avoids(Shift, 0x8000, 26, 0x045A);
    assert Avoids(Shift, 0x8000, 27, 0x022D);
    assert Avoids(Shift, 0x8000, 28, 0x8906);
    assert Avoids(Shift, 0x8000, 29, 0x4483);
    assert Avoids(Shift, 0x8000, 30, 0xAA51);
  }

  lemma TopStaysAway3()
    ensures Avoids(Shift, 0x8000, 15, 0xD420)
  {
    assert Avoids(Shift, 0x8000, 1, 0x7B68);
    assert Avoids(Shift, 0x8000, 2, 0x3DB4);
    assert Avoids(Shift, 0x8000, 3, 0x1EDA);
    assert Avoids(Shift, 0x8000, 4, 0x0F6D);
    assert Avoids(Shift, 0x8000, 5, 0x8FA6);
    assert Avoids(Shift, 0x8000, 6, 0x47D3);
    assert Avoids(Shift, 0x8000, 7, 0xABF9);
    assert Avoids(Shift, 0x8000, 8, 0xDDEC);
    assert Avoids(Shift, 0x8000, 9, 0x6EF6);
    assert Avoids(Shift, 0x8000, 10, 0x377B);
    assert Avoids(Shift, 0x8000, 11, 0x93AD);
    assert Avoids(Shift, 0x8000, 12, 0xC1C6);
    assert Avoids(Shift, 0x8000, 13, 0x60E3);
    assert Avoids(Shift, 0x8000, 14, 0xB861);
  }

  /** A bit at the top does not come back alone within 63 shifts. */
  lemma TopStaysAway(n: nat)
    requires 1 <= n <= 63
    ensures Iterate(Shift, n, 0x8000) != 0x8000
  {
    TopStaysAway3();
    TopStaysAway2();
    TopStaysAway1();
    TopStaysAway0();
    AvoidsAll(Shift, 0x8000, 63, 0x8000, n);
  }
}
