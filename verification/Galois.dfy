/**
 * The field GF(256) of QR symbols: bytes as polynomials over bits, multiplication without tables,
 * and the program's logarithm tables, proved to agree with it.
 */
module Galois {

  // ---------------------------------------------------------- exclusive or

  function Parity(a: nat, b: nat): nat {
    if a % 2 == b % 2 then 0 else 1
  }

  /** Bitwise exclusive or of natural numbers. */
  function Xor(a: nat, b: nat): (r: nat)
    decreases a + b
  {
    if a == 0 then b else if b == 0 then a else 2 * Xor(a / 2, b / 2) + Parity(a, b)
  }

  lemma XorStep(a: nat, b: nat)
    ensures Xor(a, b) == 2 * Xor(a / 2, b / 2) + Parity(a, b)
    ensures Xor(a, b) / 2 == Xor(a / 2, b / 2) && Xor(a, b) % 2 == Parity(a, b)
  {
  }

  lemma {:induction false} XorComm(a: nat, b: nat)
    ensures Xor(a, b) == Xor(b, a)
    decreases a + b
  {
    if a != 0 && b != 0 {
      XorComm(a / 2, b / 2);
    }
  }

  lemma {:induction false} XorAssoc(a: nat, b: nat, c: nat)
    ensures Xor(Xor(a, b), c) == Xor(a, Xor(b, c))
    decreases a + b + c
  {
    if a != 0 && b != 0 && c != 0 {
      XorStep(a, b);
      XorStep(b, c);
      XorStep(Xor(a, b), c);
      XorStep(a, Xor(b, c));
      XorAssoc(a / 2, b / 2, c / 2);
    }
  }

  lemma {:induction false} XorSelf(a: nat)
    ensures Xor(a, a) == 0
    decreases a
  {
    if a != 0 {
      XorSelf(a / 2);
    }
  }

  /** Four terms change partners. */
  lemma XorSwap(a: nat, b: nat, c: nat, d: nat)
    ensures Xor(Xor(a, b), Xor(c, d)) == Xor(Xor(a, c), Xor(b, d))
  {
    XorAssoc(a, b, Xor(c, d));
    XorAssoc(b, c, d);
    XorComm(b, c);
    XorAssoc(c, b, d);
    XorAssoc(a, c, Xor(b, d));
  }

  lemma XorCancel(a: nat, b: nat, c: nat)
    ensures Xor(Xor(a, c), Xor(b, c)) == Xor(a, b)
  {
    XorSwap(a, c, b, c);
    XorSelf(c);
  }

  function Low(a: nat, top: nat): nat {
    if a >= top then a - top else a
  }

  predicate IsPower(n: nat) {
    n == 1 || (n > 1 && n % 2 == 0 && IsPower(n / 2))
  }

  /** The top bit of numbers below a power of two is apart from the rest. */
  lemma {:induction false} XorTop(a: nat, b: nat, top: nat)
    requires IsPower(top) && a < 2 * top && b < 2 * top
    ensures Xor(a, b) == Xor(Low(a, top), Low(b, top)) + if (a >= top) != (b >= top) then top else 0
    ensures Xor(Low(a, top), Low(b, top)) < top
    decreases top
  {
    XorStep(a, b);
    XorStep(Low(a, top), Low(b, top));
    if top > 1 {
      LowHalf(a, top);
      LowHalf(b, top);
      XorTop(a / 2, b / 2, top / 2);
    }
  }

  lemma LowHalf(a: nat, top: nat)
    requires top % 2 == 0
    ensures Low(a, top) / 2 == Low(a / 2, top / 2) && Low(a, top) % 2 == a % 2 && (a >= top <==> a / 2 >= top / 2)
  {
  }

  lemma Powers()
    ensures IsPower(128) && IsPower(256)
  {
    assert IsPower(2) && IsPower(4) && IsPower(8) && IsPower(16) && IsPower(32) && IsPower(64);
  }

  lemma XorByte(a: nat, b: nat)
    requires a < 256 && b < 256
    ensures Xor(a, b) < 256 && (Xor(a, b) >= 128 <==> (a >= 128) != (b >= 128))
    ensures Low(Xor(a, b), 128) == Xor(Low(a, 128), Low(b, 128))
  {
    Powers();
    XorTop(a, b, 128);
  }

  // ------------------------------------------------------------- the field

  /** x^8, reduced modulo x^8 + x^4 + x^3 + x^2 + 1. */
  const EIGHTH := 0x1d

  /** Multiplication by x, reduced. */
  function Times2(a: nat): nat {
    if a < 128 then 2 * a else Xor(2 * (a - 128), EIGHTH)
  }

  /** Multiplication in GF(256) without tables: by each bit of the second factor. */
  function Mul(a: nat, b: nat): (r: nat)
    decreases b
  {
    if b == 0 then 0 else Xor(if b % 2 == 1 then a else 0, Mul(Times2(a), b / 2))
  }

  lemma Times2Byte(a: nat)
    requires a < 256
    ensures Times2(a) < 256
  {
    if a >= 128 {
      XorByte(2 * (a - 128), EIGHTH);
    }
  }

  lemma XorDouble(a: nat, b: nat)
    ensures Xor(2 * a, 2 * b) == 2 * Xor(a, b)
  {
    XorStep(2 * a, 2 * b);
  }

  lemma Times2Xor(a: nat, b: nat)
    requires a < 256 && b < 256
    ensures Times2(Xor(a, b)) == Xor(Times2(a), Times2(b))
  {
    var la, lb := Low(a, 128), Low(b, 128);
    XorByte(a, b);
    XorDouble(la, lb);
    if a >= 128 && b >= 128 {
      XorCancel(2 * la, 2 * lb, EIGHTH);
    } else if a >= 128 {
      XorComm(Xor(2 * la, EIGHTH), 2 * lb);
      XorAssoc(2 * lb, 2 * la, EIGHTH);
      XorComm(2 * lb, 2 * la);
    } else if b >= 128 {
      XorAssoc(2 * la, 2 * lb, EIGHTH);
    }
  }

  lemma {:induction false} MulByte(a: nat, b: nat)
    requires a < 256
    ensures Mul(a, b) < 256
    decreases b
  {
    if b != 0 {
      Times2Byte(a);
      MulByte(Times2(a), b / 2);
      XorByte(if b % 2 == 1 then a else 0, Mul(Times2(a), b / 2));
    }
  }

  lemma MulStep(a: nat, b: nat)
    ensures Mul(a, b) == Xor(if b % 2 == 1 then a else 0, Mul(Times2(a), b / 2))
  {
  }

  lemma {:induction false} MulZero(b: nat)
    ensures Mul(0, b) == 0
    decreases b
  {
    if b != 0 {
      MulZero(b / 2);
    }
  }

  lemma MulUnit(a: nat)
    ensures Mul(a, 1) == a
  {
    XorComm(a, 0);
  }

  lemma {:induction false} MulXorRight(a: nat, b: nat, c: nat)
    ensures Mul(a, Xor(b, c)) == Xor(Mul(a, b), Mul(a, c))
    decreases b + c
  {
    if b == 0 || c == 0 {
      XorComm(Mul(a, b), Mul(a, c));
    } else {
      XorStep(b, c);
      MulXorRight(Times2(a), b / 2, c / 2);
      MulStep(a, Xor(b, c));
      var t := Times2(a);
      XorSwap(if b % 2 == 1 then a else 0, Mul(t, b / 2), if c % 2 == 1 then a else 0, Mul(t, c / 2));
      XorSelf(a);
    }
  }

  lemma {:induction false} MulXorLeft(a: nat, c: nat, b: nat)
    requires a < 256 && c < 256
    ensures Mul(Xor(a, c), b) == Xor(Mul(a, b), Mul(c, b))
    decreases b
  {
    if b != 0 {
      Times2Byte(a);
      Times2Byte(c);
      Times2Xor(a, c);
      MulXorLeft(Times2(a), Times2(c), b / 2);
      XorSwap(if b % 2 == 1 then a else 0, Mul(Times2(a), b / 2), if b % 2 == 1 then c else 0, Mul(Times2(c), b / 2));
    }
  }

  lemma {:induction false} MulTimes2Left(a: nat, b: nat)
    requires a < 256
    ensures Mul(Times2(a), b) == Times2(Mul(a, b))
    decreases b
  {
    if b != 0 {
      var t := Times2(a);
      Times2Byte(a);
      MulTimes2Left(t, b / 2);
      MulByte(t, b / 2);
      Times2Xor(if b % 2 == 1 then a else 0, Mul(t, b / 2));
    }
  }

  /** A product by the half and the last bit of the first factor. */
  lemma MulHalves(a: nat, m: nat)
    requires a < 256
    ensures Mul(a, m) == Xor(Times2(Mul(a / 2, m)), Mul(a % 2, m))
  {
    Recompose(a);
    MulOfParts(a / 2, a % 2, m);
  }

  lemma Recompose(a: nat)
    ensures Xor(2 * (a / 2), a % 2) == a
  {
    XorStep(2 * (a / 2), a % 2);
    XorComm(a / 2, 0);
  }

  lemma MulOfParts(h: nat, b: nat, m: nat)
    requires h < 128 && b < 2
    ensures Mul(Xor(2 * h, b), m) == Xor(Times2(Mul(h, m)), Mul(b, m))
  {
    MulTimes2Left(h, m);
    MulXorLeft(2 * h, b, m);
  }

  /** Two factors that agree on the unit agree on every byte. */
  lemma {:induction false} MulAgrees(a: nat, m: nat, n: nat)
    requires a < 256 && Mul(1, m) == Mul(1, n)
    ensures Mul(a, m) == Mul(a, n)
    decreases a
  {
    MulZero(m);
    MulZero(n);
    if a != 0 {
      MulAgrees(a / 2, m, n);
      MulHalves(a, m);
      MulHalves(a, n);
    }
  }

  /** An even second factor moves one x over to the first. */
  lemma MulTwice(a: nat, n: nat)
    ensures Mul(a, 2 * n) == Mul(Times2(a), n)
  {
    MulStep(a, 2 * n);
  }

  function Times16(a: nat): nat {
    Times2(Times2(Times2(Times2(a))))
  }

  lemma MulSixteen(a: nat, n: nat, k: nat)
    requires n == 16 * k
    ensures Mul(a, n) == Mul(Times16(a), k)
  {
    MulTwice(a, 8 * k);
    MulTwice(Times2(a), 4 * k);
    MulTwice(Times2(Times2(a)), 2 * k);
    MulTwice(Times2(Times2(Times2(a))), k);
    assert n == 2 * (8 * k);
  }

  lemma PowersOfUnit()
    ensures Times16(1) == 16 && Times16(16) == 29
  {
  }

  /** x^8 is x^4 + x^3 + x^2 + 1. */
  lemma EighthPower(n: nat)
    requires n == 256
    ensures Mul(1, n) == 29
  {
    PowersOfUnit();
    MulSixteen(1, n, 16);
    SixteenOnce(16, 16);
  }

  lemma SixteenOnce(a: nat, n: nat)
    requires n == 16
    ensures Mul(a, n) == Times16(a)
  {
    MulSixteen(a, n, 1);
    MulUnit(Times16(a));
  }

  lemma FiveBits(a: nat, n: nat)
    requires n == 29
    ensures var a2 := Times2(Times2(a));
            Mul(a, n) == Xor(a, Xor(0, Xor(a2, Xor(Times2(a2), Times2(Times2(a2))))))
  {
    var a1 := Times2(a);
    var a2 := Times2(a1);
    var a3 := Times2(a2);
    MulStep(a, n);
    MulStep(a1, n / 2);
    MulStep(a2, n / 4);
    MulStep(a3, n / 8);
    MulUnit(Times2(a3));
  }

  lemma EighthFolded(n: nat)
    requires n == 29
    ensures Mul(1, n) == 29
  {
    FiveBits(1, n);
    EighthSum();
  }

  lemma EighthSum()
    ensures Xor(1, Xor(0, Xor(4, Xor(8, 16)))) == 29
  {
    assert Xor(8, 16) == 24;
    assert Xor(4, 24) == 28;
    assert Xor(1, 28) == 29;
  }

  lemma MulEighth(a: nat, n: nat, m: nat)
    requires a < 256 && n == 256 && m == 29
    ensures Mul(a, n) == Mul(a, m)
  {
    EighthPower(n);
    EighthFolded(m);
    MulAgrees(a, n, m);
  }

  /** Multiplying the second factor by x multiplies the product by x. */
  lemma MulTimes2(a: nat, b: nat)
    requires a < 256 && b < 256
    ensures Mul(a, Times2(b)) == Times2(Mul(a, b))
  {
    MulDouble(a, b);
    if b >= 128 {
      MulFolded(a, b, 256, EIGHTH);
    }
  }

  lemma MulDouble(a: nat, b: nat)
    requires a < 256
    ensures Mul(a, 2 * b) == Times2(Mul(a, b))
  {
    MulStep(a, 2 * b);
    MulTimes2Left(a, b);
  }

  lemma MulFolded(a: nat, b: nat, n: nat, m: nat)
    requires a < 256 && 128 <= b < 256 && n == 256 && m == 29
    ensures Mul(a, Xor(2 * (b - 128), m)) == Mul(a, 2 * b)
  {
    var l := 2 * (b - 128);
    Powers();
    XorTop(l, n, n);
    XorComm(l, 0);
    assert Xor(l, n) == 2 * b;
    MulXorRight(a, l, n);
    MulXorRight(a, l, m);
    MulEighth(a, n, m);
  }

  // ------------------------------------------------------------- the tables

  /** The logarithm and antilogarithm tables, sixteen entries to a row. */
  const LOG_ROWS: seq<seq<nat>> := [
    [0, 0, 1, 25, 2, 50, 26, 198, 3, 223, 51, 238, 27, 104, 199, 75],
    [4, 100, 224, 14, 52, 141, 239, 129, 28, 193, 105, 248, 200, 8, 76, 113],
    [5, 138, 101, 47, 225, 36, 15, 33, 53, 147, 142, 218, 240, 18, 130, 69],
    [29, 181, 194, 125, 106, 39, 249, 185, 201, 154, 9, 120, 77, 228, 114, 166],
    [6, 191, 139, 98, 102, 221, 48, 253, 226, 152, 37, 179, 16, 145, 34, 136],
    [54, 208, 148, 206, 143, 150, 219, 189, 241, 210, 19, 92, 131, 56, 70, 64],
    [30, 66, 182, 163, 195, 72, 126, 110, 107, 58, 40, 84, 250, 133, 186, 61],
    [202, 94, 155, 159, 10, 21, 121, 43, 78, 212, 229, 172, 115, 243, 167, 87],
    [7, 112, 192, 247, 140, 128, 99, 13, 103, 74, 222, 237, 49, 197, 254, 24],
    [227, 165, 153, 119, 38, 184, 180, 124, 17, 68, 146, 217, 35, 32, 137, 46],
    [55, 63, 209, 91, 149, 188, 207, 205, 144, 135, 151, 178, 220, 252, 190, 97],
    [242, 86, 211, 171, 20, 42, 93, 158, 132, 60, 57, 83, 71, 109, 65, 162],
    [31, 45, 67, 216, 183, 123, 164, 118, 196, 23, 73, 236, 127, 12, 111, 246],
    [108, 161, 59, 82, 41, 157, 85, 170, 251, 96, 134, 177, 187, 204, 62, 90],
    [203, 89, 95, 176, 156, 169, 160, 81, 11, 245, 22, 235, 122, 117, 44, 215],
    [79, 174, 213, 233, 230, 231, 173, 232, 116, 214, 244, 234, 168, 80, 88, 175]
  ]

  const EXP_ROWS: seq<seq<nat>> := [
    [1, 2, 4, 8, 16, 32, 64, 128, 29, 58, 116, 232, 205, 135, 19, 38],
    [76, 152, 45, 90, 180, 117, 234, 201, 143, 3, 6, 12, 24, 48, 96, 192],
    [157, 39, 78, 156, 37, 74, 148, 53, 106, 212, 181, 119, 238, 193, 159, 35],
    [70, 140, 5, 10, 20, 40, 80, 160, 93, 186, 105, 210, 185, 111, 222, 161],
    [95, 190, 97, 194, 153, 47, 94, 188, 101, 202, 137, 15, 30, 60, 120, 240],
    [253, 231, 211, 187, 107, 214, 177, 127, 254, 225, 223, 163, 91, 182, 113, 226],
    [217, 175, 67, 134, 17, 34, 68, 136, 13, 26, 52, 104, 208, 189, 103, 206],
    [129, 31, 62, 124, 248, 237, 199, 147, 59, 118, 236, 197, 151, 51, 102, 204],
    [133, 23, 46, 92, 184, 109, 218, 169, 79, 158, 33, 66, 132, 21, 42, 84],
    [168, 77, 154, 41, 82, 164, 85, 170, 73, 146, 57, 114, 228, 213, 183, 115],
    [230, 209, 191, 99, 198, 145, 63, 126, 252, 229, 215, 179, 123, 246, 241, 255],
    [227, 219, 171, 75, 150, 49, 98, 196, 149, 55, 110, 220, 165, 87, 174, 65],
    [130, 25, 50, 100, 200, 141, 7, 14, 28, 56, 112, 224, 221, 167, 83, 166],
    [81, 162, 89, 178, 121, 242, 249, 239, 195, 155, 43, 86, 172, 69, 138, 9],
    [18, 36, 72, 144, 61, 122, 244, 245, 247, 243, 251, 235, 203, 139, 11, 22],
    [44, 88, 176, 125, 250, 233, 207, 131, 27, 54, 108, 216, 173, 71, 142]
  ]

  function LogAt(c: nat): nat
    requires c < 256
  {
    LOG_ROWS[c / 16][c % 16]
  }

  function ExpAt(i: nat): nat
    requires i < 255
  {
    EXP_ROWS[i / 16][i % 16]
  }

  const GALIOS_LOG: seq<nat> := seq(256, c requires 0 <= c < 256 => LogAt(c))

  /** One period twice over, so that the sum of two logarithms is still an index. */
  const GALIOS_EXP: seq<nat> := seq(510, i requires 0 <= i < 510 => ExpAt(i % 255))

  ghost predicate PowerAt(exp: seq<nat>, i: nat)
    requires 0 < i < |exp|
  {
    exp[i] == Times2(exp[i - 1])
  }

  /** What the division needs of its tables: powers of x, and the logarithm of every unit. */
  ghost predicate GoodTables(exp: seq<nat>, log: seq<nat>) {
    && |exp| == 510 && |log| == 256 && exp[0] == 1
    && (forall i :: 0 < i < 510 ==> PowerAt(exp, i))
    && (forall i {:trigger exp[i]} :: 0 <= i < 510 ==> exp[i] < 256)
    && (forall c {:trigger log[c]} :: 0 < c < 256 ==> log[c] < 255 && exp[log[c]] == c)
  }

  /** Multiplication by x in ordinary arithmetic: folding flips bits 0, 2, 3 and 4. */
  function Shift(a: nat): int {
    if a < 128 then 2 * a else 2 * (a - 128) + 29 - 8 * (((a - 128) / 2) % 8)
  }

  lemma Flip1(y: nat, n: nat)
    requires n == 1
    ensures Xor(y, n) == y + 1 - 2 * (y % 2)
  {
    XorStep(y, n);
    XorComm(y / 2, 0);
  }

  lemma Flip2(y: nat, n: nat)
    requires n == 3
    ensures Xor(y, n) == y + 3 - 2 * (y % 4)
  {
    XorStep(y, n);
    Flip1(y / 2, n / 2);
    Halves2(y);
  }

  lemma Halves2(y: nat)
    ensures y % 4 == 2 * ((y / 2) % 2) + y % 2
  {
  }

  lemma Halves(y: nat)
    ensures y % 8 == 2 * ((y / 2) % 4) + y % 2
  {
  }

  lemma Flip3(y: nat, n: nat)
    requires n == 7
    ensures Xor(y, n) == y + 7 - 2 * (y % 8)
  {
    XorStep(y, n);
    Flip2(y / 2, n / 2);
    Halves(y);
  }

  lemma ShiftIsTimes2(a: nat)
    requires a < 256
    ensures Shift(a) == Times2(a)
  {
    if a >= 128 {
      FoldIsShift(2 * (a - 128), EIGHTH);
    }
  }

  lemma FoldIsShift(x: nat, n: nat)
    requires x % 2 == 0 && n == 29
    ensures Xor(x, n) == x + 29 - 8 * ((x / 4) % 8)
  {
    XorStep(x, n);
    MiddleBits(x / 2, n / 2);
  }

  lemma MiddleBits(y: nat, n: nat)
    requires n == 14
    ensures Xor(y, n) == y + 14 - 4 * ((y / 2) % 8)
  {
    XorStep(y, n);
    Flip3(y / 2, n / 2);
  }

  /** Each entry of a row is x times the one before. */
  predicate Doubles(r: seq<nat>)
    requires 15 <= |r| <= 16
  {
    && r[1] == Shift(r[0]) && r[2] == Shift(r[1]) && r[3] == Shift(r[2]) && r[4] == Shift(r[3])
        && r[5] == Shift(r[4]) && r[6] == Shift(r[5]) && r[7] == Shift(r[6])
    && r[8] == Shift(r[7]) && r[9] == Shift(r[8]) && r[10] == Shift(r[9]) && r[11] == Shift(r[10])
        && r[12] == Shift(r[11]) && r[13] == Shift(r[12]) && r[14] == Shift(r[13])
    && (|r| == 16 ==> r[15] == Shift(r[14]))
  }

  lemma DoublesAt(r: seq<nat>, j: nat)
    requires 15 <= |r| <= 16 && Doubles(r) && j + 1 < |r|
    ensures r[j + 1] == Shift(r[j])
  {
    assert j == 0 || j == 1 || j == 2 || j == 3 || j == 4 || j == 5 || j == 6 || j == 7 || j == 8 || j == 9 || j == 10 || j == 11
           || j == 12 || j == 13 || j == 14;
  }

  /** Half a row of logarithms leads back to the numbers that it belongs to. */
  predicate Inverts(from: nat)
    requires from + 7 < 256
  {
    && InvertsAt(from) && InvertsAt(from + 1) && InvertsAt(from + 2) && InvertsAt(from + 3)
    && InvertsAt(from + 4) && InvertsAt(from + 5) && InvertsAt(from + 6) && InvertsAt(from + 7)
  }

  predicate InvertsAt(c: nat)
    requires c < 256
  {
    c == 0 || (LogAt(c) < 255 && ExpAt(LogAt(c)) == c)
  }

  lemma FirstRowsDouble() ensures Doubles(EXP_ROWS[0]) && Doubles(EXP_ROWS[1]) { }

  lemma SecondRowsDouble() ensures Doubles(EXP_ROWS[2]) && Doubles(EXP_ROWS[3]) { }

  lemma ThirdRowsDouble() ensures Doubles(EXP_ROWS[4]) && Doubles(EXP_ROWS[5]) { }

  lemma FourthRowsDouble() ensures Doubles(EXP_ROWS[6]) && Doubles(EXP_ROWS[7]) { }

  lemma FifthRowsDouble() ensures Doubles(EXP_ROWS[8]) && Doubles(EXP_ROWS[9]) { }

  lemma SixthRowsDouble() ensures Doubles(EXP_ROWS[10]) && Doubles(EXP_ROWS[11]) { }

  lemma SeventhRowsDouble() ensures Doubles(EXP_ROWS[12]) && Doubles(EXP_ROWS[13]) { }

  lemma EighthRowsDouble() ensures Doubles(EXP_ROWS[14]) && Doubles(EXP_ROWS[15]) { }

  lemma RowZeroInverts() ensures Inverts(0) { }

  lemma RowZeroAlsoInverts() ensures Inverts(8) { }

  lemma RowOneInverts() ensures Inverts(16) { }

  lemma RowOneAlsoInverts() ensures Inverts(24) { }

  lemma RowTwoInverts() ensures Inverts(32) { }

  lemma RowTwoAlsoInverts() ensures Inverts(40) { }

  lemma RowThreeInverts() ensures Inverts(48) { }

  lemma RowThreeAlsoInverts() ensures Inverts(56) { }

  lemma RowFourInverts() ensures Inverts(64) { }

  lemma RowFourAlsoInverts() ensures Inverts(72) { }

  lemma RowFiveInverts() ensures Inverts(80) { }

  lemma RowFiveAlsoInverts() ensures Inverts(88) { }

  lemma RowSixInverts() ensures Inverts(96) { }

  lemma RowSixAlsoInverts() ensures Inverts(104) { }

  lemma RowSevenInverts() ensures Inverts(112) { }

  lemma RowSevenAlsoInverts() ensures Inverts(120) { }

  lemma RowEightInverts() ensures Inverts(128) { }

  lemma RowEightAlsoInverts() ensures Inverts(136) { }

  lemma RowNineInverts() ensures Inverts(144) { }

  lemma RowNineAlsoInverts() ensures Inverts(152) { }

  lemma RowTenInverts() ensures Inverts(160) { }

  lemma RowTenAlsoInverts() ensures Inverts(168) { }

  lemma RowElevenInverts() ensures Inverts(176) { }

  lemma RowElevenAlsoInverts() ensures Inverts(184) { }

  lemma RowTwelveInverts() ensures Inverts(192) { }

  lemma RowTwelveAlsoInverts() ensures Inverts(200) { }

  lemma RowThirteenInverts() ensures Inverts(208) { }

  lemma RowThirteenAlsoInverts() ensures Inverts(216) { }

  lemma RowFourteenInverts() ensures Inverts(224) { }

  lemma RowFourteenAlsoInverts() ensures Inverts(232) { }

  lemma RowFifteenInverts() ensures Inverts(240) { }

  lemma RowFifteenAlsoInverts() ensures Inverts(248) { }

  lemma RowsMeet(p: nat)
    requires p < 15
    ensures EXP_ROWS[p + 1][0] == Shift(EXP_ROWS[p][15])
  {
    assert p == 0 || p == 1 || p == 2 || p == 3 || p == 4 || p == 5 || p == 6 || p == 7 || p == 8 || p == 9 || p == 10 || p == 11
           || p == 12 || p == 13 || p == 14;
  }

  lemma RowsDouble(p: nat)
    requires p < 16
    ensures Doubles(EXP_ROWS[p])
  {
    match p / 2
    case 0 => FirstRowsDouble();
    case 1 => SecondRowsDouble();
    case 2 => ThirdRowsDouble();
    case 3 => FourthRowsDouble();
    case 4 => FifthRowsDouble();
    case 5 => SixthRowsDouble();
    case 6 => SeventhRowsDouble();
    case 7 => EighthRowsDouble();
  }

  /** What holds at eight consecutive numbers holds at each of them. */
  lemma OneOfEight(f: int -> bool, from: int, q: nat)
    requires q < 8
    requires f(from) && f(from + 1) && f(from + 2) && f(from + 3) && f(from + 4) && f(from + 5) && f(from + 6) && f(from + 7)
    ensures f(from + q)
  {
    assert q == 0 || q == 1 || q == 2 || q == 3 || q == 4 || q == 5 || q == 6 || q == 7;
  }

  lemma RowsInvert(p: nat)
    requires p < 32
    ensures Inverts(8 * p)
  {
    match p
    case 0 => RowZeroInverts();
    case 1 => RowZeroAlsoInverts();
    case 2 => RowOneInverts();
    case 3 => RowOneAlsoInverts();
    case 4 => RowTwoInverts();
    case 5 => RowTwoAlsoInverts();
    case 6 => RowThreeInverts();
    case 7 => RowThreeAlsoInverts();
    case 8 => RowFourInverts();
    case 9 => RowFourAlsoInverts();
    case 10 => RowFiveInverts();
    case 11 => RowFiveAlsoInverts();
    case 12 => RowSixInverts();
    case 13 => RowSixAlsoInverts();
    case 14 => RowSevenInverts();
    case 15 => RowSevenAlsoInverts();
    case 16 => RowEightInverts();
    case 17 => RowEightAlsoInverts();
    case 18 => RowNineInverts();
    case 19 => RowNineAlsoInverts();
    case 20 => RowTenInverts();
    case 21 => RowTenAlsoInverts();
    case 22 => RowElevenInverts();
    case 23 => RowElevenAlsoInverts();
    case 24 => RowTwelveInverts();
    case 25 => RowTwelveAlsoInverts();
    case 26 => RowThirteenInverts();
    case 27 => RowThirteenAlsoInverts();
    case 28 => RowFourteenInverts();
    case 29 => RowFourteenAlsoInverts();
    case 30 => RowFifteenInverts();
    case 31 => RowFifteenAlsoInverts();
  }

  /** A property of the numbers below 256 that holds in every eighth. */
  lemma InEveryEighth(g: int -> bool, c: nat)
    requires c < 256 && forall p {:trigger g(8 * p)} :: 0 <= p < 32 ==> Eighth(g, 8 * p)
    ensures g(c)
  {
    var p, q := c / 8, c % 8;
    assert g(8 * p) || !g(8 * p);
    OneOfEight(g, 8 * p, q);
    assert c == 8 * p + q;
  }

  ghost predicate Eighth(g: int -> bool, from: int) {
    g(from) && g(from + 1) && g(from + 2) && g(from + 3) && g(from + 4) && g(from + 5) && g(from + 6) && g(from + 7)
  }

  ghost predicate InvertsOrBeyond(x: int) {
    0 <= x < 256 ==> InvertsAt(x)
  }

  lemma EighthInverts(p: nat)
    requires p < 32
    ensures Eighth(x => InvertsOrBeyond(x), 8 * p)
  {
    RowsInvert(p);
  }

  lemma LogInverts(c: nat)
    requires 0 < c < 256
    ensures InvertsAt(c)
  {
    var g := x => InvertsOrBeyond(x);
    forall p | 0 <= p < 32 ensures Eighth(g, 8 * p) {
      EighthInverts(p);
    }
    InEveryEighth(g, c);
    assert InvertsOrBeyond(c);
  }

  lemma ExpDoubles(i: nat)
    requires i < 254
    ensures ExpAt(i + 1) == Shift(ExpAt(i))
  {
    var p, q := i / 16, i % 16;
    RowsDouble(p);
    if q < 15 {
      assert (i + 1) / 16 == p && (i + 1) % 16 == q + 1;
      DoublesAt(EXP_ROWS[p], q);
    } else {
      assert (i + 1) / 16 == p + 1 && (i + 1) % 16 == 0;
      RowsMeet(p);
    }
  }

  lemma ShiftByte(a: nat)
    requires a < 256
    ensures 0 <= Shift(a) < 256
  {
  }

  /** A function of the indices below 255, each value x times the one before. */
  ghost predicate StepsAt(e: nat --> nat, j: nat)
    requires forall i: nat :: i < 255 ==> e.requires(i)
    requires j < 255
  {
    j > 0 ==> e(j) == Shift(e(j - 1))
  }

  /** A cycle of powers written out twice, and its inverse, make good tables. */
  lemma {:induction false} PowersAreBytes(e: nat --> nat, j: nat)
    requires forall i: nat :: i < 255 ==> e.requires(i)
    requires j < 255 && e(0) == 1 && forall k :: 0 <= k < 255 ==> StepsAt(e, k)
    ensures e(j) < 256
    decreases j
  {
    if j > 0 {
      PowersAreBytes(e, j - 1);
      assert StepsAt(e, j);
      ShiftByte(e(j - 1));
    }
  }

  lemma CyclePower(e: nat --> nat, i: nat)
    requires forall k: nat :: k < 255 ==> e.requires(k)
    requires 0 < i < 510 && e(0) == 1 && Shift(e(254)) == 1 && forall k :: 0 <= k < 255 ==> StepsAt(e, k)
    ensures e(i % 255) == Times2(e((i - 1) % 255))
  {
    var j := (i - 1) % 255;
    PowersAreBytes(e, j);
    ShiftIsTimes2(e(j));
    assert StepsAt(e, i % 255);
    assert i % 255 == if j == 254 then 0 else j + 1;
  }

  lemma CycleIsGood(e: nat --> nat, l: nat --> nat, exp: seq<nat>, log: seq<nat>)
    requires (forall i: nat :: i < 255 ==> e.requires(i)) && (forall c: nat :: c < 256 ==> l.requires(c))
    requires |exp| == 510 && forall i {:trigger exp[i]} :: 0 <= i < 510 ==> exp[i] == e(i % 255)
    requires |log| == 256 && forall c {:trigger log[c]} :: 0 <= c < 256 ==> log[c] == l(c)
    requires e(0) == 1 && Shift(e(254)) == 1
    requires forall j :: 0 <= j < 255 ==> StepsAt(e, j)
    requires forall c {:trigger l(c)} :: 0 < c < 256 ==> l(c) < 255 && e(l(c)) == c
    ensures GoodTables(exp, log)
  {
    forall i | 0 < i < 510 ensures PowerAt(exp, i) {
      assert exp[i - 1] == e((i - 1) % 255);
      CyclePower(e, i);
    }
    forall i | 0 <= i < 510 ensures exp[i] < 256 {
      PowersAreBytes(e, i % 255);
    }
  }

  lemma ExpTable(i: nat)
    requires i < 510
    ensures |GALIOS_EXP| == 510 && GALIOS_EXP[i] == ExpAt(i % 255)
  {
  }

  lemma LogTable(c: nat)
    requires c < 256
    ensures |GALIOS_LOG| == 256 && GALIOS_LOG[c] == LogAt(c)
  {
  }

  /** The tables of the program are good: a full cycle of powers of x, and its inverse. */
  lemma TablesAreGood()
    ensures GoodTables(GALIOS_EXP, GALIOS_LOG)
  {
    forall i | 0 <= i < 510 ensures |GALIOS_EXP| == 510 && GALIOS_EXP[i] == ExpAt(i % 255) {
      ExpTable(i);
    }
    forall c | 0 <= c < 256 ensures |GALIOS_LOG| == 256 && GALIOS_LOG[c] == LogAt(c) {
      LogTable(c);
    }
    forall j | 0 <= j < 255 ensures StepsAt(ExpAt, j) {
      if j > 0 {
        ExpDoubles(j - 1);
      }
    }
    forall c | 0 < c < 256 ensures LogAt(c) < 255 && ExpAt(LogAt(c)) == c {
      LogInverts(c);
    }
    Wraps();
    CycleIsGood(ExpAt, LogAt, GALIOS_EXP, GALIOS_LOG);
  }

  lemma Wraps()
    ensures ExpAt(0) == 1 && Shift(ExpAt(254)) == 1
  {
  }

  /** Indices add up as exponents do. */
  lemma {:induction false} PowersMultiply(exp: seq<nat>, log: seq<nat>, i: nat, j: nat)
    requires GoodTables(exp, log) && i + j < 510
    ensures Mul(exp[i], exp[j]) == exp[i + j]
    decreases j
  {
    if j == 0 {
      MulUnit(exp[i]);
    } else {
      PowersMultiply(exp, log, i, j - 1);
      MulTimes2(exp[i], exp[j - 1]);
      assert PowerAt(exp, j) && PowerAt(exp, i + j);
    }
  }
}
