/**
 * The generator polynomials of the program's own table. In logarithms the recurrence of a row needs
 * nothing but the logarithms of 2^d + 1; row by row it is checked on the numbers of the table.
 */
module GeneratorTable {
  import opened Galois
  import opened ReedSolomon
  import opened Generators

  const ROW_2: seq<nat> := [
    25, 1]

  const ROW_5: seq<nat> := [
    113, 164, 166, 119, 10]

  const ROW_6: seq<nat> := [
    166, 0, 134, 5, 176, 15]

  const ROW_7: seq<nat> := [
    87, 229, 146, 149, 238, 102, 21]

  const ROW_8: seq<nat> := [
    175, 238, 208, 249, 215, 252, 196, 28]

  const ROW_10: seq<nat> := [
    251, 67, 46, 61, 118, 70, 64, 94, 32, 45]

  const ROW_13: seq<nat> := [
    74, 152, 176, 100, 86, 100, 106, 104, 130, 218, 206, 140, 78]

  const ROW_14: seq<nat> := [
    199, 249, 155, 48, 190, 124, 218, 137, 216, 87, 207, 59, 22, 91]

  const ROW_15: seq<nat> := [
    8, 183, 61, 91, 202, 37, 51, 58, 58, 237, 140, 124, 5, 99, 105]

  const ROW_16: seq<nat> := [
    120, 104, 107, 109, 102, 161, 76, 3, 91, 191, 147, 169, 182, 194, 225, 120]

  const ROW_17: seq<nat> := [
    43, 139, 206, 78, 43, 239, 123, 206, 214, 147, 24, 99, 150, 39, 243, 163, 136]

  const ROW_18: seq<nat> := [
    215, 234, 158, 94, 184, 97, 118, 170, 79, 187, 152, 148, 252, 179, 5, 98, 96, 153]

  const ROW_20: seq<nat> := [
    17, 60, 79, 50, 61, 163, 26, 187, 202, 180, 221, 225, 83, 239, 156, 164, 212, 212, 188, 190]

  const ROW_22: seq<nat> := [
    210, 171, 247, 242, 93, 230, 14, 109, 221, 53, 200, 74, 8, 172, 98, 80, 219, 134, 160, 105, 165, 231]

  const ROW_24: seq<nat> := [
    229, 121, 135, 48, 211, 117, 251, 126, 159, 180, 169, 152, 192, 226, 228, 218, 111, 0, 117, 232, 87, 96, 227, 21]

  const ROW_26: seq<nat> := [
    173, 125, 158, 2, 103, 182, 118, 17, 145, 201, 111, 28, 165, 53, 161, 21, 245, 142, 13, 102, 48, 227, 153, 145,
    218, 70]

  const ROW_28: seq<nat> := [
    168, 223, 200, 104, 224, 234, 108, 180, 110, 190, 195, 147, 205, 27, 232, 201, 21, 43, 245, 87, 42, 195, 212,
    119, 242, 37, 9, 123]

  const ROW_30: seq<nat> := [
    41, 173, 145, 152, 216, 31, 179, 182, 50, 48, 110, 86, 239, 96, 222, 125, 42, 173, 226, 193, 224, 130, 156, 37,
    251, 216, 238, 40, 192, 180]

  const GEN_POLY: map<nat, seq<nat>> := map[
    2 := ROW_2, 5 := ROW_5, 6 := ROW_6, 7 := ROW_7, 8 := ROW_8, 10 := ROW_10, 13 := ROW_13, 14 := ROW_14,
    15 := ROW_15, 16 := ROW_16, 17 := ROW_17, 18 := ROW_18, 20 := ROW_20, 22 := ROW_22, 24 := ROW_24, 26 := ROW_26,
    28 := ROW_28, 30 := ROW_30]

  /** The logarithm of 2^d + 1, for 0 < d <= 30. */
  const SUCCESSOR: seq<nat> := [
    0, 25, 50, 223, 100, 138, 191, 112, 200, 120, 21, 245, 127, 99, 224, 33, 145, 68, 240, 92, 42, 10, 235, 196, 254,
    1, 198, 104, 193, 181, 66]

  // ------------------------------------------------------------- the program's tables

  lemma TablesAreCyclic()
    ensures Cyclic(GALIOS_EXP, GALIOS_LOG)
  {
    TablesAreGood();
    forall i | 0 <= i < 255
      ensures Repeats(GALIOS_EXP, i)
    {
      ExpTable(i);
      ExpTable(i + 255);
      OnePeriod(i);
    }
  }

  lemma OnePeriod(i: nat)
    requires i < 255
    ensures (i + 255) % 255 == i % 255
  {
  }

  /** The number next to an even one, or before an odd one. */
  function Flipped(y: nat): int {
    y + 1 - 2 * (y % 2)
  }

  predicate SucceedsAs(d: nat, s: nat, x: nat, y: nat)
    requires d < 31 && s < 255
  {
    |SUCCESSOR| == 31 && SUCCESSOR[d] == s && ExpAt(d) == x && ExpAt(s) == y && y == Flipped(x) && x != 1
  }

  lemma FirstSuccessors()
    ensures SucceedsAs(1, 25, 2, 3) && SucceedsAs(2, 50, 4, 5) && SucceedsAs(3, 223, 8, 9) && SucceedsAs(4, 100, 16, 17)
    ensures SucceedsAs(5, 138, 32, 33) && SucceedsAs(6, 191, 64, 65) && SucceedsAs(7, 112, 128, 129) && SucceedsAs(8, 200, 29, 28)
    ensures SucceedsAs(9, 120, 58, 59) && SucceedsAs(10, 21, 116, 117)
  {
  }

  lemma SecondSuccessors()
    ensures SucceedsAs(11, 245, 232, 233) && SucceedsAs(12, 127, 205, 204) && SucceedsAs(13, 99, 135, 134) && SucceedsAs(14, 224, 19, 18)
    ensures SucceedsAs(15, 33, 38, 39) && SucceedsAs(16, 145, 76, 77) && SucceedsAs(17, 68, 152, 153) && SucceedsAs(18, 240, 45, 44)
    ensures SucceedsAs(19, 92, 90, 91) && SucceedsAs(20, 42, 180, 181)
  {
  }

  lemma ThirdSuccessors()
    ensures SucceedsAs(21, 10, 117, 116) && SucceedsAs(22, 235, 234, 235) && SucceedsAs(23, 196, 201, 200) && SucceedsAs(24, 254, 143, 142)
    ensures SucceedsAs(25, 1, 3, 2) && SucceedsAs(26, 198, 6, 7) && SucceedsAs(27, 104, 12, 13) && SucceedsAs(28, 193, 24, 25)
    ensures SucceedsAs(29, 181, 48, 49) && SucceedsAs(30, 66, 96, 97)
  {
  }

  lemma SuccessorIs(exp: seq<nat>, succ: seq<nat>, d: nat, s: nat, x: nat, y: nat)
    requires |exp| == 510 && |succ| == 31 && d < 31 && succ[d] == s < 255 && exp[d] == x != 1 && exp[s] == y == Flipped(x)
    ensures RightAt(exp, succ, d)
  {
    Flip1(x, 1);
  }

  lemma FirstAreRight(exp: seq<nat>, succ: seq<nat>)
    requires exp == GALIOS_EXP && succ == SUCCESSOR
    ensures RightAt(exp, succ, 1) && RightAt(exp, succ, 2) && RightAt(exp, succ, 3) && RightAt(exp, succ, 4)
    ensures RightAt(exp, succ, 5) && RightAt(exp, succ, 6) && RightAt(exp, succ, 7)
    ensures RightAt(exp, succ, 8) && RightAt(exp, succ, 9) && RightAt(exp, succ, 10)
  {
    FirstSuccessors();
    ExpTable(1);
    ExpTable(25);
    SuccessorIs(exp, succ, 1, 25, 2, 3);
    ExpTable(2);
    ExpTable(50);
    SuccessorIs(exp, succ, 2, 50, 4, 5);
    ExpTable(3);
    ExpTable(223);
    SuccessorIs(exp, succ, 3, 223, 8, 9);
    ExpTable(4);
    ExpTable(100);
    SuccessorIs(exp, succ, 4, 100, 16, 17);
    ExpTable(5);
    ExpTable(138);
    SuccessorIs(exp, succ, 5, 138, 32, 33);
    ExpTable(6);
    ExpTable(191);
    SuccessorIs(exp, succ, 6, 191, 64, 65);
    ExpTable(7);
    ExpTable(112);
    SuccessorIs(exp, succ, 7, 112, 128, 129);
    ExpTable(8);
    ExpTable(200);
    SuccessorIs(exp, succ, 8, 200, 29, 28);
    ExpTable(9);
    ExpTable(120);
    SuccessorIs(exp, succ, 9, 120, 58, 59);
    ExpTable(10);
    ExpTable(21);
    SuccessorIs(exp, succ, 10, 21, 116, 117);
  }

  lemma SecondAreRight(exp: seq<nat>, succ: seq<nat>)
    requires exp == GALIOS_EXP && succ == SUCCESSOR
    ensures RightAt(exp, succ, 11) && RightAt(exp, succ, 12) && RightAt(exp, succ, 13) && RightAt(exp, succ, 14)
    ensures RightAt(exp, succ, 15) && RightAt(exp, succ, 16) && RightAt(exp, succ, 17)
    ensures RightAt(exp, succ, 18) && RightAt(exp, succ, 19) && RightAt(exp, succ, 20)
  {
    SecondSuccessors();
    ExpTable(11);
    ExpTable(245);
    SuccessorIs(exp, succ, 11, 245, 232, 233);
    ExpTable(12);
    ExpTable(127);
    SuccessorIs(exp, succ, 12, 127, 205, 204);
    ExpTable(13);
    ExpTable(99);
    SuccessorIs(exp, succ, 13, 99, 135, 134);
    ExpTable(14);
    ExpTable(224);
    SuccessorIs(exp, succ, 14, 224, 19, 18);
    ExpTable(15);
    ExpTable(33);
    SuccessorIs(exp, succ, 15, 33, 38, 39);
    ExpTable(16);
    ExpTable(145);
    SuccessorIs(exp, succ, 16, 145, 76, 77);
    ExpTable(17);
    ExpTable(68);
    SuccessorIs(exp, succ, 17, 68, 152, 153);
    ExpTable(18);
    ExpTable(240);
    SuccessorIs(exp, succ, 18, 240, 45, 44);
    ExpTable(19);
    ExpTable(92);
    SuccessorIs(exp, succ, 19, 92, 90, 91);
    ExpTable(20);
    ExpTable(42);
    SuccessorIs(exp, succ, 20, 42, 180, 181);
  }

  lemma ThirdAreRight(exp: seq<nat>, succ: seq<nat>)
    requires exp == GALIOS_EXP && succ == SUCCESSOR
    ensures RightAt(exp, succ, 21) && RightAt(exp, succ, 22) && RightAt(exp, succ, 23) && RightAt(exp, succ, 24)
    ensures RightAt(exp, succ, 25) && RightAt(exp, succ, 26) && RightAt(exp, succ, 27)
    ensures RightAt(exp, succ, 28) && RightAt(exp, succ, 29) && RightAt(exp, succ, 30)
  {
    ThirdSuccessors();
    ExpTable(21);
    ExpTable(10);
    SuccessorIs(exp, succ, 21, 10, 117, 116);
    ExpTable(22);
    ExpTable(235);
    SuccessorIs(exp, succ, 22, 235, 234, 235);
    ExpTable(23);
    ExpTable(196);
    SuccessorIs(exp, succ, 23, 196, 201, 200);
    ExpTable(24);
    ExpTable(254);
    SuccessorIs(exp, succ, 24, 254, 143, 142);
    ExpTable(25);
    ExpTable(1);
    SuccessorIs(exp, succ, 25, 1, 3, 2);
    ExpTable(26);
    ExpTable(198);
    SuccessorIs(exp, succ, 26, 198, 6, 7);
    ExpTable(27);
    ExpTable(104);
    SuccessorIs(exp, succ, 27, 104, 12, 13);
    ExpTable(28);
    ExpTable(193);
    SuccessorIs(exp, succ, 28, 193, 24, 25);
    ExpTable(29);
    ExpTable(181);
    SuccessorIs(exp, succ, 29, 181, 48, 49);
    ExpTable(30);
    ExpTable(66);
    SuccessorIs(exp, succ, 30, 66, 96, 97);
  }

  lemma Gathered(f: int -> bool)
    requires f(1) && f(2) && f(3) && f(4) && f(5) && f(6) && f(7) && f(8) && f(9) && f(10)
    requires f(11) && f(12) && f(13) && f(14) && f(15) && f(16) && f(17) && f(18) && f(19) && f(20)
    requires f(21) && f(22) && f(23) && f(24) && f(25) && f(26) && f(27) && f(28) && f(29) && f(30)
    ensures forall d :: 0 < d < 31 ==> f(d)
  {
    forall d | 0 < d < 31
      ensures f(d)
    {
      assert d == 1 || d == 2 || d == 3 || d == 4 || d == 5 || d == 6 || d == 7 || d == 8 || d == 9 || d == 10 || d == 11 || d == 12
             || d == 13 || d == 14 || d == 15 || d == 16 || d == 17 || d == 18 || d == 19 || d == 20 || d == 21 || d == 22 || d == 23
             || d == 24 || d == 25 || d == 26 || d == 27 || d == 28 || d == 29 || d == 30;
    }
  }

  ghost predicate RightAt(exp: seq<nat>, succ: seq<nat>, d: int) {
    0 <= d < 31 && |exp| == 510 && |succ| == 31 && Succeeds(exp, succ, d)
  }

  lemma SuccessorsAreRight(exp: seq<nat>, succ: seq<nat>)
    requires exp == GALIOS_EXP && succ == SUCCESSOR
    ensures Successors(exp, succ)
  {
    FirstAreRight(exp, succ);
    SecondAreRight(exp, succ);
    ThirdAreRight(exp, succ);
    Gathered((d: int) => RightAt(exp, succ, d));
    assert RightAt(exp, succ, 1);
  }

  /** The recurrence at the first n places of a row. */
  predicate GrowsTo(row: seq<nat>, succ: seq<nat>, n: nat) {
    && (1 <= n ==> Grows(row, succ, 1)) && (2 <= n ==> Grows(row, succ, 2)) && (3 <= n ==> Grows(row, succ, 3))
    && (4 <= n ==> Grows(row, succ, 4)) && (5 <= n ==> Grows(row, succ, 5)) && (6 <= n ==> Grows(row, succ, 6))
    && (7 <= n ==> Grows(row, succ, 7)) && (8 <= n ==> Grows(row, succ, 8)) && (9 <= n ==> Grows(row, succ, 9))
    && (10 <= n ==> Grows(row, succ, 10)) && (11 <= n ==> Grows(row, succ, 11)) && (12 <= n ==> Grows(row, succ, 12))
    && (13 <= n ==> Grows(row, succ, 13)) && (14 <= n ==> Grows(row, succ, 14)) && (15 <= n ==> Grows(row, succ, 15))
    && (16 <= n ==> Grows(row, succ, 16)) && (17 <= n ==> Grows(row, succ, 17)) && (18 <= n ==> Grows(row, succ, 18))
    && (19 <= n ==> Grows(row, succ, 19)) && (20 <= n ==> Grows(row, succ, 20)) && (21 <= n ==> Grows(row, succ, 21))
    && (22 <= n ==> Grows(row, succ, 22)) && (23 <= n ==> Grows(row, succ, 23)) && (24 <= n ==> Grows(row, succ, 24))
    && (25 <= n ==> Grows(row, succ, 25)) && (26 <= n ==> Grows(row, succ, 26)) && (27 <= n ==> Grows(row, succ, 27))
    && (28 <= n ==> Grows(row, succ, 28)) && (29 <= n ==> Grows(row, succ, 29)) && (30 <= n ==> Grows(row, succ, 30))
  }

  lemma GrowsEverywhere(row: seq<nat>, succ: seq<nat>, n: nat)
    requires 0 < |row| == n <= 30 && GrowsTo(row, succ, n)
    ensures GoodRow(row, succ)
  {
    forall j | 1 <= j <= n
      ensures Grows(row, succ, j)
    {
      assert j == 1 || j == 2 || j == 3 || j == 4 || j == 5 || j == 6 || j == 7 || j == 8 || j == 9 || j == 10 || j == 11 || j == 12
             || j == 13 || j == 14 || j == 15 || j == 16 || j == 17 || j == 18 || j == 19 || j == 20 || j == 21 || j == 22 || j == 23
             || j == 24 || j == 25 || j == 26 || j == 27 || j == 28 || j == 29 || j == 30;
    }
  }

  lemma RowTwoGrows()
    ensures |ROW_2| == 2
    ensures Grows(ROW_2, SUCCESSOR, 1) && Grows(ROW_2, SUCCESSOR, 2)
  {
  }

  lemma RowTwoIsGood()
    ensures |ROW_2| == 2 && GoodRow(ROW_2, SUCCESSOR)
  {
    RowTwoGrows();
    GrowsEverywhere(ROW_2, SUCCESSOR, 2);
  }

  lemma RowFiveGrows()
    ensures |ROW_5| == 5
    ensures Grows(ROW_5, SUCCESSOR, 1) && Grows(ROW_5, SUCCESSOR, 2) && Grows(ROW_5, SUCCESSOR, 3) && Grows(ROW_5, SUCCESSOR, 4)
    ensures Grows(ROW_5, SUCCESSOR, 5)
  {
  }

  lemma RowFiveIsGood()
    ensures |ROW_5| == 5 && GoodRow(ROW_5, SUCCESSOR)
  {
    RowFiveGrows();
    GrowsEverywhere(ROW_5, SUCCESSOR, 5);
  }

  lemma RowSixGrows()
    ensures |ROW_6| == 6
    ensures Grows(ROW_6, SUCCESSOR, 1) && Grows(ROW_6, SUCCESSOR, 2) && Grows(ROW_6, SUCCESSOR, 3) && Grows(ROW_6, SUCCESSOR, 4)
    ensures Grows(ROW_6, SUCCESSOR, 5) && Grows(ROW_6, SUCCESSOR, 6)
  {
  }

  lemma RowSixIsGood()
    ensures |ROW_6| == 6 && GoodRow(ROW_6, SUCCESSOR)
  {
    RowSixGrows();
    GrowsEverywhere(ROW_6, SUCCESSOR, 6);
  }

  lemma RowSevenGrows()
    ensures |ROW_7| == 7
    ensures Grows(ROW_7, SUCCESSOR, 1) && Grows(ROW_7, SUCCESSOR, 2) && Grows(ROW_7, SUCCESSOR, 3) && Grows(ROW_7, SUCCESSOR, 4)
    ensures Grows(ROW_7, SUCCESSOR, 5) && Grows(ROW_7, SUCCESSOR, 6) && Grows(ROW_7, SUCCESSOR, 7)
  {
  }

  lemma RowSevenIsGood()
    ensures |ROW_7| == 7 && GoodRow(ROW_7, SUCCESSOR)
  {
    RowSevenGrows();
    GrowsEverywhere(ROW_7, SUCCESSOR, 7);
  }

  lemma RowEightGrows()
    ensures |ROW_8| == 8
    ensures Grows(ROW_8, SUCCESSOR, 1) && Grows(ROW_8, SUCCESSOR, 2) && Grows(ROW_8, SUCCESSOR, 3) && Grows(ROW_8, SUCCESSOR, 4)
    ensures Grows(ROW_8, SUCCESSOR, 5) && Grows(ROW_8, SUCCESSOR, 6) && Grows(ROW_8, SUCCESSOR, 7) && Grows(ROW_8, SUCCESSOR, 8)
  {
  }

  lemma RowEightIsGood()
    ensures |ROW_8| == 8 && GoodRow(ROW_8, SUCCESSOR)
  {
    RowEightGrows();
    GrowsEverywhere(ROW_8, SUCCESSOR, 8);
  }

  lemma RowTenGrows()
    ensures |ROW_10| == 10
    ensures Grows(ROW_10, SUCCESSOR, 1) && Grows(ROW_10, SUCCESSOR, 2) && Grows(ROW_10, SUCCESSOR, 3) && Grows(ROW_10, SUCCESSOR, 4)
    ensures Grows(ROW_10, SUCCESSOR, 5) && Grows(ROW_10, SUCCESSOR, 6) && Grows(ROW_10, SUCCESSOR, 7) && Grows(ROW_10, SUCCESSOR, 8)
    ensures Grows(ROW_10, SUCCESSOR, 9) && Grows(ROW_10, SUCCESSOR, 10)
  {
  }

  lemma RowTenIsGood()
    ensures |ROW_10| == 10 && GoodRow(ROW_10, SUCCESSOR)
  {
    RowTenGrows();
    GrowsEverywhere(ROW_10, SUCCESSOR, 10);
  }

  lemma RowThirteenGrows()
    ensures |ROW_13| == 13
    ensures Grows(ROW_13, SUCCESSOR, 1) && Grows(ROW_13, SUCCESSOR, 2) && Grows(ROW_13, SUCCESSOR, 3) && Grows(ROW_13, SUCCESSOR, 4)
    ensures Grows(ROW_13, SUCCESSOR, 5) && Grows(ROW_13, SUCCESSOR, 6) && Grows(ROW_13, SUCCESSOR, 7) && Grows(ROW_13, SUCCESSOR, 8)
    ensures Grows(ROW_13, SUCCESSOR, 9) && Grows(ROW_13, SUCCESSOR, 10) && Grows(ROW_13, SUCCESSOR, 11) && Grows(ROW_13, SUCCESSOR, 12)
    ensures Grows(ROW_13, SUCCESSOR, 13)
  {
  }

  lemma RowThirteenIsGood()
    ensures |ROW_13| == 13 && GoodRow(ROW_13, SUCCESSOR)
  {
    RowThirteenGrows();
    GrowsEverywhere(ROW_13, SUCCESSOR, 13);
  }

  lemma RowFourteenGrows()
    ensures |ROW_14| == 14
    ensures Grows(ROW_14, SUCCESSOR, 1) && Grows(ROW_14, SUCCESSOR, 2) && Grows(ROW_14, SUCCESSOR, 3) && Grows(ROW_14, SUCCESSOR, 4)
    ensures Grows(ROW_14, SUCCESSOR, 5) && Grows(ROW_14, SUCCESSOR, 6) && Grows(ROW_14, SUCCESSOR, 7) && Grows(ROW_14, SUCCESSOR, 8)
    ensures Grows(ROW_14, SUCCESSOR, 9) && Grows(ROW_14, SUCCESSOR, 10) && Grows(ROW_14, SUCCESSOR, 11) && Grows(ROW_14, SUCCESSOR, 12)
    ensures Grows(ROW_14, SUCCESSOR, 13) && Grows(ROW_14, SUCCESSOR, 14)
  {
  }

  lemma RowFourteenIsGood()
    ensures |ROW_14| == 14 && GoodRow(ROW_14, SUCCESSOR)
  {
    RowFourteenGrows();
    GrowsEverywhere(ROW_14, SUCCESSOR, 14);
  }

  lemma RowFifteenGrows()
    ensures |ROW_15| == 15
    ensures Grows(ROW_15, SUCCESSOR, 1) && Grows(ROW_15, SUCCESSOR, 2) && Grows(ROW_15, SUCCESSOR, 3) && Grows(ROW_15, SUCCESSOR, 4)
    ensures Grows(ROW_15, SUCCESSOR, 5) && Grows(ROW_15, SUCCESSOR, 6) && Grows(ROW_15, SUCCESSOR, 7) && Grows(ROW_15, SUCCESSOR, 8)
    ensures Grows(ROW_15, SUCCESSOR, 9) && Grows(ROW_15, SUCCESSOR, 10) && Grows(ROW_15, SUCCESSOR, 11) && Grows(ROW_15, SUCCESSOR, 12)
    ensures Grows(ROW_15, SUCCESSOR, 13) && Grows(ROW_15, SUCCESSOR, 14) && Grows(ROW_15, SUCCESSOR, 15)
  {
  }

  lemma RowFifteenIsGood()
    ensures |ROW_15| == 15 && GoodRow(ROW_15, SUCCESSOR)
  {
    RowFifteenGrows();
    GrowsEverywhere(ROW_15, SUCCESSOR, 15);
  }

  lemma RowSixteenGrows()
    ensures |ROW_16| == 16
    ensures Grows(ROW_16, SUCCESSOR, 1) && Grows(ROW_16, SUCCESSOR, 2) && Grows(ROW_16, SUCCESSOR, 3) && Grows(ROW_16, SUCCESSOR, 4)
    ensures Grows(ROW_16, SUCCESSOR, 5) && Grows(ROW_16, SUCCESSOR, 6) && Grows(ROW_16, SUCCESSOR, 7) && Grows(ROW_16, SUCCESSOR, 8)
    ensures Grows(ROW_16, SUCCESSOR, 9) && Grows(ROW_16, SUCCESSOR, 10) && Grows(ROW_16, SUCCESSOR, 11) && Grows(ROW_16, SUCCESSOR, 12)
    ensures Grows(ROW_16, SUCCESSOR, 13) && Grows(ROW_16, SUCCESSOR, 14) && Grows(ROW_16, SUCCESSOR, 15) && Grows(ROW_16, SUCCESSOR, 16)
  {
  }

  lemma RowSixteenIsGood()
    ensures |ROW_16| == 16 && GoodRow(ROW_16, SUCCESSOR)
  {
    RowSixteenGrows();
    GrowsEverywhere(ROW_16, SUCCESSOR, 16);
  }

  lemma RowSeventeenGrows()
    ensures |ROW_17| == 17
    ensures Grows(ROW_17, SUCCESSOR, 1) && Grows(ROW_17, SUCCESSOR, 2) && Grows(ROW_17, SUCCESSOR, 3) && Grows(ROW_17, SUCCESSOR, 4)
    ensures Grows(ROW_17, SUCCESSOR, 5) && Grows(ROW_17, SUCCESSOR, 6) && Grows(ROW_17, SUCCESSOR, 7) && Grows(ROW_17, SUCCESSOR, 8)
    ensures Grows(ROW_17, SUCCESSOR, 9) && Grows(ROW_17, SUCCESSOR, 10) && Grows(ROW_17, SUCCESSOR, 11) && Grows(ROW_17, SUCCESSOR, 12)
    ensures Grows(ROW_17, SUCCESSOR, 13) && Grows(ROW_17, SUCCESSOR, 14) && Grows(ROW_17, SUCCESSOR, 15) && Grows(ROW_17, SUCCESSOR, 16)
    ensures Grows(ROW_17, SUCCESSOR, 17)
  {
  }

  lemma RowSeventeenIsGood()
    ensures |ROW_17| == 17 && GoodRow(ROW_17, SUCCESSOR)
  {
    RowSeventeenGrows();
    GrowsEverywhere(ROW_17, SUCCESSOR, 17);
  }

  lemma RowEighteenGrows()
    ensures |ROW_18| == 18
    ensures Grows(ROW_18, SUCCESSOR, 1) && Grows(ROW_18, SUCCESSOR, 2) && Grows(ROW_18, SUCCESSOR, 3) && Grows(ROW_18, SUCCESSOR, 4)
    ensures Grows(ROW_18, SUCCESSOR, 5) && Grows(ROW_18, SUCCESSOR, 6) && Grows(ROW_18, SUCCESSOR, 7) && Grows(ROW_18, SUCCESSOR, 8)
    ensures Grows(ROW_18, SUCCESSOR, 9) && Grows(ROW_18, SUCCESSOR, 10) && Grows(ROW_18, SUCCESSOR, 11) && Grows(ROW_18, SUCCESSOR, 12)
    ensures Grows(ROW_18, SUCCESSOR, 13) && Grows(ROW_18, SUCCESSOR, 14) && Grows(ROW_18, SUCCESSOR, 15) && Grows(ROW_18, SUCCESSOR, 16)
    ensures Grows(ROW_18, SUCCESSOR, 17) && Grows(ROW_18, SUCCESSOR, 18)
  {
  }

  lemma RowEighteenIsGood()
    ensures |ROW_18| == 18 && GoodRow(ROW_18, SUCCESSOR)
  {
    RowEighteenGrows();
    GrowsEverywhere(ROW_18, SUCCESSOR, 18);
  }

  lemma RowTwentyGrows()
    ensures |ROW_20| == 20
    ensures Grows(ROW_20, SUCCESSOR, 1) && Grows(ROW_20, SUCCESSOR, 2) && Grows(ROW_20, SUCCESSOR, 3) && Grows(ROW_20, SUCCESSOR, 4)
    ensures Grows(ROW_20, SUCCESSOR, 5) && Grows(ROW_20, SUCCESSOR, 6) && Grows(ROW_20, SUCCESSOR, 7) && Grows(ROW_20, SUCCESSOR, 8)
    ensures Grows(ROW_20, SUCCESSOR, 9) && Grows(ROW_20, SUCCESSOR, 10) && Grows(ROW_20, SUCCESSOR, 11) && Grows(ROW_20, SUCCESSOR, 12)
    ensures Grows(ROW_20, SUCCESSOR, 13) && Grows(ROW_20, SUCCESSOR, 14) && Grows(ROW_20, SUCCESSOR, 15) && Grows(ROW_20, SUCCESSOR, 16)
    ensures Grows(ROW_20, SUCCESSOR, 17) && Grows(ROW_20, SUCCESSOR, 18) && Grows(ROW_20, SUCCESSOR, 19) && Grows(ROW_20, SUCCESSOR, 20)
  {
  }

  lemma RowTwentyIsGood()
    ensures |ROW_20| == 20 && GoodRow(ROW_20, SUCCESSOR)
  {
    RowTwentyGrows();
    GrowsEverywhere(ROW_20, SUCCESSOR, 20);
  }

  lemma RowTwentyTwoGrows()
    ensures |ROW_22| == 22
    ensures Grows(ROW_22, SUCCESSOR, 1) && Grows(ROW_22, SUCCESSOR, 2) && Grows(ROW_22, SUCCESSOR, 3) && Grows(ROW_22, SUCCESSOR, 4)
    ensures Grows(ROW_22, SUCCESSOR, 5) && Grows(ROW_22, SUCCESSOR, 6) && Grows(ROW_22, SUCCESSOR, 7) && Grows(ROW_22, SUCCESSOR, 8)
    ensures Grows(ROW_22, SUCCESSOR, 9) && Grows(ROW_22, SUCCESSOR, 10) && Grows(ROW_22, SUCCESSOR, 11) && Grows(ROW_22, SUCCESSOR, 12)
    ensures Grows(ROW_22, SUCCESSOR, 13) && Grows(ROW_22, SUCCESSOR, 14) && Grows(ROW_22, SUCCESSOR, 15) && Grows(ROW_22, SUCCESSOR, 16)
    ensures Grows(ROW_22, SUCCESSOR, 17) && Grows(ROW_22, SUCCESSOR, 18) && Grows(ROW_22, SUCCESSOR, 19) && Grows(ROW_22, SUCCESSOR, 20)
    ensures Grows(ROW_22, SUCCESSOR, 21) && Grows(ROW_22, SUCCESSOR, 22)
  {
  }

  lemma RowTwentyTwoIsGood()
    ensures |ROW_22| == 22 && GoodRow(ROW_22, SUCCESSOR)
  {
    RowTwentyTwoGrows();
    GrowsEverywhere(ROW_22, SUCCESSOR, 22);
  }

  lemma RowTwentyFourGrows()
    ensures |ROW_24| == 24
    ensures Grows(ROW_24, SUCCESSOR, 1) && Grows(ROW_24, SUCCESSOR, 2) && Grows(ROW_24, SUCCESSOR, 3) && Grows(ROW_24, SUCCESSOR, 4)
    ensures Grows(ROW_24, SUCCESSOR, 5) && Grows(ROW_24, SUCCESSOR, 6) && Grows(ROW_24, SUCCESSOR, 7) && Grows(ROW_24, SUCCESSOR, 8)
    ensures Grows(ROW_24, SUCCESSOR, 9) && Grows(ROW_24, SUCCESSOR, 10) && Grows(ROW_24, SUCCESSOR, 11) && Grows(ROW_24, SUCCESSOR, 12)
    ensures Grows(ROW_24, SUCCESSOR, 13) && Grows(ROW_24, SUCCESSOR, 14) && Grows(ROW_24, SUCCESSOR, 15) && Grows(ROW_24, SUCCESSOR, 16)
    ensures Grows(ROW_24, SUCCESSOR, 17) && Grows(ROW_24, SUCCESSOR, 18) && Grows(ROW_24, SUCCESSOR, 19) && Grows(ROW_24, SUCCESSOR, 20)
    ensures Grows(ROW_24, SUCCESSOR, 21) && Grows(ROW_24, SUCCESSOR, 22) && Grows(ROW_24, SUCCESSOR, 23) && Grows(ROW_24, SUCCESSOR, 24)
  {
  }

  lemma RowTwentyFourIsGood()
    ensures |ROW_24| == 24 && GoodRow(ROW_24, SUCCESSOR)
  {
    RowTwentyFourGrows();
    GrowsEverywhere(ROW_24, SUCCESSOR, 24);
  }

  lemma RowTwentySixGrows()
    ensures |ROW_26| == 26
    ensures Grows(ROW_26, SUCCESSOR, 1) && Grows(ROW_26, SUCCESSOR, 2) && Grows(ROW_26, SUCCESSOR, 3) && Grows(ROW_26, SUCCESSOR, 4)
    ensures Grows(ROW_26, SUCCESSOR, 5) && Grows(ROW_26, SUCCESSOR, 6) && Grows(ROW_26, SUCCESSOR, 7) && Grows(ROW_26, SUCCESSOR, 8)
    ensures Grows(ROW_26, SUCCESSOR, 9) && Grows(ROW_26, SUCCESSOR, 10) && Grows(ROW_26, SUCCESSOR, 11) && Grows(ROW_26, SUCCESSOR, 12)
    ensures Grows(ROW_26, SUCCESSOR, 13) && Grows(ROW_26, SUCCESSOR, 14) && Grows(ROW_26, SUCCESSOR, 15) && Grows(ROW_26, SUCCESSOR, 16)
    ensures Grows(ROW_26, SUCCESSOR, 17) && Grows(ROW_26, SUCCESSOR, 18) && Grows(ROW_26, SUCCESSOR, 19) && Grows(ROW_26, SUCCESSOR, 20)
    ensures Grows(ROW_26, SUCCESSOR, 21) && Grows(ROW_26, SUCCESSOR, 22) && Grows(ROW_26, SUCCESSOR, 23) && Grows(ROW_26, SUCCESSOR, 24)
    ensures Grows(ROW_26, SUCCESSOR, 25) && Grows(ROW_26, SUCCESSOR, 26)
  {
  }

  lemma RowTwentySixIsGood()
    ensures |ROW_26| == 26 && GoodRow(ROW_26, SUCCESSOR)
  {
    RowTwentySixGrows();
    GrowsEverywhere(ROW_26, SUCCESSOR, 26);
  }

  lemma RowTwentyEightGrows()
    ensures |ROW_28| == 28
    ensures Grows(ROW_28, SUCCESSOR, 1) && Grows(ROW_28, SUCCESSOR, 2) && Grows(ROW_28, SUCCESSOR, 3) && Grows(ROW_28, SUCCESSOR, 4)
    ensures Grows(ROW_28, SUCCESSOR, 5) && Grows(ROW_28, SUCCESSOR, 6) && Grows(ROW_28, SUCCESSOR, 7) && Grows(ROW_28, SUCCESSOR, 8)
    ensures Grows(ROW_28, SUCCESSOR, 9) && Grows(ROW_28, SUCCESSOR, 10) && Grows(ROW_28, SUCCESSOR, 11) && Grows(ROW_28, SUCCESSOR, 12)
    ensures Grows(ROW_28, SUCCESSOR, 13) && Grows(ROW_28, SUCCESSOR, 14) && Grows(ROW_28, SUCCESSOR, 15) && Grows(ROW_28, SUCCESSOR, 16)
    ensures Grows(ROW_28, SUCCESSOR, 17) && Grows(ROW_28, SUCCESSOR, 18) && Grows(ROW_28, SUCCESSOR, 19) && Grows(ROW_28, SUCCESSOR, 20)
    ensures Grows(ROW_28, SUCCESSOR, 21) && Grows(ROW_28, SUCCESSOR, 22) && Grows(ROW_28, SUCCESSOR, 23) && Grows(ROW_28, SUCCESSOR, 24)
    ensures Grows(ROW_28, SUCCESSOR, 25) && Grows(ROW_28, SUCCESSOR, 26) && Grows(ROW_28, SUCCESSOR, 27) && Grows(ROW_28, SUCCESSOR, 28)
  {
  }

  lemma RowTwentyEightIsGood()
    ensures |ROW_28| == 28 && GoodRow(ROW_28, SUCCESSOR)
  {
    RowTwentyEightGrows();
    GrowsEverywhere(ROW_28, SUCCESSOR, 28);
  }

  lemma RowThirtyGrows()
    ensures |ROW_30| == 30
    ensures Grows(ROW_30, SUCCESSOR, 1) && Grows(ROW_30, SUCCESSOR, 2) && Grows(ROW_30, SUCCESSOR, 3) && Grows(ROW_30, SUCCESSOR, 4)
    ensures Grows(ROW_30, SUCCESSOR, 5) && Grows(ROW_30, SUCCESSOR, 6) && Grows(ROW_30, SUCCESSOR, 7) && Grows(ROW_30, SUCCESSOR, 8)
    ensures Grows(ROW_30, SUCCESSOR, 9) && Grows(ROW_30, SUCCESSOR, 10) && Grows(ROW_30, SUCCESSOR, 11) && Grows(ROW_30, SUCCESSOR, 12)
    ensures Grows(ROW_30, SUCCESSOR, 13) && Grows(ROW_30, SUCCESSOR, 14) && Grows(ROW_30, SUCCESSOR, 15) && Grows(ROW_30, SUCCESSOR, 16)
    ensures Grows(ROW_30, SUCCESSOR, 17) && Grows(ROW_30, SUCCESSOR, 18) && Grows(ROW_30, SUCCESSOR, 19) && Grows(ROW_30, SUCCESSOR, 20)
    ensures Grows(ROW_30, SUCCESSOR, 21) && Grows(ROW_30, SUCCESSOR, 22) && Grows(ROW_30, SUCCESSOR, 23) && Grows(ROW_30, SUCCESSOR, 24)
    ensures Grows(ROW_30, SUCCESSOR, 25) && Grows(ROW_30, SUCCESSOR, 26) && Grows(ROW_30, SUCCESSOR, 27) && Grows(ROW_30, SUCCESSOR, 28)
    ensures Grows(ROW_30, SUCCESSOR, 29) && Grows(ROW_30, SUCCESSOR, 30)
  {
  }

  lemma RowThirtyIsGood()
    ensures |ROW_30| == 30 && GoodRow(ROW_30, SUCCESSOR)
  {
    RowThirtyGrows();
    GrowsEverywhere(ROW_30, SUCCESSOR, 30);
  }

  /** Every row of the program's table has the length it stands for and follows the recurrence. */
  lemma TableIsGood(n: nat)
    requires n in GEN_POLY
    ensures HasRow(GEN_POLY, n) && GoodRow(GEN_POLY[n], SUCCESSOR)
  {
    if n == 2 {
      RowTwoIsGood();
    } else if n == 5 {
      RowFiveIsGood();
    } else if n == 6 {
      RowSixIsGood();
    } else if n == 7 {
      RowSevenIsGood();
    } else if n == 8 {
      RowEightIsGood();
    } else if n == 10 {
      RowTenIsGood();
    } else if n == 13 {
      RowThirteenIsGood();
    } else if n == 14 {
      RowFourteenIsGood();
    } else if n == 15 {
      RowFifteenIsGood();
    } else if n == 16 {
      RowSixteenIsGood();
    } else if n == 17 {
      RowSeventeenIsGood();
    } else if n == 18 {
      RowEighteenIsGood();
    } else if n == 20 {
      RowTwentyIsGood();
    } else if n == 22 {
      RowTwentyTwoIsGood();
    } else if n == 24 {
      RowTwentyFourIsGood();
    } else if n == 26 {
      RowTwentySixIsGood();
    } else if n == 28 {
      RowTwentyEightIsGood();
    } else if n == 30 {
      RowThirtyIsGood();
    }
    GoodRowIsLogarithms(GEN_POLY[n], SUCCESSOR);
  }

  /** Each generator of the table is monic of its degree and vanishes at 2^i for every i below it. */
  lemma TableGeneratorVanishes(n: nat, i: nat)
    requires n in GEN_POLY && i < n
    ensures HasRow(GEN_POLY, n) && |GALIOS_EXP| == 510
    ensures Bytes(Generator(GALIOS_EXP, GEN_POLY[n])) && P(GALIOS_EXP, i) < 256
    ensures Eval(Generator(GALIOS_EXP, GEN_POLY[n]), P(GALIOS_EXP, i)) == 0
  {
    TableIsGood(n);
    TablesAreCyclic();
    SuccessorsAreRight(GALIOS_EXP, SUCCESSOR);
    GeneratorBytes(GALIOS_EXP, GALIOS_LOG, GEN_POLY[n]);
    GeneratorVanishes(GALIOS_EXP, GALIOS_LOG, SUCCESSOR, GEN_POLY[n], i);
  }

  /**
   * Every block that is made with the program's tables gets total minus data error words, and
   * followed by them vanishes at 2^i for every i below that number: its syndromes are all zero.
   */
  lemma SyndromesVanish(infos: seq<Info>, codewords: seq<nat>, dataBlocks: seq<seq<nat>>, errorBlocks: seq<seq<nat>>, b: nat, i: nat)
    requires Sensible(infos) && AllRight(Protection(GALIOS_EXP, GEN_POLY), Chunks(codewords, infos), dataBlocks, errorBlocks)
    requires b < |dataBlocks| && i < |errorBlocks[b]|
    ensures |errorBlocks[b]| == Chunks(codewords, infos)[b].errors && |GALIOS_EXP| == 510
    ensures Eval(dataBlocks[b] + errorBlocks[b], P(GALIOS_EXP, i)) == 0
  {
    var c := Chunks(codewords, infos)[b];
    assert Protection(GALIOS_EXP, GEN_POLY)(c, dataBlocks[b], errorBlocks[b]);
    var n := c.errors;
    TableGeneratorVanishes(n, i);
    var g := Generator(GALIOS_EXP, GEN_POLY[n]);
    var q :| |q| == |dataBlocks[b]| && Bytes(q) && IsProduct(dataBlocks[b] + errorBlocks[b], q, g);
    CodewordVanishes(dataBlocks[b] + errorBlocks[b], q, g, P(GALIOS_EXP, i));
  }

  /** The table covers every plan whose numbers of error words occur in it. */
  lemma TableCovers(infos: seq<Info>)
    requires Sensible(infos) && forall k {:trigger infos[k]} :: 0 <= k < |infos| ==> infos[k].total - infos[k].data in GEN_POLY
    ensures Covers(GEN_POLY, infos)
  {
    forall k | 0 <= k < |infos|
      ensures HasRow(GEN_POLY, infos[k].total - infos[k].data)
    {
      TableIsGood(infos[k].total - infos[k].data);
    }
  }
}
