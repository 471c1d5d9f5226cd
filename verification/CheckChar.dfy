/** The check character of a machine id: a weighted sum modulo 31 over an alphabet of 32 characters. */
module CheckChar {
  import opened Common

  const ALPHABET := "ABCDEFGHIJKLMNOPQRSTUVWXYZ234567"
  const LENGTH := 24
  const MODULUS := 31

  /** The position of a character in the alphabet: letters first, then the digits 2 to 7. */
  function Index(c: char): (i: int)
  {
    if 'A' <= c <= 'Z' then c as int - 'A' as int else if '2' <= c <= '7' then c as int - '2' as int + 26 else -1
  }

  predicate InAlphabet(c: char) {
    Index(c) >= 0
  }

  predicate IsBody(body: string) {
    |body| == LENGTH && forall i :: 0 <= i < |body| ==> InAlphabet(body[i])
  }

  function Weighted(body: string): (total: int)
  {
    if body == "" then 0 else Weighted(body[..|body| - 1]) + |body| * Index(body[|body| - 1])
  }

  /** None stands for the error that a malformed body raises. */
  function Check(body: string): (c: Option<char>)
    ensures c.Some? <==> IsBody(body)
    ensures c.Some? ==> c.value != '7' && InAlphabet(c.value)
  {
    if IsBody(body) then Some(ALPHABET[Weighted(body) % MODULUS]) else None
  }

  // ------------------------------------------------------------- arithmetic

  lemma NotADivisor(a: nat)
    requires 1 < a < 31
    ensures 31 % a != 0
  {
    assert a == 2 || a == 3 || a == 4 || a == 5 || a == 6 || a == 7 || a == 8 || a == 9 || a == 10 || a == 11 || a == 12 || a == 13
           || a == 14 || a == 15 || a == 16 || a == 17 || a == 18 || a == 19 || a == 20 || a == 21 || a == 22 || a == 23 || a == 24
           || a == 25 || a == 26 || a == 27 || a == 28 || a == 29 || a == 30;
  }

  /** A multiple of 31 among products with a smaller factor has it in the other factor. */
  lemma {:induction false} PrimeFactor(a: nat, b: int, q: int)
    requires 0 < a < 31 && a * b == 31 * q
    ensures b % 31 == 0
    decreases a
  {
    if a > 1 {
      NotADivisor(a);
      var c, d := 31 % a, 31 / a;
      assert c * b == 31 * (b - d * q) by {
        assert c == 31 - d * a;
        calc {
          c * b;
          (31 - d * a) * b;
          31 * b - d * (a * b);
          31 * b - d * (31 * q);
          31 * (b - d * q);
        }
      }
      PrimeFactor(c, b, b - d * q);
    }
  }

  /** Two numbers below 32 are the same modulo 31 exactly when they are equal or the two extremes. */
  predicate Confused(x: int, y: int) {
    x == y || (x == 0 && y == 31) || (x == 31 && y == 0)
  }

  lemma ConfusedIff(w: int, x: int, y: int)
    requires -31 < w < 31 && w != 0 && 0 <= x < 32 && 0 <= y < 32
    ensures (w * (x - y)) % 31 == 0 <==> Confused(x, y)
  {
    var d := x - y;
    if (w * d) % 31 == 0 {
      var q := (w * d) / 31;
      assert w * d == 31 * q;
      if w > 0 {
        PrimeFactor(w, d, q);
      } else {
        assert (-w) * d == 31 * (-q);
        PrimeFactor(-w, d, -q);
      }
    }
    if Confused(x, y) {
      assert w * d == 0 || w * d == 31 * w || w * d == -31 * w;
    }
  }

  lemma SameResidue(a: int, b: int)
    ensures a % 31 == b % 31 <==> (a - b) % 31 == 0
  {
  }

  // ------------------------------------------------- substitutions and swaps

  lemma {:induction false} WeightedSet(body: string, i: nat, c: char)
    requires i < |body|
    ensures Weighted(body[i := c]) == Weighted(body) + (i + 1) * (Index(c) - Index(body[i]))
    decreases |body|
  {
    var n := |body| - 1;
    var t := body[i := c];
    if i == n {
      assert t[..n] == body[..n];
    } else {
      assert t[..n] == body[..n][i := c];
      WeightedSet(body[..n], i, c);
    }
  }

  lemma SameCheck(a: string, b: string)
    requires IsBody(a) && IsBody(b)
    ensures Check(a) == Check(b) <==> (Weighted(a) - Weighted(b)) % 31 == 0
  {
    SameResidue(Weighted(a), Weighted(b));
    var x, y := Weighted(a) % 31, Weighted(b) % 31;
    AlphabetDistinct(x, y);
  }

  lemma AlphabetDistinct(x: nat, y: nat)
    requires x < 32 && y < 32
    ensures |ALPHABET| == 32 && (ALPHABET[x] == ALPHABET[y] <==> x == y)
  {
    IndexOfLetter(x);
    IndexOfLetter(y);
  }

  lemma IndexOfLetter(x: nat)
    requires x < 32
    ensures |ALPHABET| == 32 && Index(ALPHABET[x]) == x
  {
  }

  /** Index finds a character's only position in the alphabet, and is negative exactly for characters that are not in it. */
  lemma IndexIsPosition(c: char)
    ensures |ALPHABET| == 32 && (InAlphabet(c) <==> c in ALPHABET)
    ensures forall x :: 0 <= x < 32 && ALPHABET[x] == c <==> InAlphabet(c) && x == Index(c)
  {
    if InAlphabet(c) {
      LetterOfIndex(c);
    }
    forall x | 0 <= x < 32 && ALPHABET[x] == c
      ensures x == Index(c)
    {
      IndexOfLetter(x);
    }
  }

  lemma LetterOfIndex(c: char)
    requires InAlphabet(c)
    ensures |ALPHABET| == 32 && Index(c) < 32 && ALPHABET[Index(c)] == c
  {
  }

  /** The two characters that the check cannot tell apart. */
  predicate BlindSpot(x: char, y: char) {
    (x == 'A' && y == '7') || (x == '7' && y == 'A')
  }

  lemma ConfusedIsBlind(x: char, y: char)
    requires InAlphabet(x) && InAlphabet(y) && x != y
    ensures Confused(Index(x), Index(y)) <==> BlindSpot(x, y)
  {
  }

  /** Replacing one character by another changes the check character unless they are A and 7, at every position. */
  lemma SubstitutionIsCaught(body: string, i: nat, c: char)
    requires IsBody(body) && i < LENGTH && InAlphabet(c) && c != body[i]
    ensures Check(body[i := c]) == Check(body) <==> BlindSpot(c, body[i])
  {
    SetResidue(body, i, c);
    SameCheck(body[i := c], body);
  }

  lemma SetResidue(body: string, i: nat, c: char)
    requires IsBody(body) && i < LENGTH && InAlphabet(c) && c != body[i]
    ensures IsBody(body[i := c])
    ensures (Weighted(body[i := c]) - Weighted(body)) % 31 == 0 <==> BlindSpot(c, body[i])
  {
    WeightedSet(body, i, c);
    ConfusedIff(i + 1, Index(c), Index(body[i]));
    ConfusedIsBlind(c, body[i]);
  }

  lemma WeightedSwap(body: string, i: nat, j: nat)
    requires i < |body| && j < |body| && i != j
    ensures var x, y := Index(body[i]), Index(body[j]);
            Weighted(body[i := body[j]][j := body[i]]) - Weighted(body) == (i + 1) * (y - x) + (j + 1) * (x - y)
  {
    WeightedSet(body, i, body[j]);
    WeightedSet(body[i := body[j]], j, body[i]);
  }

  /** Exchanging two different characters, adjacent or not, changes the check character unless they are A and 7. */
  lemma SwapIsCaught(body: string, i: nat, j: nat)
    requires IsBody(body) && i < LENGTH && j < LENGTH && i != j && body[i] != body[j]
    ensures Check(body[i := body[j]][j := body[i]]) == Check(body) <==> BlindSpot(body[i], body[j])
  {
    SwapResidue(body, i, j);
    SameCheck(body[i := body[j]][j := body[i]], body);
  }

  lemma SwapResidue(body: string, i: nat, j: nat)
    requires IsBody(body) && i < LENGTH && j < LENGTH && i != j && body[i] != body[j]
    ensures IsBody(body[i := body[j]][j := body[i]])
    ensures (Weighted(body[i := body[j]][j := body[i]]) - Weighted(body)) % 31 == 0 <==> BlindSpot(body[i], body[j])
  {
    var x, y := Index(body[i]), Index(body[j]);
    WeightedSwap(body, i, j);
    Exchanged(i, j, x, y);
    ConfusedIff(j - i, x, y);
    ConfusedIsBlind(body[i], body[j]);
  }

  lemma Exchanged(i: int, j: int, x: int, y: int)
    ensures (i + 1) * (y - x) + (j + 1) * (x - y) == (j - i) * (x - y)
  {
    var d := x - y;
    assert (i + 1) * (y - x) == -((i + 1) * d);
    assert (j + 1) * d - (i + 1) * d == (j - i) * d;
  }
}
