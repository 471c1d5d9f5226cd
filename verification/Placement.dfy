/**
 * Placement of a bit stream in the modules of a QR symbol: two-module wide columns from right to
 * left, alternately upwards and downwards, around the vertical timing pattern in column 6.
 */
module Placement {
  import opened Common

  /** A module that no function pattern has claimed. */
  const FREE := 2

  type Grid = seq<seq<nat>>

  datatype Module = Module(row: int, col: int)

  ghost predicate Square(g: Grid, n: nat) {
    |g| == n && forall i :: 0 <= i < n ==> |g[i]| == n
  }

  predicate Inside(m: Module, n: nat) {
    0 <= m.row < n && 0 <= m.col < n
  }

  // ---------------------------------------------------------- the traversal

  /** The size of a symbol of a version. */
  predicate IsSize(n: nat) {
    n >= 21 && n % 4 == 1
  }

  /** The right column of a pair, past column 6 one further to the left. */
  function Right(n: nat, p: nat): int {
    var right := n as int - 1 - 2 * p;
    if right <= 6 then right - 1 else right
  }

  predicate Upwards(right: int, col: int) {
    ((right / 2) % 2 == 0) != (col < 6)
  }

  /** The module visited in a pair of columns at a height, right or left. */
  function Visited(n: nat, p: nat, vertical: nat, z: nat): Module {
    var col := Right(n, p) - z;
    Module(if Upwards(Right(n, p), col) then n - 1 - vertical else vertical, col)
  }

  function Pair(n: nat, p: nat): (path: seq<Module>)
    ensures |path| == 2 * n && forall s :: 0 <= s < 2 * n ==> path[s] == Visited(n, p, s / 2, s % 2)
  {
    seq(2 * n, s requires 0 <= s < 2 * n => Visited(n, p, s / 2, s % 2))
  }

  function Pairs(n: nat, k: nat): (path: seq<Module>)
  {
    if k == 0 then [] else Pairs(n, k - 1) + Pair(n, k - 1)
  }

  /** The whole traversal. */
  function Path(n: nat): (path: seq<Module>) {
    Pairs(n, n / 2)
  }

  ghost predicate Distinct(path: seq<Module>) {
    forall a, b :: 0 <= a < b < |path| ==> path[a] != path[b]
  }

  /** Which pair of columns a column belongs to. */
  function PairOf(n: nat, col: int): int {
    if col > 6 then (n - 1 - col) / 2 else (n - 2 - col) / 2
  }

  /** A visited module lies in its own pair of columns, never in column 6. */
  lemma VisitedIsInPair(n: nat, p: nat, vertical: nat, z: nat)
    requires IsSize(n) && p < n / 2 && vertical < n && z < 2
    ensures var m := Visited(n, p, vertical, z); Inside(m, n) && m.col != 6 && PairOf(n, m.col) == p
  {
  }

  lemma PairIsDistinct(n: nat, p: nat)
    requires IsSize(n) && p < n / 2
    ensures Distinct(Pair(n, p))
  {
    forall a, b | 0 <= a < b < 2 * n ensures Pair(n, p)[a] != Pair(n, p)[b] {
      assert a == 2 * (a / 2) + a % 2 && b == 2 * (b / 2) + b % 2;
    }
  }

  lemma PairMembers(n: nat, p: nat, m: Module)
    requires IsSize(n) && p < n / 2
    ensures m in Pair(n, p) <==> Inside(m, n) && m.col != 6 && PairOf(n, m.col) == p
  {
    if m in Pair(n, p) {
      var s :| 0 <= s < 2 * n && Pair(n, p)[s] == m;
      VisitedIsInPair(n, p, s / 2, s % 2);
    }
    if Inside(m, n) && m.col != 6 && PairOf(n, m.col) == p {
      var z := Right(n, p) - m.col;
      assert z == 0 || z == 1;
      var v := if Upwards(Right(n, p), m.col) then n - 1 - m.row else m.row;
      assert Visited(n, p, v, z) == m;
      assert (2 * v + z) / 2 == v && (2 * v + z) % 2 == z;
      assert Pair(n, p)[2 * v + z] == m;
    }
  }

  lemma DistinctAppend(a: seq<Module>, b: seq<Module>)
    requires Distinct(a) && Distinct(b) && forall m :: m in a ==> m !in b
    ensures Distinct(a + b)
  {
    forall i, j | 0 <= i < j < |a + b| ensures (a + b)[i] != (a + b)[j] {
      if i < |a| <= j {
        assert (a + b)[i] in a && (a + b)[j] in b;
      }
    }
  }

  lemma {:induction false} PairsAre(n: nat, k: nat)
    requires IsSize(n) && k <= n / 2
    ensures Distinct(Pairs(n, k))
    ensures forall m :: m in Pairs(n, k) <==> Inside(m, n) && m.col != 6 && PairOf(n, m.col) < k
    decreases k
  {
    if k > 0 {
      PairsAre(n, k - 1);
      PairIsDistinct(n, k - 1);
      forall m ensures m in Pair(n, k - 1) <==> Inside(m, n) && m.col != 6 && PairOf(n, m.col) == k - 1 {
        PairMembers(n, k - 1, m);
      }
      DistinctAppend(Pairs(n, k - 1), Pair(n, k - 1));
    }
    forall m | Inside(m, n) && m.col != 6 ensures PairOf(n, m.col) >= 0 {
      assert m.col > 6 || m.col <= 5;
    }
  }

  /** The traversal visits every module outside column 6 exactly once. */
  lemma PathVisitsOnce(n: nat, m: Module)
    requires IsSize(n)
    ensures Distinct(Path(n))
    ensures m in Path(n) <==> Inside(m, n) && m.col != 6
  {
    PairsAre(n, n / 2);
  }

  // ------------------------------------------------------------- placement

  predicate Within(g: Grid, m: Module) {
    0 <= m.row < |g| && 0 <= m.col < |g[m.row]|
  }

  function At(g: Grid, m: Module): nat {
    if Within(g, m) then g[m.row][m.col] else 0
  }

  function Set(g: Grid, m: Module, x: nat): Grid {
    if !Within(g, m) then g
    else
      var row: seq<nat> := g[m.row][m.col := x];
      g[m.row := row]
  }

  /** A grid and the number of bits placed so far. */
  datatype Walk = Walk(grid: Grid, placed: nat)

  function Visit(w: Walk, bits: seq<nat>, m: Module): Walk {
    if At(w.grid, m) == FREE && w.placed < |bits|
    then Walk(Set(w.grid, m, bits[w.placed]), w.placed + 1) else w
  }

  function WalkAlong(g: Grid, bits: seq<nat>, path: seq<Module>): (w: Walk)
  {
    if path == [] then Walk(g, 0) else Visit(WalkAlong(g, bits, path[..|path| - 1]), bits, path[|path| - 1])
  }

  /** The free modules of a path, in order. */
  function Free(g: Grid, path: seq<Module>): (spots: seq<Module>)
  {
    if path == [] then []
    else
      var m := path[|path| - 1];
      Free(g, path[..|path| - 1]) + (if At(g, m) == FREE then [m] else [])
  }

  lemma {:induction false} FreeMembers(g: Grid, path: seq<Module>)
    ensures forall m :: m in Free(g, path) <==> m in path && At(g, m) == FREE
    decreases |path|
  {
    if path != [] {
      var k := |path| - 1;
      FreeMembers(g, path[..k]);
      assert path == path[..k] + [path[k]];
    }
  }

  lemma {:induction false} FreeDistinct(g: Grid, path: seq<Module>)
    requires Distinct(path)
    ensures Distinct(Free(g, path))
    decreases |path|
  {
    if path != [] {
      var k := |path| - 1;
      FreeDistinct(g, path[..k]);
      FreeMembers(g, path[..k]);
      if At(g, path[k]) == FREE {
        DistinctAppend(Free(g, path[..k]), [path[k]]);
      }
    }
  }

  /** The bits stand on these modules, in order, and nothing else has changed. */
  ghost predicate Holds(g: Grid, h: Grid, n: nat, spots: seq<Module>, bits: seq<nat>) {
    && Square(h, n) && |spots| <= |bits| && (forall m :: m in spots ==> Inside(m, n))
    && (forall k {:trigger spots[k]} :: 0 <= k < |spots| ==> At(h, spots[k]) == bits[k])
    && (forall m {:trigger At(h, m)} :: Inside(m, n) && m !in spots ==> At(h, m) == At(g, m))
  }

  lemma HoldsOneMore(g: Grid, h: Grid, n: nat, spots: seq<Module>, bits: seq<nat>, m: Module)
    requires Square(g, n) && Holds(g, h, n, spots, bits) && |spots| < |bits| && Inside(m, n) && m !in spots
    ensures Holds(g, Set(h, m, bits[|spots|]), n, spots + [m], bits)
  {
    var t := Set(h, m, bits[|spots|]);
    forall x | Inside(x, n) ensures At(t, x) == if x == m then bits[|spots|] else At(h, x) {
    }
    forall k | 0 <= k < |spots| + 1 ensures At(t, (spots + [m])[k]) == bits[k] {
      if k < |spots| {
        assert (spots + [m])[k] == spots[k] && spots[k] in spots;
      }
    }
    forall x | Inside(x, n) && x !in spots + [m] ensures At(t, x) == At(g, x) {
      assert m in spots + [m];
      assert forall y :: y in spots ==> y in spots + [m];
    }
  }

  /** Walking along a path without repetition fills its free modules in order, as far as the bits reach. */
  lemma {:induction false} WalkFills(g: Grid, n: nat, bits: seq<nat>, path: seq<Module>)
    requires Square(g, n) && Distinct(path) && forall m :: m in path ==> Inside(m, n)
    ensures var w := WalkAlong(g, bits, path);
            w.placed == Min(|Free(g, path)|, |bits|) && Holds(g, w.grid, n, Free(g, path)[..w.placed], bits)
    decreases |path|
  {
    if path == [] {
      assert Free(g, path)[..0] == [];
    } else {
      var k := |path| - 1;
      var m, rest := path[k], path[..k];
      WalkFills(g, n, bits, rest);
      FreeMembers(g, rest);
      var w, f := WalkAlong(g, bits, rest), Free(g, rest);
      var spots := f[..w.placed];
      assert m in path;
      assert m !in rest;
      assert m !in spots by { assert forall x :: x in spots ==> x in f; }
      assert At(w.grid, m) == At(g, m);
      if At(g, m) == FREE && w.placed < |bits| {
        assert spots == f;
        HoldsOneMore(g, w.grid, n, spots, bits, m);
        assert Free(g, path)[..w.placed + 1] == spots + [m];
      } else {
        assert Free(g, path)[..w.placed] == spots;
      }
    }
  }

  function ReadBack(h: Grid, spots: seq<Module>): (bits: seq<nat>)
    ensures |bits| == |spots|
  {
    seq(|spots|, k requires 0 <= k < |spots| => At(h, spots[k]))
  }

  /**
   * Any bit stream that fits is placed on distinct free modules outside column 6; every other module,
   * function patterns included, is untouched; and reading back in the order of the traversal gives the
   * stream. It fits exactly when there are enough free modules outside column 6.
   */
  lemma PlacementIsFaithful(g: Grid, n: nat, bits: seq<nat>, m: Module)
    requires IsSize(n) && Square(g, n) && Inside(m, n)
    ensures var w := WalkAlong(g, bits, Path(n));
            var spots := Free(g, Path(n));
            && Distinct(spots) && (m in spots <==> m.col != 6 && At(g, m) == FREE)
            && w.placed == Min(|spots|, |bits|) && Square(w.grid, n)
            && (m !in spots[..w.placed] ==> At(w.grid, m) == At(g, m))
            && (At(g, m) != FREE ==> At(w.grid, m) == At(g, m))
            && ReadBack(w.grid, spots[..w.placed]) == bits[..w.placed]
  {
    var path := Path(n);
    PathVisitsOnce(n, m);
    forall x | x in path ensures Inside(x, n) {
      PathVisitsOnce(n, x);
    }
    FreeMembers(g, path);
    FreeDistinct(g, path);
    WalkFills(g, n, bits, path);
    var w := WalkAlong(g, bits, path);
    var spots := Free(g, path);
    assert forall x :: x in spots[..w.placed] ==> x in spots;
  }

  // -------------------------------------------------------------- the loops

  ghost function GridOf(matrix: array2<nat>): (g: Grid)
    reads matrix
  {
    seq(matrix.Length0, i requires 0 <= i < matrix.Length0 reads matrix => RowOf(matrix, i))
  }

  ghost function RowOf(matrix: array2<nat>, i: nat): (row: seq<nat>)
    requires i < matrix.Length0
    reads matrix
  {
    seq(matrix.Length1, j requires 0 <= j < matrix.Length1 reads matrix => matrix[i, j])
  }

  lemma WalkSnoc(g: Grid, bits: seq<nat>, path: seq<Module>, m: Module)
    ensures WalkAlong(g, bits, path + [m]) == Visit(WalkAlong(g, bits, path), bits, m)
  {
    assert (path + [m])[..|path|] == path;
  }

  lemma WalkStep(g: Grid, bits: seq<nat>, before: seq<Module>, pair: seq<Module>, s: nat)
    requires s < |pair|
    ensures WalkAlong(g, bits, before + pair[..s + 1]) == Visit(WalkAlong(g, bits, before + pair[..s]), bits, pair[s])
  {
    assert before + pair[..s + 1] == (before + pair[..s]) + [pair[s]];
    WalkSnoc(g, bits, before + pair[..s], pair[s]);
  }

  method PlaceOne(matrix: array2<nat>, codewords: seq<nat>, idx: nat, i: nat, j: nat) returns (next: nat)
    requires i < matrix.Length0 && j < matrix.Length1
    modifies matrix
    ensures Walk(GridOf(matrix), next) == Visit(Walk(old(GridOf(matrix)), idx), codewords, Module(i, j))
  {
    next := idx;
    ghost var g := GridOf(matrix);
    if matrix[i, j] == FREE && idx < |codewords| {
      matrix[i, j] := codewords[idx];
      next := idx + 1;
      ghost var t := Set(g, Module(i, j), codewords[idx]);
      assert forall a :: 0 <= a < |t| ==> GridOf(matrix)[a] == t[a];
      assert GridOf(matrix) == t;
    } else {
      assert GridOf(matrix) == g;
    }
  }

  method PlaceAt(matrix: array2<nat>, codewords: seq<nat>, right: int, vertical: nat, z: nat, idx: nat, ghost p: nat) returns (next: nat)
    requires matrix.Length0 == matrix.Length1 && IsSize(matrix.Length0) && p < matrix.Length0 / 2 && right == Right(matrix.Length0, p)
    requires vertical < matrix.Length0 && z < 2
    modifies matrix
    ensures Walk(GridOf(matrix), next) == Visit(Walk(old(GridOf(matrix)), idx), codewords, Visited(matrix.Length0, p, vertical, z))
  {
    var n := matrix.Length0;
    var j := right - z;
    var upwards := (right / 2) % 2 == 0;
    if j < 6 {
      upwards := !upwards;
    }
    var i := if upwards then n - 1 - vertical else vertical;
    VisitedIsInPair(n, p, vertical, z);
    assert Module(i, j) == Visited(n, p, vertical, z);
    next := PlaceOne(matrix, codewords, idx, i, j);
  }

  /** Both modules of a pair of columns at one height. */
  method PlaceRow(matrix: array2<nat>, codewords: seq<nat>, right: int, vertical: nat, idx: nat,
                  ghost p: nat, ghost g: Grid, ghost before: seq<Module>, ghost pair: seq<Module>) returns (next: nat)
    requires matrix.Length0 == matrix.Length1 && IsSize(matrix.Length0) && p < matrix.Length0 / 2 && right == Right(matrix.Length0, p)
    requires vertical < matrix.Length0 && pair == Pair(matrix.Length0, p)
    requires Walk(GridOf(matrix), idx) == WalkAlong(g, codewords, before + pair[..2 * vertical])
    modifies matrix
    ensures Walk(GridOf(matrix), next) == WalkAlong(g, codewords, before + pair[..2 * vertical + 2])
  {
    next := idx;
    for z := 0 to 2
      invariant Walk(GridOf(matrix), next) == WalkAlong(g, codewords, before + pair[..2 * vertical + z])
    {
      WalkStep(g, codewords, before, pair, 2 * vertical + z);
      NextVisited(matrix.Length0, p, vertical, z);
      next := PlaceAt(matrix, codewords, right, vertical, z, next, p);
    }
  }

  /** One pair of columns. */
  method PlacePair(matrix: array2<nat>, codewords: seq<nat>, p: nat, idx: nat, ghost g: Grid) returns (next: nat)
    requires matrix.Length0 == matrix.Length1 && IsSize(matrix.Length0) && p < matrix.Length0 / 2
    requires Reached(GridOf(matrix), idx, g, codewords, matrix.Length0, p)
    modifies matrix
    ensures Reached(GridOf(matrix), next, g, codewords, matrix.Length0, p + 1)
  {
    var n := matrix.Length0;
    var right := n - 1 - 2 * p;
    if right <= 6 {
      right := right - 1;
    }
    ghost var before, pair := Pairs(n, p), Pair(n, p);
    next := idx;
    assert before + pair[..0] == before;
    for vertical := 0 to n
      invariant Walk(GridOf(matrix), next) == WalkAlong(g, codewords, before + pair[..2 * vertical])
    {
      next := PlaceRow(matrix, codewords, right, vertical, next, p, g, before, pair);
    }
    assert pair[..2 * n] == pair;
  }

  lemma NextVisited(n: nat, p: nat, vertical: nat, z: nat)
    requires vertical < n && z < 2
    ensures Pair(n, p)[2 * vertical + z] == Visited(n, p, vertical, z)
  {
  }

  lemma Arrived(g: Grid, bits: seq<nat>, n: nat, p: nat, h: Grid, idx: nat)
    requires p == n / 2 && Reached(h, idx, g, bits, n, p)
    ensures h == WalkAlong(g, bits, Path(n)).grid && idx == WalkAlong(g, bits, Path(n)).placed
  {
  }

  /** Every pair of columns from right to left; the number of bits placed. */
  method PlaceAll(matrix: array2<nat>, codewords: seq<nat>) returns (idx: nat)
    requires matrix.Length0 == matrix.Length1 && IsSize(matrix.Length0)
    modifies matrix
    ensures Reached(GridOf(matrix), idx, old(GridOf(matrix)), codewords, matrix.Length0, matrix.Length0 / 2)
  {
    var n := matrix.Length0;
    ghost var g := GridOf(matrix);
    idx := 0;
    Departed(g, codewords, n);
    for p := 0 to n / 2
      invariant Reached(GridOf(matrix), idx, g, codewords, n, p)
    {
      idx := PlacePair(matrix, codewords, p, idx, g);
    }
  }

  ghost predicate Reached(h: Grid, idx: nat, g: Grid, bits: seq<nat>, n: nat, p: nat) {
    Walk(h, idx) == WalkAlong(g, bits, Pairs(n, p))
  }

  lemma Departed(g: Grid, bits: seq<nat>, n: nat)
    ensures WalkAlong(g, bits, Pairs(n, 0)) == Walk(g, 0)
  {
  }

  /** False stands for the error raised when the stream does not fit. */
  method AddCodewords(matrix: array2<nat>, codewords: seq<nat>) returns (ok: bool)
    requires matrix.Length0 == matrix.Length1 && IsSize(matrix.Length0)
    modifies matrix
    ensures GridOf(matrix) == WalkAlong(old(GridOf(matrix)), codewords, Path(matrix.Length0)).grid
    ensures ok == (WalkAlong(old(GridOf(matrix)), codewords, Path(matrix.Length0)).placed == |codewords|)
  {
    ghost var g := GridOf(matrix);
    var idx := PlaceAll(matrix, codewords);
    Arrived(g, codewords, matrix.Length0, matrix.Length0 / 2, GridOf(matrix), idx);
    ok := idx == |codewords|;
  }
}
