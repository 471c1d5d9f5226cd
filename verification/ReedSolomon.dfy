/**
 * Reed-Solomon error words of QR symbols: the extended synthetic division with logarithm tables
 * computes the remainder of the data by the generator, so that data and error words together are a
 * multiple of it.
 */
module ReedSolomon {
  import opened Common
  import opened Galois

  // ------------------------------------------------------------ polynomials

  predicate Bytes(s: seq<nat>) {
    forall i :: 0 <= i < |s| ==> s[i] < 256
  }

  /** A row of the generator table: logarithms of all but the leading coefficient. */
  predicate Logarithms(gen: seq<nat>) {
    forall m :: 0 <= m < |gen| ==> gen[m] < 255
  }

  /** Polynomials have their highest coefficient first. A generator is monic; its table gives logarithms of the rest. */
  function Generator(exp: seq<nat>, gen: seq<nat>): (g: seq<nat>)
    requires forall m :: 0 <= m < |gen| ==> gen[m] < |exp|
    ensures |g| == |gen| + 1 && g[0] == 1 && forall m :: 0 <= m < |gen| ==> g[m + 1] == exp[gen[m]]
  {
    [1] + seq(|gen|, m requires 0 <= m < |gen| => exp[gen[m]])
  }

  function Term(c: nat, g: seq<nat>, d: int): nat {
    if 0 <= d < |g| then Mul(c, g[d]) else 0
  }

  /** The coefficient at a position of the product of two polynomials. */
  function Product(q: seq<nat>, g: seq<nat>, t: int): nat
  {
    if q == [] then 0 else Xor(Product(q[..|q| - 1], g, t), Term(q[|q| - 1], g, t - (|q| - 1)))
  }

  /** One polynomial is a multiple of another, by this quotient. */
  ghost predicate IsProduct(c: seq<nat>, q: seq<nat>, g: seq<nat>) {
    |g| > 0 && |c| == |q| + |g| - 1 && forall t {:trigger c[t]} :: 0 <= t < |c| ==> c[t] == Product(q, g, t)
  }

  lemma ProductSnoc(q: seq<nat>, c: nat, g: seq<nat>, t: int)
    ensures Product(q + [c], g, t) == Xor(Product(q, g, t), Term(c, g, t - |q|))
  {
    assert (q + [c])[..|q|] == q;
  }

  /** What is left of the dividend once the first coefficients of the quotient are settled. */
  function Rest(buf: seq<nat>, k: nat, t: nat): nat {
    if k <= t < |buf| then buf[t] else 0
  }

  /** The dividend is the quotient so far times the generator, plus the rest. */
  ghost predicate Dividing(dividend: seq<nat>, buf: seq<nat>, k: nat, g: seq<nat>) {
    && |dividend| == |buf| && k <= |buf|
    && forall t {:trigger dividend[t]} :: 0 <= t < |dividend| ==> dividend[t] == Xor(Product(buf[..k], g, t), Rest(buf, k, t))
  }

  /** One step: subtract the leading coefficient times the generator. */
  ghost predicate Subtracted(buf: seq<nat>, after: seq<nat>, k: nat, g: seq<nat>) {
    && |after| == |buf| && k < |buf|
    && forall t {:trigger after[t]} :: 0 <= t < |buf| ==> after[t] == if t <= k then buf[t] else Xor(buf[t], Term(buf[k], g, t - k))
  }

  lemma StepCoefficient(p: nat, r: nat, c: nat)
    ensures Xor(p, r) == Xor(Xor(p, c), Xor(r, c)) && Xor(p, 0) == p
  {
    XorCancel(p, r, c);
    XorComm(p, 0);
  }

  lemma StepDivides(dividend: seq<nat>, buf: seq<nat>, after: seq<nat>, k: nat, g: seq<nat>)
    requires Dividing(dividend, buf, k, g) && Subtracted(buf, after, k, g) && |g| > 0 && g[0] == 1
    ensures Dividing(dividend, after, k + 1, g)
  {
    assert after[..k + 1] == buf[..k] + [buf[k]];
    forall t | 0 <= t < |dividend| ensures dividend[t] == Xor(Product(after[..k + 1], g, t), Rest(after, k + 1, t)) {
      ProductSnoc(buf[..k], buf[k], g, t);
      StepAt(buf, after, k, t, g, Product(buf[..k], g, t));
    }
  }

  lemma StepAt(buf: seq<nat>, after: seq<nat>, k: nat, t: nat, g: seq<nat>, p: nat)
    requires Subtracted(buf, after, k, g) && |g| > 0 && g[0] == 1 && t < |buf|
    ensures Xor(p, Rest(buf, k, t)) == Xor(Xor(p, Term(buf[k], g, t - k)), Rest(after, k + 1, t))
  {
    var c := Term(buf[k], g, t - k);
    MulUnit(buf[k]);
    StepCoefficient(p, Rest(buf, k, t), c);
    XorSelf(c);
    XorComm(Xor(p, c), 0);
    assert after[t] == if t <= k then buf[t] else Xor(buf[t], c);
  }

  lemma NothingDivided(dividend: seq<nat>, g: seq<nat>)
    ensures Dividing(dividend, dividend, 0, g)
  {
    assert dividend[..0] == [];
  }

  /** The data followed by the remainder is a multiple of the generator. */
  lemma DividedIsProduct(data: seq<nat>, n: nat, buf: seq<nat>, g: seq<nat>)
    requires |g| == n + 1 && |buf| == |data| + n && Dividing(data + Zeros(n), buf, |data|, g)
    ensures IsProduct(data + buf[|data|..], buf[..|data|], g)
  {
    var c, d := data + buf[|data|..], data + Zeros(n);
    forall t | 0 <= t < |c| ensures c[t] == Product(buf[..|data|], g, t) {
      var p := Product(buf[..|data|], g, t);
      assert d[t] == Xor(p, Rest(buf, |data|, t));
      if t >= |data| {
        assert d[t] == 0 && c[t] == buf[t];
        XorZero(p, buf[t]);
      } else {
        assert d[t] == c[t];
        XorComm(p, 0);
      }
    }
  }

  lemma XorZero(a: nat, b: nat)
    requires Xor(a, b) == 0
    ensures a == b
  {
    XorAssoc(a, b, b);
    XorSelf(b);
    XorComm(a, 0);
  }

  function Zeros(n: nat): (z: seq<nat>)
    ensures |z| == n && forall i :: 0 <= i < n ==> z[i] == 0
  {
    seq(n, _ => 0)
  }

  // -------------------------------------------------------- only one remainder

  lemma {:induction false} ProductBeyond(q: seq<nat>, g: seq<nat>, t: nat, n: nat)
    requires t < n <= |q|
    ensures Product(q[..n], g, t) == Product(q[..t + 1], g, t)
    decreases n
  {
    if n > t + 1 {
      assert q[..n][..n - 1] == q[..n - 1];
      ProductBeyond(q, g, t, n - 1);
      XorComm(Product(q[..n - 1], g, t), 0);
    }
  }

  /** The leading coefficients of a multiple determine its quotient, one by one. */
  lemma LeadingCoefficient(q: seq<nat>, g: seq<nat>, t: nat)
    requires |g| > 0 && g[0] == 1 && t < |q|
    ensures q[t] == Xor(Product(q[..t], g, t), Product(q, g, t))
  {
    assert q[..|q|] == q;
    ProductBeyond(q, g, t, |q|);
    PrefixCoefficient(q, g, t);
    XorBack(Product(q[..t], g, t), q[t]);
  }

  lemma PrefixCoefficient(q: seq<nat>, g: seq<nat>, t: nat)
    requires |g| > 0 && g[0] == 1 && t < |q|
    ensures Product(q[..t + 1], g, t) == Xor(Product(q[..t], g, t), q[t])
  {
    assert q[..t + 1] == q[..t] + [q[t]];
    ProductSnoc(q[..t], q[t], g, t);
    MulUnit(q[t]);
  }

  lemma XorBack(p: nat, c: nat)
    ensures Xor(p, Xor(p, c)) == c
  {
    XorAssoc(p, p, c);
    XorSelf(p);
  }

  lemma {:induction false} SameQuotient(p: seq<nat>, q: seq<nat>, g: seq<nat>, n: nat)
    requires |g| > 0 && g[0] == 1 && n <= |p| == |q|
    requires forall t {:trigger Product(p, g, t)} :: 0 <= t < |p| ==> Product(p, g, t) == Product(q, g, t)
    ensures p[..n] == q[..n]
    decreases n
  {
    if n > 0 {
      SameQuotient(p, q, g, n - 1);
      LeadingCoefficient(p, g, n - 1);
      LeadingCoefficient(q, g, n - 1);
      assert p[n - 1] == q[n - 1];
      assert p[..n] == p[..n - 1] + [p[n - 1]] && q[..n] == q[..n - 1] + [q[n - 1]];
    }
  }

  /** Only one list of error words makes the data a multiple of a generator. */
  lemma OneRemainder(data: seq<nat>, e: seq<nat>, f: seq<nat>, p: seq<nat>, q: seq<nat>, g: seq<nat>)
    requires |g| > 0 && g[0] == 1 && |p| == |q| == |data|
    requires IsProduct(data + e, p, g) && IsProduct(data + f, q, g)
    ensures e == f
  {
    forall t | 0 <= t < |p| ensures Product(p, g, t) == Product(q, g, t) {
      assert (data + e)[t] == data[t] && (data + f)[t] == data[t];
    }
    SameQuotient(p, q, g, |p|);
    assert p[..|p|] == p && q[..|q|] == q;
    forall i | 0 <= i < |e| ensures e[i] == f[i] {
      assert (data + e)[|data| + i] == e[i] && (data + f)[|data| + i] == f[i];
    }
  }

  // ------------------------------------------------------------- the division

  /** What one entry becomes in the first `m` updates of a step. */
  ghost predicate Updated(before: seq<nat>, after: seq<nat>, k: nat, m: nat, g: seq<nat>) {
    && |after| == |before| && k < |before|
    && forall t {:trigger after[t]} :: 0 <= t < |after| ==>
         after[t] == if k < t <= k + m then Xor(before[t], Term(before[k], g, t - k)) else before[t]
  }

  lemma OneMore(before: seq<nat>, mid: seq<nat>, k: nat, m: nat, g: seq<nat>)
    requires Updated(before, mid, k, m, g) && k + m + 1 < |mid| && m + 1 < |g|
    ensures Updated(before, mid[k + m + 1 := Xor(mid[k + m + 1], Mul(before[k], g[m + 1]))], k, m + 1, g)
  {
  }

  lemma {:induction false} BytesSet(s: seq<nat>, i: nat, x: nat)
    requires Bytes(s) && i < |s| && x < 256
    ensures Bytes(s[i := x])
  {
  }

  lemma UpdatedIsSubtracted(before: seq<nat>, after: seq<nat>, k: nat, g: seq<nat>)
    requires |g| > 0 && Updated(before, after, k, |g| - 1, g)
    ensures Subtracted(before, after, k, g)
  {
    forall t | 0 <= t < |before|
      ensures after[t] == if t <= k then before[t] else Xor(before[t], Term(before[k], g, t - k))
    {
      XorComm(before[t], 0);
    }
  }

  lemma NothingToSubtract(buf: seq<nat>, k: nat, g: seq<nat>)
    requires k < |buf| && buf[k] == 0
    ensures Subtracted(buf, buf, k, g)
  {
    forall t | 0 <= t < |buf| ensures buf[t] == if t <= k then buf[t] else Xor(buf[t], Term(buf[k], g, t - k)) {
      XorComm(buf[t], 0);
      if 0 <= t - k < |g| {
        MulZero(g[t - k]);
      }
    }
  }

  /** The table product of a coefficient and a generator's is their product in the field. */
  lemma TableProduct(exp: seq<nat>, log: seq<nat>, c: nat, l: nat)
    requires GoodTables(exp, log) && 0 < c < 256 && l < 255
    ensures log[c] + l < 510 && exp[log[c] + l] == Mul(c, exp[l]) && exp[log[c] + l] < 256
  {
    PowersMultiply(exp, log, log[c], l);
  }

  /** The error words of a block, by division in place; the quotient is what the block's own entries become. */
  method ErrorWords(exp: seq<nat>, log: seq<nat>, block: seq<nat>, gen: seq<nat>) returns (errors: seq<nat>, ghost quotient: seq<nat>)
    requires GoodTables(exp, log) && Bytes(block) && Logarithms(gen)
    ensures |errors| == |gen| && Bytes(errors) && |quotient| == |block| && Bytes(quotient)
    ensures IsProduct(block + errors, quotient, Generator(exp, gen))
  {
    var len, n := |block|, |gen|;
    ghost var g := Generator(exp, gen);
    var buf := new nat[len + n](i requires 0 <= i => if i < len then block[i] else 0);
    assert buf[..] == block + Zeros(n);
    NothingDivided(buf[..], g);
    for k := 0 to len
      invariant Dividing(block + Zeros(n), buf[..], k, g) && Bytes(buf[..])
    {
      ghost var before := buf[..];
      var coef := buf[k];
      if coef != 0 {
        SubtractInPlace(exp, log, buf, k, gen, g);
        UpdatedIsSubtracted(before, buf[..], k, g);
      } else {
        NothingToSubtract(before, k, g);
      }
      StepDivides(block + Zeros(n), before, buf[..], k, g);
    }
    DividedIsProduct(block, n, buf[..], g);
    errors, quotient := buf[len..], buf[..len];
    assert buf[..][len..] == errors && buf[..][..len] == quotient;
  }

  /** One update by the tables, with its indices in range. */
  lemma TableUpdate(exp: seq<nat>, log: seq<nat>, gen: seq<nat>, before: seq<nat>, mid: seq<nat>, k: nat, m: nat, g: seq<nat>)
    requires GoodTables(exp, log) && Bytes(mid) && Logarithms(gen) && g == Generator(exp, gen) && m < |gen|
    requires k + |gen| < |mid| && Updated(before, mid, k, m, g) && mid[k] != 0
    ensures log[mid[k]] + gen[m] < 510
    ensures var t := mid[k + m + 1 := Xor(mid[k + m + 1], exp[log[mid[k]] + gen[m]])];
            Updated(before, t, k, m + 1, g) && Bytes(t) && t[k] == mid[k]
  {
    assert mid[k] == before[k];
    TableProduct(exp, log, mid[k], gen[m]);
    OneMore(before, mid, k, m, g);
    XorByte(mid[k + m + 1], exp[log[mid[k]] + gen[m]]);
    BytesSet(mid, k + m + 1, Xor(mid[k + m + 1], exp[log[mid[k]] + gen[m]]));
  }

  /** One step of the division: subtract the leading coefficient times the generator, entry by entry. */
  method SubtractInPlace(exp: seq<nat>, log: seq<nat>, buf: array<nat>, k: nat, gen: seq<nat>, ghost g: seq<nat>)
    requires GoodTables(exp, log) && Bytes(buf[..]) && Logarithms(gen) && g == Generator(exp, gen)
    requires k + |gen| < buf.Length && buf[k] != 0
    modifies buf
    ensures Updated(old(buf[..]), buf[..], k, |gen|, g) && Bytes(buf[..])
  {
    var coef := buf[k];
    var l := log[coef];
    for m := 0 to |gen|
      invariant Updated(old(buf[..]), buf[..], k, m, g) && Bytes(buf[..]) && buf[k] == coef
    {
      ghost var mid := buf[..];
      TableUpdate(exp, log, gen, old(buf[..]), mid, k, m, g);
      var x := Xor(buf[k + m + 1], exp[l + gen[m]]);
      buf[k + m + 1] := x;
      assert buf[..] == mid[k + m + 1 := x];
    }
  }

  // ------------------------------------------------------------- the blocks

  /** Blocks of one kind: how many, and how many words each has in all and for data. */
  datatype Info = Info(blocks: nat, total: nat, data: nat)

  /** The data of one block, and how many error words it gets. */
  datatype Chunk = Chunk(data: seq<nat>, errors: nat)

  function Take(words: seq<nat>, n: nat): seq<nat> {
    words[..Min(n, |words|)]
  }

  function Drop(words: seq<nat>, n: nat): seq<nat> {
    words[Min(n, |words|)..]
  }

  /** Blocks of one kind from the front of the words; short words leave the last blocks short. */
  function Alike(words: seq<nat>, blocks: nat, size: nat, errors: nat): (cs: seq<Chunk>)
    decreases blocks
  {
    if blocks == 0 then [] else [Chunk(Take(words, size), errors)] + Alike(Drop(words, size), blocks - 1, size, errors)
  }

  function DropBlocks(words: seq<nat>, blocks: nat, size: nat): seq<nat>
    decreases blocks
  {
    if blocks == 0 then words else DropBlocks(Drop(words, size), blocks - 1, size)
  }

  predicate Sensible(infos: seq<Info>) {
    forall i {:trigger infos[i]} :: 0 <= i < |infos| ==> infos[i].data <= infos[i].total
  }

  /** How the words of a symbol are cut into blocks. */
  function Chunks(words: seq<nat>, infos: seq<Info>): (cs: seq<Chunk>)
    requires Sensible(infos)
    decreases |infos|
  {
    if infos == [] then []
    else
      var info := infos[0];
      Alike(words, info.blocks, info.data, info.total - info.data)
      + Chunks(DropBlocks(words, info.blocks, info.data), infos[1..])
  }

  /** A block with its error words: a codeword of the code that its generator spans. */
  ghost predicate IsCodeword(exp: seq<nat>, gen: seq<nat>, data: seq<nat>, errors: seq<nat>) {
    && |errors| == |gen| && Bytes(errors) && Logarithms(gen) && |exp| == 510
    && exists q :: |q| == |data| && Bytes(q) && IsProduct(data + errors, q, Generator(exp, gen))
  }

  /** What is right for one chunk. */
  ghost function Protection(exp: seq<nat>, genPoly: map<nat, seq<nat>>): (Chunk, seq<nat>, seq<nat>) -> bool {
    (c: Chunk, data, errors) =>
      data == c.data && |errors| == c.errors && c.errors in genPoly && IsCodeword(exp, genPoly[c.errors], data, errors)
  }

  /** Chunk by chunk, the two lists of blocks are right. */
  ghost predicate AllRight(right: (Chunk, seq<nat>, seq<nat>) -> bool, cs: seq<Chunk>, data: seq<seq<nat>>, errors: seq<seq<nat>>) {
    |cs| == |data| == |errors| && forall i {:trigger cs[i]} :: 0 <= i < |cs| ==> right(cs[i], data[i], errors[i])
  }

  lemma OneMoreRight(right: (Chunk, seq<nat>, seq<nat>) -> bool, cs: seq<Chunk>, data: seq<seq<nat>>, errors: seq<seq<nat>>,
                     c: Chunk, d: seq<nat>, e: seq<nat>)
    requires AllRight(right, cs, data, errors) && right(c, d, e)
    ensures AllRight(right, cs + [c], data + [d], errors + [e])
  {
  }

  /** A generator row of the right length for every number of error words that occurs. */
  predicate Covers(genPoly: map<nat, seq<nat>>, infos: seq<Info>) {
    Sensible(infos) && forall i {:trigger infos[i]} :: 0 <= i < |infos| ==>
      HasRow(genPoly, infos[i].total - infos[i].data)
  }

  predicate HasRow(genPoly: map<nat, seq<nat>>, n: nat) {
    n in genPoly && |genPoly[n]| == n && Logarithms(genPoly[n])
  }

  method Protect(exp: seq<nat>, log: seq<nat>, genPoly: map<nat, seq<nat>>, block: seq<nat>, n: nat) returns (errors: seq<nat>)
    requires GoodTables(exp, log) && Bytes(block) && HasRow(genPoly, n)
    ensures Protection(exp, genPoly)(Chunk(block, n), block, errors)
  {
    ghost var q;
    errors, q := ErrorWords(exp, log, block, genPoly[n]);
    assert IsCodeword(exp, genPoly[n], block, errors);
  }

  /** Blocks of one kind are added to those made so far; the words that are left. */
  method AddAlike(exp: seq<nat>, log: seq<nat>, genPoly: map<nat, seq<nat>>, info: Info, words: seq<nat>,
                  data: seq<seq<nat>>, errors: seq<seq<nat>>, ghost cs: seq<Chunk>, ghost right: (Chunk, seq<nat>, seq<nat>) -> bool)
    returns (data': seq<seq<nat>>, errors': seq<seq<nat>>, rest: seq<nat>, ghost done: seq<Chunk>)
    requires GoodTables(exp, log) && Bytes(words) && info.data <= info.total
    requires HasRow(genPoly, info.total - info.data)
    requires right == Protection(exp, genPoly) && AllRight(right, cs, data, errors)
    ensures done == cs + Alike(words, info.blocks, info.data, info.total - info.data) && AllRight(right, done, data', errors')
    ensures rest == DropBlocks(words, info.blocks, info.data) && Bytes(rest)
  {
    var n := info.total - info.data;
    data', errors', rest := data, errors, words;
    done := cs;
    var left := info.blocks;
    while left > 0
      invariant AllRight(right, done, data', errors') && Bytes(rest)
      invariant done + Alike(rest, left, info.data, n) == cs + Alike(words, info.blocks, info.data, n)
      invariant DropBlocks(rest, left, info.data) == DropBlocks(words, info.blocks, info.data)
    {
      var block := Take(rest, info.data);
      var e := Protect(exp, log, genPoly, block, n);
      OneMoreRight(right, done, data', errors', Chunk(block, n), block, e);
      AlikeStep(done, rest, left, info.data, n);
      data', errors', done := data' + [block], errors' + [e], done + [Chunk(block, n)];
      rest, left := Drop(rest, info.data), left - 1;
    }
    assert done == done + Alike(rest, 0, info.data, n);
  }

  lemma AlikeStep(done: seq<Chunk>, words: seq<nat>, blocks: nat, size: nat, n: nat)
    requires blocks > 0
    ensures done + Alike(words, blocks, size, n) == (done + [Chunk(Take(words, size), n)]) + Alike(Drop(words, size), blocks - 1, size, n)
  {
  }

  /** The chunks made, with those that the rest of the plan cuts from the rest of the words, are all. */
  ghost predicate Cut(all: seq<Chunk>, done: seq<Chunk>, rest: seq<nat>, infos: seq<Info>, a: nat) {
    Sensible(infos) && a <= |infos| && done + Chunks(rest, infos[a..]) == all
  }

  lemma CutStep(all: seq<Chunk>, done: seq<Chunk>, rest: seq<nat>, infos: seq<Info>, a: nat)
    requires a < |infos| && Cut(all, done, rest, infos, a)
    ensures var i := infos[a];
            && i.data <= i.total
            && Cut(all, done + Alike(rest, i.blocks, i.data, i.total - i.data), DropBlocks(rest, i.blocks, i.data), infos, a + 1)
  {
    assert infos[a..][0] == infos[a] && infos[a..][1..] == infos[a + 1..];
  }

  lemma CutStarts(words: seq<nat>, infos: seq<Info>)
    requires Sensible(infos)
    ensures Cut(Chunks(words, infos), [], words, infos, 0)
  {
    assert infos[0..] == infos;
  }

  lemma CutEnds(all: seq<Chunk>, done: seq<Chunk>, rest: seq<nat>, infos: seq<Info>)
    requires Cut(all, done, rest, infos, |infos|)
    ensures done == all
  {
  }

  /**
   * The codewords are cut as the plan says; each block gets total minus data error words, and with them
   * is a codeword of its generator.
   */
  method MakeBlocks(exp: seq<nat>, log: seq<nat>, genPoly: map<nat, seq<nat>>, infos: seq<Info>, codewords: seq<nat>)
    returns (dataBlocks: seq<seq<nat>>, errorBlocks: seq<seq<nat>>)
    requires GoodTables(exp, log) && Bytes(codewords) && Covers(genPoly, infos)
    ensures AllRight(Protection(exp, genPoly), Chunks(codewords, infos), dataBlocks, errorBlocks)
  {
    dataBlocks, errorBlocks := [], [];
    var rest := codewords;
    ghost var done: seq<Chunk> := [];
    ghost var right := Protection(exp, genPoly);
    ghost var all := Chunks(codewords, infos);
    CutStarts(codewords, infos);
    for a := 0 to |infos|
      invariant AllRight(right, done, dataBlocks, errorBlocks) && Bytes(rest)
      invariant Cut(all, done, rest, infos, a)
    {
      CutStep(all, done, rest, infos, a);
      assert HasRow(genPoly, infos[a].total - infos[a].data);
      dataBlocks, errorBlocks, rest, done := AddAlike(exp, log, genPoly, infos[a], rest, dataBlocks, errorBlocks, done, right);
    }
    CutEnds(all, done, rest, infos);
  }
}
