/**
 * What the XK handshake computes, written out with the primitives alone (section 2.3 of RFC 5869,
 * sections 4.3, 5.2 and 7.5 of the Noise Protocol Framework), and the proof that the handshake
 * states compute just that: which Diffie-Hellman values reach which keys, what stands in the three
 * messages, and what the transcript hash covers.
 */
module KeySchedule {
  import opened Common
  import opened Noise

  // ------------------------------------------------------ keys from key agreements

  /** Block i of the output of the key derivation. */
  function Block(c: Crypto, key: Bytes, i: nat): Bytes
    requires i < 256
  {
    if i == 0 then [] else c.hmac(key, Block(c, key, i - 1) + [i as Byte])
  }

  /** The chaining key after an input. */
  function Chained(c: Crypto, ck: Bytes, input: Bytes): Bytes {
    Block(c, c.hmac(ck, input), 1)
  }

  /** A cipher key has 32 bytes at most when the hash has 64. */
  function Cut(c: Crypto, k: Bytes): Bytes {
    if c.hashlen == 64 then k[..Min(32, |k|)] else k
  }

  /** The cipher key that comes with an input. */
  function Keyed(c: Crypto, ck: Bytes, input: Bytes): Bytes {
    Cut(c, Block(c, c.hmac(ck, input), 2))
  }

  /** The chaining key after a list of inputs. */
  function Chain(c: Crypto, ck: Bytes, inputs: seq<Bytes>): Bytes {
    if inputs == [] then ck else Chained(c, Chain(c, ck, inputs[..|inputs| - 1]), inputs[|inputs| - 1])
  }

  /** The hash after a list of parts of the transcript. */
  function Digest(c: Crypto, h: Bytes, parts: seq<Bytes>): Bytes {
    if parts == [] then h else c.hash(Digest(c, h, parts[..|parts| - 1]) + parts[|parts| - 1])
  }

  lemma MixKeyIs(c: Crypto, y: Symmetric, input: Bytes)
    ensures MixKey(c, y, input) == Symmetric(y.h, Chained(c, y.ck, input), Cipher(Some(Keyed(c, y.ck, input)), 0))
  {
    var t := c.hmac(y.ck, input);
    BlocksAre(c, t);
    CutIs(c, Block(c, t, 2));
  }

  lemma MixKeyAndHashIs(c: Crypto, y: Symmetric, input: Bytes)
    ensures var key := c.hmac(y.ck, input);
            MixKeyAndHash(c, y, input) ==
              Symmetric(c.hash(y.h + Block(c, key, 2)), Block(c, key, 1), Cipher(Some(Cut(c, Block(c, key, 3))), 0))
  {
    var key := c.hmac(y.ck, input);
    BlocksAre(c, key);
    CutIs(c, Block(c, key, 3));
  }

  lemma CutIs(c: Crypto, k: Bytes)
    ensures Cut(c, k) == KeyOf(c, k)
  {
    assert k[..|k|] == k;
  }

  lemma BlocksAre(c: Crypto, key: Bytes)
    ensures Block(c, key, 1) == c.hmac(key, [1]) && Block(c, key, 2) == c.hmac(key, c.hmac(key, [1]) + [2])
  {
    assert [] + [1 as Byte] == [1];
  }

  lemma DigestSnoc(c: Crypto, h: Bytes, parts: seq<Bytes>, part: Bytes)
    ensures Digest(c, h, parts + [part]) == c.hash(Digest(c, h, parts) + part)
  {
    assert (parts + [part])[..|parts|] == parts;
  }

  lemma ChainSnoc(c: Crypto, ck: Bytes, inputs: seq<Bytes>, input: Bytes)
    ensures Chain(c, ck, inputs + [input]) == Chained(c, Chain(c, ck, inputs), input)
  {
    assert (inputs + [input])[..|inputs|] == inputs;
  }

  // ---------------------------------------------------------------- a session

  /** The private keys of both ends, their ephemeral private keys, and what they say. */
  datatype Session = Session(name: Bytes, prologue: Bytes, phone: Bytes, host: Bytes, phoneNew: Bytes, hostNew: Bytes,
                             first: Bytes, second: Bytes, third: Bytes)

  /** The first chaining key and hash: the protocol name, padded with zeros or hashed. */
  function Named(c: Crypto, s: Session): Bytes {
    if |s.name| > c.hashlen then c.hash(s.name) else s.name + seq(c.hashlen - |s.name|, i => 0)
  }

  /** The three key agreements: new with static, new with new, static with new. */
  function Agreed(c: Crypto, s: Session): (inputs: seq<Bytes>)
    ensures |inputs| == 3
  {
    [c.dh(s.phoneNew, c.pub(s.host)), c.dh(s.phoneNew, c.pub(s.hostNew)), c.dh(s.phone, c.pub(s.hostNew))]
  }

  /** The cipher key that the key agreement at a position brings. */
  function AgreedKey(c: Crypto, s: Session, i: nat): Bytes
    requires i < 3
  {
    Keyed(c, Chain(c, Named(c, s), Agreed(c, s)[..i]), Agreed(c, s)[i])
  }

  /** The parts of the transcript up to the end of the first message, of the second and of the third. */
  function Parts1(c: Crypto, s: Session): seq<Bytes> {
    var before := [s.prologue, c.pub(s.host), c.pub(s.phoneNew)];
    before + [c.seal(AgreedKey(c, s, 0), 0, Digest(c, Named(c, s), before), s.first)]
  }

  function Parts2(c: Crypto, s: Session): seq<Bytes> {
    var before := Parts1(c, s) + [c.pub(s.hostNew)];
    before + [c.seal(AgreedKey(c, s, 1), 0, Digest(c, Named(c, s), before), s.second)]
  }

  function Parts3(c: Crypto, s: Session): seq<Bytes> {
    var before := Parts2(c, s) + [c.seal(AgreedKey(c, s, 1), 1, Digest(c, Named(c, s), Parts2(c, s)), c.pub(s.phone))];
    before + [c.seal(AgreedKey(c, s, 2), 0, Digest(c, Named(c, s), before), s.third)]
  }

  /** A message: the two parts that it adds to the transcript. */
  function Message(parts: seq<Bytes>): Bytes
    requires |parts| >= 2
  {
    parts[|parts| - 2] + parts[|parts| - 1]
  }

  /** The ciphers after the handshake: the initiator sends with the first, the responder with the second. */
  function FinalCiphers(c: Crypto, s: Session): (Cipher, Cipher) {
    var key := c.hmac(Chain(c, Named(c, s), Agreed(c, s)), []);
    (Cipher(Some(Cut(c, Block(c, key, 1))), 0), Cipher(Some(Cut(c, Block(c, key, 2))), 0))
  }

  /** Where the symmetric state of both ends stands after i + 1 messages. */
  ghost predicate Stands(c: Crypto, s: Session, parts: seq<Bytes>, i: nat, y: Symmetric)
    requires i < 3
  {
    y == Symmetric(Digest(c, Named(c, s), parts), Chain(c, Named(c, s), Agreed(c, s)[..i + 1]), Cipher(Some(AgreedKey(c, s, i)), 1))
  }

  // ------------------------------------------------------------ single messages

  /** What a message with an ephemeral key and a key agreement does at its writer. */
  lemma EphemeralMessage(c: Crypto, w: Handshake, u: Token, payload: Bytes, newKey: Bytes, input: Bytes)
    requires w.patterns != [] && w.patterns[0] == [E, u] && w.e.None? && !w.isPsk
    requires (u.EE? || u.ES?) && MixedDh(c, w.(e := Some(newKey)), u).Ok?
    requires var (a, b) := DhKeys(w.(e := Some(newKey)), u); input == c.dh(a.value, b.value)
    ensures var h := c.hash(w.sym.h + c.pub(newKey));
            var key := Keyed(c, w.sym.ck, input);
            var sealed := c.seal(key, 0, h, payload);
            Written(c, w, payload, newKey) ==
              Ok((w.(patterns := w.patterns[1..], e := Some(newKey),
                     sym := Symmetric(c.hash(h + sealed), Chained(c, w.sym.ck, input), Cipher(Some(key), 1))),
                  c.pub(newKey) + sealed))
  {
    var x := w.(patterns := w.patterns[1..]);
    var x1 := x.(e := Some(newKey), sym := MixHash(c, x.sym, c.pub(newKey)));
    assert WriteToken(c, x, E, newKey) == Ok((x1, c.pub(newKey)));
    TwoWritten(c, x, E, u, newKey, x1, c.pub(newKey));
    MixKeyIs(c, x1.sym, input);
  }

  /** What a message with the static key and a key agreement does at its writer. */
  lemma StaticMessage(c: Crypto, w: Handshake, u: Token, payload: Bytes, newKey: Bytes, key: Bytes, input: Bytes)
    requires w.patterns != [] && w.patterns[0] == [S, u] && w.s.Some? && w.sym.cipher == Cipher(Some(key), 1)
    requires u.SE? && MixedDh(c, w, u).Ok?
    requires var (a, b) := DhKeys(w, u); input == c.dh(a.value, b.value)
    ensures var own := c.seal(key, 1, w.sym.h, c.pub(w.s.value));
            var h := c.hash(w.sym.h + own);
            var key' := Keyed(c, w.sym.ck, input);
            var sealed := c.seal(key', 0, h, payload);
            Written(c, w, payload, newKey) ==
              Ok((w.(patterns := w.patterns[1..],
                     sym := Symmetric(c.hash(h + sealed), Chained(c, w.sym.ck, input), Cipher(Some(key'), 1))),
                  own + sealed))
  {
    var x := w.(patterns := w.patterns[1..]);
    var own := c.seal(key, 1, w.sym.h, c.pub(w.s.value));
    var x1 := x.(sym := MixHash(c, x.sym.(cipher := Cipher(Some(key), 2)), own));
    assert WriteToken(c, x, S, newKey) == Ok((x1, own));
    TwoWritten(c, x, S, u, newKey, x1, own);
    MixKeyIs(c, x1.sym, input);
  }

  lemma TwoWritten(c: Crypto, x: Handshake, t: Token, u: Token, newKey: Bytes, x1: Handshake, out: Bytes)
    requires WriteToken(c, x, t, newKey) == Ok((x1, out)) && (u.EE? || u.ES? || u.SE?) && MixedDh(c, x1, u).Ok?
    ensures WriteTokens(c, x, [t, u], newKey) == Ok((MixedDh(c, x1, u).value, out))
  {
    assert [t, u][..1] == [t] && [t][..0] == [];
    assert [] + out == out && out + [] == out;
    assert WriteTokens(c, x, [t], newKey) == Ok((x1, out));
  }

  // ------------------------------------------------------------ the handshake

  /** The initiator at the start. */
  function Phone(c: Crypto, s: Session): Handshake {
    InitialXK(c, s.name, s.prologue, true, s.phone, None, c.pub(s.host))
  }

  function Host(c: Crypto, s: Session): Handshake {
    InitialXK(c, s.name, s.prologue, false, s.host, None, c.pub(s.host))
  }

  lemma StartStands(c: Crypto, s: Session)
    ensures Phone(c, s).sym == Symmetric(Digest(c, Named(c, s), [s.prologue, c.pub(s.host)]), Named(c, s), Cipher(None, 0))
  {
    DigestSnoc(c, Named(c, s), [], s.prologue);
    assert [] + [s.prologue] == [s.prologue];
    DigestSnoc(c, Named(c, s), [s.prologue], c.pub(s.host));
    assert [s.prologue] + [c.pub(s.host)] == [s.prologue, c.pub(s.host)];
  }

  /** Two more parts and one more input, as the state has them and as the lists have them. */
  lemma Advances(c: Crypto, s: Session, parts: seq<Bytes>, a: Bytes, b: Bytes, i: nat)
    requires i < 3
    ensures Digest(c, Named(c, s), parts + [a]) == c.hash(Digest(c, Named(c, s), parts) + a)
    ensures Digest(c, Named(c, s), parts + [a] + [b]) == c.hash(Digest(c, Named(c, s), parts + [a]) + b)
    ensures Chain(c, Named(c, s), Agreed(c, s)[..i + 1]) ==
              Chained(c, Chain(c, Named(c, s), Agreed(c, s)[..i]), Agreed(c, s)[i])
  {
    DigestSnoc(c, Named(c, s), parts, a);
    DigestSnoc(c, Named(c, s), parts + [a], b);
    assert Agreed(c, s)[..i + 1] == Agreed(c, s)[..i] + [Agreed(c, s)[i]];
    ChainSnoc(c, Named(c, s), Agreed(c, s)[..i], Agreed(c, s)[i]);
  }

  lemma FirstMessage(c: Crypto, s: Session) returns (i: Handshake, r: Handshake)
    requires Lawful(c)
    ensures XkStage(c, i, r, s.phone, s.host, 1) && i.e == Some(s.phoneNew)
    ensures Flight(c, Phone(c, s), Host(c, s), s.first, s.phoneNew, i, r)
    ensures Written(c, Phone(c, s), s.first, s.phoneNew).value.1 == Message(Parts1(c, s)) && Stands(c, s, Parts1(c, s), 0, i.sym)
  {
    i, r := XkFirst(c, Phone(c, s), Host(c, s), s.phone, s.host, s.first, s.phoneNew);
    StartStands(c, s);
    EphemeralMessage(c, Phone(c, s), ES, s.first, s.phoneNew, Agreed(c, s)[0]);
    var start := [s.prologue, c.pub(s.host)];
    assert start + [c.pub(s.phoneNew)] == [s.prologue, c.pub(s.host), c.pub(s.phoneNew)];
    Advances(c, s, start, c.pub(s.phoneNew), Parts1(c, s)[3], 0);
    assert Agreed(c, s)[..0] == [];
  }

  lemma SecondMessage(c: Crypto, s: Session, i: Handshake, r: Handshake) returns (i': Handshake, r': Handshake)
    requires Lawful(c) && XkStage(c, i, r, s.phone, s.host, 1) && i.e == Some(s.phoneNew) && Stands(c, s, Parts1(c, s), 0, i.sym)
    ensures XkStage(c, i', r', s.phone, s.host, 2) && r'.e == Some(s.hostNew)
    ensures Flight(c, r, i, s.second, s.hostNew, r', i')
    ensures Written(c, r, s.second, s.hostNew).value.1 == Message(Parts2(c, s)) && Stands(c, s, Parts2(c, s), 1, i'.sym)
  {
    i', r' := XkSecond(c, i, r, s.phone, s.host, s.second, s.hostNew);
    assert XK[1..][0] == [E, EE];
    assert c.dh(s.hostNew, c.pub(s.phoneNew)) == Agreed(c, s)[1];
    EphemeralMessage(c, r, EE, s.second, s.hostNew, Agreed(c, s)[1]);
    Advances(c, s, Parts1(c, s), c.pub(s.hostNew), Parts2(c, s)[5], 1);
  }

  lemma ThirdMessage(c: Crypto, s: Session, i: Handshake, r: Handshake) returns (i': Handshake, r': Handshake)
    requires Lawful(c) && XkStage(c, i, r, s.phone, s.host, 2) && r.e == Some(s.hostNew) && Stands(c, s, Parts2(c, s), 1, i.sym)
    ensures XkStage(c, i', r', s.phone, s.host, 3)
    ensures Flight(c, i, r, s.third, s.phoneNew, i', r')
    ensures Written(c, i, s.third, s.phoneNew).value.1 == Message(Parts3(c, s)) && Stands(c, s, Parts3(c, s), 2, i'.sym)
  {
    i', r' := XkThird(c, i, r, s.phone, s.host, s.third, s.phoneNew);
    assert XK[2..][0] == [S, SE];
    StaticMessage(c, i, SE, s.third, s.phoneNew, AgreedKey(c, s, 1), Agreed(c, s)[2]);
    Advances(c, s, Parts2(c, s), Parts3(c, s)[6], Parts3(c, s)[7], 2);
  }

  lemma FinalCiphersAre(c: Crypto, s: Session, x: Handshake)
    requires x.sym.ck == Chain(c, Named(c, s), Agreed(c, s))
    ensures Transport(c, x) == if x.initiator then FinalCiphers(c, s) else (FinalCiphers(c, s).1, FinalCiphers(c, s).0)
  {
    var key := c.hmac(x.sym.ck, []);
    BlocksAre(c, key);
    CutIs(c, Block(c, key, 1));
    CutIs(c, Block(c, key, 2));
  }

  /**
   * The three XK messages go through, and everything in them and after them is what the primitives
   * make of the two static keys, the two ephemeral keys and the payloads: the messages, the hash
   * of the transcript, the chaining key from the three key agreements in their order, and the two
   * transport keys, the first of which the initiator sends with.
   */
  lemma HandshakeComputes(c: Crypto, s: Session)
    returns (i1: Handshake, r1: Handshake, i2: Handshake, r2: Handshake, i3: Handshake, r3: Handshake)
    requires Lawful(c)
    ensures Flight(c, Phone(c, s), Host(c, s), s.first, s.phoneNew, i1, r1)
    ensures Flight(c, r1, i1, s.second, s.hostNew, r2, i2)
    ensures Flight(c, i2, r2, s.third, s.phoneNew, i3, r3)
    ensures Written(c, Phone(c, s), s.first, s.phoneNew).value.1 == Message(Parts1(c, s))
    ensures Written(c, r1, s.second, s.hostNew).value.1 == Message(Parts2(c, s))
    ensures Written(c, i2, s.third, s.phoneNew).value.1 == Message(Parts3(c, s))
    ensures i3.patterns == r3.patterns == [] && i3.sym.h == r3.sym.h == Digest(c, Named(c, s), Parts3(c, s))
    ensures i3.sym.ck == r3.sym.ck == Chain(c, Named(c, s), Agreed(c, s))
    ensures Transport(c, i3) == FinalCiphers(c, s) && Transport(c, r3) == (FinalCiphers(c, s).1, FinalCiphers(c, s).0)
    ensures i3.rs == Some(c.pub(s.host)) && r3.rs == Some(c.pub(s.phone))
  {
    i1, r1 := FirstMessage(c, s);
    i2, r2 := SecondMessage(c, s, i1, r1);
    i3, r3 := ThirdMessage(c, s, i2, r2);
    assert Agreed(c, s)[..3] == Agreed(c, s);
    FinalCiphersAre(c, s, i3);
    FinalCiphersAre(c, s, r3);
  }

  // ------------------------------------------------------- nothing is left out

  /** Two different inputs that the primitive maps to one value. */
  ghost predicate Collides(c: Crypto) {
    exists k, m, k', m' :: (k != k' || m != m') && c.hmac(k, m) == c.hmac(k', m')
  }

  lemma ChainedCollides(c: Crypto, ck: Bytes, input: Bytes, ck': Bytes, input': Bytes)
    requires Chained(c, ck, input) == Chained(c, ck', input') && (ck != ck' || input != input')
    ensures Collides(c)
  {
    BlocksAre(c, c.hmac(ck, input));
    BlocksAre(c, c.hmac(ck', input'));
    assert c.hmac(c.hmac(ck, input), [1]) == c.hmac(c.hmac(ck', input'), [1]);
  }

  lemma {:induction false} ChainCollides(c: Crypto, ck: Bytes, a: seq<Bytes>, ck': Bytes, b: seq<Bytes>)
    requires |a| == |b| && Chain(c, ck, a) == Chain(c, ck', b) && (ck != ck' || a != b)
    ensures Collides(c)
    decreases |a|
  {
    if a != [] {
      var n := |a| - 1;
      if Chain(c, ck, a[..n]) != Chain(c, ck', b[..n]) || a[n] != b[n] {
        ChainedCollides(c, Chain(c, ck, a[..n]), a[n], Chain(c, ck', b[..n]), b[n]);
      } else {
        assert a == a[..n] + [a[n]] && b == b[..n] + [b[n]];
        ChainCollides(c, ck, a[..n], ck', b[..n]);
      }
    }
  }

  /**
   * Every key agreement counts: two sessions that start from different names, or differ in any of
   * the three key agreements, and yet end with one chaining key, or with one uncut transport key
   * for the same direction, give a collision of the primitive.
   */
  lemma EveryAgreementCounts(c: Crypto, s: Session, t: Session)
    requires Named(c, s) != Named(c, t) || Agreed(c, s) != Agreed(c, t)
    requires Chain(c, Named(c, s), Agreed(c, s)) == Chain(c, Named(c, t), Agreed(c, t))
             || (c.hashlen != 64
                 && (FinalCiphers(c, s).0 == FinalCiphers(c, t).0 || FinalCiphers(c, s).1 == FinalCiphers(c, t).1))
    ensures Collides(c)
  {
    var x, y := Chain(c, Named(c, s), Agreed(c, s)), Chain(c, Named(c, t), Agreed(c, t));
    if x == y {
      ChainCollides(c, Named(c, s), Agreed(c, s), Named(c, t), Agreed(c, t));
    } else {
      var k, l := c.hmac(x, []), c.hmac(y, []);
      BlocksAre(c, k);
      BlocksAre(c, l);
      if k != l {
        assert k != l && (c.hmac(k, [1]) == c.hmac(l, [1]) || c.hmac(k, c.hmac(k, [1]) + [2]) == c.hmac(l, c.hmac(l, [1]) + [2]));
      }
    }
  }
}
