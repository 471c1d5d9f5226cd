/**
 * The handshake of the Noise Protocol Framework (sections 5.1, 5.2 and 5.3) over
 * abstract primitives, and the XK pattern of section 7.5.
 */
module Noise {
  import opened Common

  const MAX_NONCE := 0xFFFF_FFFF_FFFF_FFFF
  const TAG_SIZE := 16

  /** The primitives: nothing is known of them but Lawful. */
  datatype Crypto = Crypto(
    hash: Bytes -> Bytes,
    hmac: (Bytes, Bytes) -> Bytes,
    hashlen: nat,
    dhlen: nat,
    pub: Bytes -> Bytes,
    dh: (Bytes, Bytes) -> Bytes,
    seal: (Bytes, nat, Bytes, Bytes) -> Bytes,
    open: (Bytes, nat, Bytes, Bytes) -> Option<Bytes>)

  /** Diffie-Hellman commutes, opening undoes sealing, and lengths are fixed. */
  ghost predicate Lawful(c: Crypto) {
    && (forall a, b {:trigger c.dh(a, c.pub(b))} :: c.dh(a, c.pub(b)) == c.dh(b, c.pub(a)))
    && (forall a {:trigger c.pub(a)} :: |c.pub(a)| == c.dhlen)
    && (forall k, n, ad, p {:trigger c.seal(k, n, ad, p)} ::
          && c.open(k, n, ad, c.seal(k, n, ad, p)) == Some(p)
          && |c.seal(k, n, ad, p)| == |p| + TAG_SIZE)
  }

  datatype Fault = NonceDepleted | NotAuthentic | MissingKey | BadKeyLength | NoPattern | NoPsk

  datatype Token = E | S | EE | ES | SE | SS | PSK

  // --------------------------------------------------------- cipher state

  /** A key, empty before the first key agreement, and the nonce of the next message. */
  datatype Cipher = Cipher(k: Option<Bytes>, n: nat)

  function Sealed(c: Crypto, cs: Cipher, ad: Bytes, plain: Bytes): (r: Result<(Cipher, Bytes), Fault>)
  {
    if cs.n == MAX_NONCE then Err(NonceDepleted)
    else if cs.k.None? then Ok((cs, plain))
    else Ok((cs.(n := cs.n + 1), c.seal(cs.k.value, cs.n, ad, plain)))
  }

  function Opened(c: Crypto, cs: Cipher, ad: Bytes, sealed: Bytes): (r: Result<(Cipher, Bytes), Fault>)
  {
    if cs.n == MAX_NONCE then Err(NonceDepleted)
    else if cs.k.None? then Ok((cs, sealed))
    else
      match c.open(cs.k.value, cs.n, ad, sealed)
      case None => Err(NotAuthentic)
      case Some(plain) => Ok((cs.(n := cs.n + 1), plain))
  }

  /** A message sealed with a cipher state opens with an equal one, and both advance alike. */
  lemma OpenedOfSealed(c: Crypto, cs: Cipher, ad: Bytes, plain: Bytes)
    requires Lawful(c) && Sealed(c, cs, ad, plain).Ok?
    ensures var (cs', sealed) := Sealed(c, cs, ad, plain).value;
            && Opened(c, cs, ad, sealed) == Ok((cs', plain))
            && |sealed| == |plain| + (if cs.k.Some? then TAG_SIZE else 0)
  {
  }

  // ------------------------------------------------------ symmetric state

  datatype Symmetric = Symmetric(h: Bytes, ck: Bytes, cipher: Cipher)

  function Hkdf2(c: Crypto, ck: Bytes, ikm: Bytes): (Bytes, Bytes) {
    var t := c.hmac(ck, ikm);
    var o1 := c.hmac(t, [1]);
    (o1, c.hmac(t, o1 + [2]))
  }

  function Hkdf3(c: Crypto, ck: Bytes, ikm: Bytes): (Bytes, Bytes, Bytes) {
    var t := c.hmac(ck, ikm);
    var (o1, o2) := Hkdf2(c, ck, ikm);
    (o1, o2, c.hmac(t, o2 + [3]))
  }

  /** Hash functions of 64 bytes give keys that are cut to 32. */
  function KeyOf(c: Crypto, k: Bytes): Bytes {
    if c.hashlen == 64 && |k| > 32 then k[..32] else k
  }

  function MixHash(c: Crypto, y: Symmetric, data: Bytes): Symmetric {
    y.(h := c.hash(y.h + data))
  }

  function MixKey(c: Crypto, y: Symmetric, ikm: Bytes): Symmetric {
    var (ck, k) := Hkdf2(c, y.ck, ikm);
    y.(ck := ck, cipher := Cipher(Some(KeyOf(c, k)), 0))
  }

  function MixKeyAndHash(c: Crypto, y: Symmetric, ikm: Bytes): Symmetric {
    var (ck, h, k) := Hkdf3(c, y.ck, ikm);
    MixHash(c, y.(ck := ck), h).(cipher := Cipher(Some(KeyOf(c, k)), 0))
  }

  function SealedAndHashed(c: Crypto, y: Symmetric, plain: Bytes): (r: Result<(Symmetric, Bytes), Fault>)
  {
    match Sealed(c, y.cipher, y.h, plain)
    case Err(e) => Err(e)
    case Ok((cs, sealed)) => Ok((MixHash(c, y.(cipher := cs), sealed), sealed))
  }

  function OpenedAndHashed(c: Crypto, y: Symmetric, sealed: Bytes): (r: Result<(Symmetric, Bytes), Fault>)
  {
    match Opened(c, y.cipher, y.h, sealed)
    case Err(e) => Err(e)
    case Ok((cs, plain)) => Ok((MixHash(c, y.(cipher := cs), sealed), plain))
  }

  lemma OpenedOfSealedAndHashed(c: Crypto, y: Symmetric, plain: Bytes)
    requires Lawful(c) && SealedAndHashed(c, y, plain).Ok?
    ensures var (y', sealed) := SealedAndHashed(c, y, plain).value;
            && OpenedAndHashed(c, y, sealed) == Ok((y', plain))
            && |sealed| == |plain| + (if y.cipher.k.Some? then TAG_SIZE else 0)
  {
    OpenedOfSealed(c, y.cipher, y.h, plain);
  }

  /** The two transport ciphers: the first for initiator to responder. */
  function SplitKeys(c: Crypto, y: Symmetric): (Cipher, Cipher) {
    var (k1, k2) := Hkdf2(c, y.ck, []);
    (Cipher(Some(KeyOf(c, k1)), 0), Cipher(Some(KeyOf(c, k2)), 0))
  }

  // ------------------------------------------------------ handshake state

  /** Local keys are private keys, remote keys are public keys. */
  datatype Handshake = Handshake(
    sym: Symmetric, initiator: bool,
    s: Option<Bytes>, e: Option<Bytes>, rs: Option<Bytes>, re: Option<Bytes>,
    patterns: seq<seq<Token>>, psks: seq<Bytes>, isPsk: bool)

  /** The private and public key that a Diffie-Hellman token combines. */
  function DhKeys(x: Handshake, t: Token): (Option<Bytes>, Option<Bytes>)
    requires t.EE? || t.ES? || t.SE? || t.SS?
  {
    match t
    case EE => (x.e, x.re)
    case ES => if x.initiator then (x.e, x.rs) else (x.s, x.re)
    case SE => if x.initiator then (x.s, x.re) else (x.e, x.rs)
    case SS => (x.s, x.rs)
  }

  function MixedDh(c: Crypto, x: Handshake, t: Token): (r: Result<Handshake, Fault>)
    requires t.EE? || t.ES? || t.SE? || t.SS?
  {
    var (a, b) := DhKeys(x, t);
    if a.None? || b.None? then Err(MissingKey)
    else Ok(x.(sym := MixKey(c, x.sym, c.dh(a.value, b.value))))
  }

  function MixedPsk(c: Crypto, x: Handshake): (r: Result<Handshake, Fault>)
  {
    if x.psks == [] then Err(NoPsk)
    else Ok(x.(sym := MixKeyAndHash(c, x.sym, x.psks[0]), psks := x.psks[1..]))
  }

  /** An ephemeral public key enters the transcript, and the key when there is a pre-shared one. */
  function MixEphemeral(c: Crypto, x: Handshake, key: Bytes): Symmetric {
    var y := MixHash(c, x.sym, key);
    if x.isPsk then MixKey(c, y, key) else y
  }

  /** One token of an outgoing message; `newKey` is the ephemeral key to use if there is none yet. */
  function WriteToken(c: Crypto, x: Handshake, t: Token, newKey: Bytes): (r: Result<(Handshake, Bytes), Fault>)
  {
    match t
    case E =>
      var e := if x.e.Some? then x.e.value else newKey;
      Ok((x.(e := Some(e), sym := MixEphemeral(c, x, c.pub(e))), c.pub(e)))
    case S =>
      if x.s.None? then Err(MissingKey)
      else
        (match SealedAndHashed(c, x.sym, c.pub(x.s.value))
         case Err(f) => Err(f)
         case Ok((y, sealed)) => Ok((x.(sym := y), sealed)))
    case PSK =>
      (match MixedPsk(c, x)
       case Err(f) => Err(f)
       case Ok(x') => Ok((x', [])))
    case _ =>
      (match MixedDh(c, x, t)
       case Err(f) => Err(f)
       case Ok(x') => Ok((x', [])))
  }

  /** At most the first n bytes. */
  function Take(m: Bytes, n: nat): Bytes { m[..Min(n, |m|)] }

  function Drop(m: Bytes, n: nat): Bytes { m[Min(n, |m|)..] }

  /** One token of an incoming message: the new state and the rest of the message. */
  function ReadToken(c: Crypto, x: Handshake, t: Token, m: Bytes): (r: Result<(Handshake, Bytes), Fault>)
  {
    match t
    case E =>
      var key := Take(m, c.dhlen);
      if |key| != c.dhlen then Err(BadKeyLength)
      else Ok((x.(re := Some(key), sym := MixEphemeral(c, x, key)), Drop(m, c.dhlen)))
    case S =>
      var n := c.dhlen + if x.sym.cipher.k.Some? then TAG_SIZE else 0;
      (match OpenedAndHashed(c, x.sym, Take(m, n))
       case Err(f) => Err(f)
       case Ok((y, key)) =>
         if |key| != c.dhlen then Err(BadKeyLength)
         else Ok((x.(rs := Some(key), sym := y), Drop(m, n))))
    case PSK =>
      (match MixedPsk(c, x)
       case Err(f) => Err(f)
       case Ok(x') => Ok((x', m)))
    case _ =>
      (match MixedDh(c, x, t)
       case Err(f) => Err(f)
       case Ok(x') => Ok((x', m)))
  }

  function WriteTokens(c: Crypto, x: Handshake, ts: seq<Token>, newKey: Bytes): (r: Result<(Handshake, Bytes), Fault>)
  {
    if ts == [] then Ok((x, []))
    else
      match WriteTokens(c, x, ts[..|ts| - 1], newKey)
      case Err(f) => Err(f)
      case Ok((x1, out1)) =>
        match WriteToken(c, x1, ts[|ts| - 1], newKey)
        case Err(f) => Err(f)
        case Ok((x2, out2)) => Ok((x2, out1 + out2))
  }

  function ReadTokens(c: Crypto, x: Handshake, ts: seq<Token>, m: Bytes): (r: Result<(Handshake, Bytes), Fault>)
  {
    if ts == [] then Ok((x, m))
    else
      match ReadTokens(c, x, ts[..|ts| - 1], m)
      case Err(f) => Err(f)
      case Ok((x1, m1)) => ReadToken(c, x1, ts[|ts| - 1], m1)
  }

  /** The next message of the pattern, carrying a payload. */
  function Written(c: Crypto, x: Handshake, payload: Bytes, newKey: Bytes): (r: Result<(Handshake, Bytes), Fault>)
  {
    if x.patterns == [] then Err(NoPattern)
    else
      match WriteTokens(c, x.(patterns := x.patterns[1..]), x.patterns[0], newKey)
      case Err(f) => Err(f)
      case Ok((x1, out)) =>
        match SealedAndHashed(c, x1.sym, payload)
        case Err(f) => Err(f)
        case Ok((y, sealed)) => Ok((x1.(sym := y), out + sealed))
  }

  function Read(c: Crypto, x: Handshake, m: Bytes): (r: Result<(Handshake, Bytes), Fault>)
  {
    if x.patterns == [] then Err(NoPattern)
    else
      match ReadTokens(c, x.(patterns := x.patterns[1..]), x.patterns[0], m)
      case Err(f) => Err(f)
      case Ok((x1, rest)) =>
        match OpenedAndHashed(c, x1.sym, rest)
        case Err(f) => Err(f)
        case Ok((y, payload)) => Ok((x1.(sym := y), payload))
  }

  /** The ciphers of one side after the last message: to send with and to receive with. */
  function Transport(c: Crypto, x: Handshake): (tx_rx: (Cipher, Cipher)) {
    var (c1, c2) := SplitKeys(c, x.sym);
    if x.initiator then (c1, c2) else (c2, c1)
  }

  // ------------------------------------------------------- synchronisation

  ghost predicate Matches(c: Crypto, private: Option<Bytes>, remote: Option<Bytes>) {
    remote.Some? ==> private.Some? && remote.value == c.pub(private.value)
  }

  /** Two ends that share a transcript and hold nothing but each other's true public keys. */
  ghost predicate Synchronised(c: Crypto, w: Handshake, r: Handshake) {
    && w.sym == r.sym && w.initiator != r.initiator
    && w.patterns == r.patterns && w.psks == r.psks && w.isPsk == r.isPsk
    && Matches(c, w.s, r.rs) && Matches(c, w.e, r.re)
    && Matches(c, r.s, w.rs) && Matches(c, r.e, w.re)
  }

  /**
   * Whether a reader that has read some tokens holds the two keys of the next one:
   * its own from the start, the peer's from the start or by an E or S token.
   */
  predicate ReaderHolds(x: Handshake, seen: seq<Token>, t: Token) {
    var re := x.re.Some? || E in seen;
    var rs := x.rs.Some? || S in seen;
    match t
    case EE => x.e.Some? && re
    case ES => if x.initiator then x.e.Some? && rs else x.s.Some? && re
    case SE => if x.initiator then x.s.Some? && re else x.e.Some? && rs
    case SS => x.s.Some? && rs
    case _ => true
  }

  predicate ReaderReady(x: Handshake, ts: seq<Token>) {
    forall i :: 0 <= i < |ts| ==> ReaderHolds(x, ts[..i], ts[i])
  }

  lemma ReadTokenSlots(c: Crypto, x: Handshake, t: Token, m: Bytes)
    requires ReadToken(c, x, t, m).Ok?
    ensures var x' := ReadToken(c, x, t, m).value.0;
            && x'.e == x.e && x'.s == x.s && x'.initiator == x.initiator && x'.isPsk == x.isPsk && x'.patterns == x.patterns
            && x'.re.Some? == (x.re.Some? || t == E) && x'.rs.Some? == (x.rs.Some? || t == S)
  {
  }

  /** What reading tokens does to the key slots. */
  lemma {:induction false} ReadSlots(c: Crypto, x: Handshake, ts: seq<Token>, m: Bytes)
    requires ReadTokens(c, x, ts, m).Ok?
    ensures var x' := ReadTokens(c, x, ts, m).value.0;
            && x'.e == x.e && x'.s == x.s && x'.initiator == x.initiator && x'.isPsk == x.isPsk && x'.patterns == x.patterns
            && x'.re.Some? == (x.re.Some? || E in ts) && x'.rs.Some? == (x.rs.Some? || S in ts)
  {
    if ts != [] {
      var init, t := ts[..|ts| - 1], ts[|ts| - 1];
      ReadSlots(c, x, init, m);
      var (x1, m1) := ReadTokens(c, x, init, m).value;
      ReadTokenSlots(c, x1, t, m1);
      assert ts == init + [t];
      assert forall u :: u in ts <==> u in init || u == t;
    }
  }

  /** A token with the keys that the reader holds is read back, and both ends stay in step. */
  lemma TokenSync(c: Crypto, w: Handshake, r: Handshake, t: Token, newKey: Bytes, rest: Bytes)
    requires Lawful(c) && Synchronised(c, w, r)
    requires WriteToken(c, w, t, newKey).Ok?
    requires ReaderHolds(r, [], t)
    ensures var (w', out) := WriteToken(c, w, t, newKey).value;
            var read := ReadToken(c, r, t, out + rest);
            read.Ok? && read.value.1 == rest && Synchronised(c, w', read.value.0)
  {
    var (w', out) := WriteToken(c, w, t, newKey).value;
    match t
    case E =>
      assert Take(out + rest, c.dhlen) == out && Drop(out + rest, c.dhlen) == rest;
    case S =>
      OpenedOfSealedAndHashed(c, w.sym, c.pub(w.s.value));
      assert Take(out + rest, |out|) == out && Drop(out + rest, |out|) == rest;
    case PSK =>
      assert out + rest == rest;
    case _ =>
      assert out + rest == rest;
      DhAgrees(c, w, r, t);
  }

  /** Both ends of a Diffie-Hellman token compute the same secret. */
  lemma DhAgrees(c: Crypto, w: Handshake, r: Handshake, t: Token)
    requires Lawful(c) && Synchronised(c, w, r)
    requires t.EE? || t.ES? || t.SE? || t.SS?
    requires DhKeys(w, t).0.Some? && DhKeys(w, t).1.Some?
    requires DhKeys(r, t).0.Some? && DhKeys(r, t).1.Some?
    ensures c.dh(DhKeys(w, t).0.value, DhKeys(w, t).1.value) == c.dh(DhKeys(r, t).0.value, DhKeys(r, t).1.value)
  {
    var (a, bPub) := DhKeys(w, t);
    var (b, aPub) := DhKeys(r, t);
    assert bPub.value == c.pub(b.value) && aPub.value == c.pub(a.value);
  }

  /** The same for a list of tokens. */
  lemma {:induction false} TokensSync(c: Crypto, w: Handshake, r: Handshake, ts: seq<Token>, newKey: Bytes, rest: Bytes)
    requires Lawful(c) && Synchronised(c, w, r)
    requires WriteTokens(c, w, ts, newKey).Ok?
    requires ReaderReady(r, ts)
    ensures var (w', out) := WriteTokens(c, w, ts, newKey).value;
            var read := ReadTokens(c, r, ts, out + rest);
            read.Ok? && read.value.1 == rest && Synchronised(c, w', read.value.0)
  {
    var (w', out) := WriteTokens(c, w, ts, newKey).value;
    if ts == [] {
      assert out + rest == rest;
    } else {
      var init, t := ts[..|ts| - 1], ts[|ts| - 1];
      var (w1, out1) := WriteTokens(c, w, init, newKey).value;
      var (w2, out2) := WriteToken(c, w1, t, newKey).value;
      forall i | 0 <= i < |init|
        ensures ReaderHolds(r, init[..i], init[i])
      {
        assert init[..i] == ts[..i] && init[i] == ts[i];
      }
      TokensSync(c, w, r, init, newKey, out2 + rest);
      assert out + rest == out1 + (out2 + rest);
      ReadSlots(c, r, init, out + rest);
      var r1 := ReadTokens(c, r, init, out + rest).value.0;
      assert ReaderHolds(r, ts[..|ts| - 1], t);
      TokenSync(c, w1, r1, t, newKey, rest);
    }
  }

  /**
   * For every pattern of tokens and every payload: a reader in step with the writer, holding
   * the keys the tokens need, recovers the payload from the message and stays in step.
   */
  lemma MessageSync(c: Crypto, w: Handshake, r: Handshake, payload: Bytes, newKey: Bytes)
    requires Lawful(c) && Synchronised(c, w, r)
    requires Written(c, w, payload, newKey).Ok?
    requires ReaderReady(r, r.patterns[0])
    ensures var (w', m) := Written(c, w, payload, newKey).value;
            && Read(c, r, m).Ok?
            && Read(c, r, m).value.1 == payload
            && Synchronised(c, w', Read(c, r, m).value.0)
  {
    var (w', m) := Written(c, w, payload, newKey).value;
    var wp, rp := w.(patterns := w.patterns[1..]), r.(patterns := r.patterns[1..]);
    var (w1, out) := WriteTokens(c, wp, w.patterns[0], newKey).value;
    var (y, sealed) := SealedAndHashed(c, w1.sym, payload).value;
    forall i | 0 <= i < |r.patterns[0]|
      ensures ReaderHolds(rp, r.patterns[0][..i], r.patterns[0][i])
    {
      assert ReaderHolds(r, r.patterns[0][..i], r.patterns[0][i]);
    }
    TokensSync(c, wp, rp, w.patterns[0], newKey, sealed);
    OpenedOfSealedAndHashed(c, w1.sym, payload);
  }

  /** The converse: a reader that lacks a key refuses the message, whatever it is. */
  lemma {:induction false} NotReadyIsRefused(c: Crypto, r: Handshake, ts: seq<Token>, m: Bytes)
    requires !ReaderReady(r, ts)
    ensures ReadTokens(c, r, ts, m).Err?
  {
    var init, t := ts[..|ts| - 1], ts[|ts| - 1];
    var i :| 0 <= i < |ts| && !ReaderHolds(r, ts[..i], ts[i]);
    if i < |init| {
      assert init[..i] == ts[..i] && init[i] == ts[i];
      NotReadyIsRefused(c, r, init, m);
    } else if ReadTokens(c, r, init, m).Ok? {
      ReadSlots(c, r, init, m);
    }
  }

  /** After the handshake each end sends with the cipher the other receives with. */
  lemma TransportMatches(c: Crypto, w: Handshake, r: Handshake)
    requires Synchronised(c, w, r)
    ensures Transport(c, w) == (Transport(c, r).1, Transport(c, r).0)
  {
  }

  // ------------------------------------------------------------------- XK

  const XK: seq<seq<Token>> := [[E, ES], [E, EE], [S, SE]]

  /** The transcript before any message: the protocol name and the prologue. */
  function InitialSymmetric(c: Crypto, name: Bytes, prologue: Bytes): Symmetric {
    var h := if |name| <= c.hashlen then name + seq(c.hashlen - |name|, i => 0) else c.hash(name);
    MixHash(c, Symmetric(h, h, Cipher(None, 0)), prologue)
  }

  /** A side of XK: the initiator knows the responder's static key, which both hash first. */
  function InitialXK(c: Crypto, name: Bytes, prologue: Bytes, initiator: bool, s: Bytes, e: Option<Bytes>,
                     responderPublic: Bytes): (x: Handshake)
  {
    Handshake(MixHash(c, InitialSymmetric(c, name, prologue), responderPublic), initiator,
              Some(s), e, if initiator then Some(responderPublic) else None, None, XK, [], false)
  }

  /** One flight that succeeds, with its size and its effect on both ends. */
  ghost predicate Flight(c: Crypto, w: Handshake, r: Handshake, payload: Bytes, newKey: Bytes, w': Handshake, r': Handshake) {
    && Written(c, w, payload, newKey).Ok?
    && c.dhlen <= |Written(c, w, payload, newKey).value.1| <= c.dhlen + 2 * TAG_SIZE + |payload|
    && w' == Written(c, w, payload, newKey).value.0
    && Read(c, r, Written(c, w, payload, newKey).value.1) == Ok((r', payload))
  }

  lemma WriteTokenSlots(c: Crypto, x: Handshake, t: Token, newKey: Bytes)
    requires WriteToken(c, x, t, newKey).Ok?
    ensures var x' := WriteToken(c, x, t, newKey).value.0;
            && x'.s == x.s && x'.rs == x.rs && x'.re == x.re && x'.initiator == x.initiator
                && x'.isPsk == x.isPsk && x'.patterns == x.patterns
            && (t == E || x.e.Some? ==> x'.e.Some?) && (t != E ==> x'.e == x.e)
            && (!t.E? && !t.S? ==> x'.sym.cipher.k.Some? && x'.sym.cipher.n == 0)
            && x'.sym.cipher.n <= x.sym.cipher.n + 1
  {
  }

  lemma WriteOne(c: Crypto, x: Handshake, t: Token, newKey: Bytes) returns (x': Handshake, out: Bytes)
    requires Lawful(c)
    requires (t == E || t == S) && x.sym.cipher.n < MAX_NONCE && (t == S ==> x.s.Some?)
    ensures WriteToken(c, x, t, newKey) == Ok((x', out)) && WriteTokens(c, x, [t], newKey) == Ok((x', out))
    ensures c.dhlen <= |out| <= c.dhlen + TAG_SIZE
  {
    assert WriteToken(c, x, t, newKey).Ok?;
    x', out := WriteToken(c, x, t, newKey).value.0, WriteToken(c, x, t, newKey).value.1;
    if t == S {
      OpenedOfSealedAndHashed(c, x.sym, c.pub(x.s.value));
    }
    assert [t][..0] == [];
    assert [] + out == out;
  }

  /** Two tokens are written when the keys of both are at hand. */
  lemma WriteTwo(c: Crypto, x: Handshake, t: Token, u: Token, newKey: Bytes) returns (x': Handshake, out: Bytes)
    requires Lawful(c)
    requires (t == E || t == S) && (u.EE? || u.ES? || u.SE?)
    requires x.sym.cipher.n < MAX_NONCE && (t == S ==> x.s.Some?)
    requires var slots := if t == E then x.(e := Some([])) else x; DhKeys(slots, u).0.Some? && DhKeys(slots, u).1.Some?
    ensures WriteTokens(c, x, [t, u], newKey) == Ok((x', out))
    ensures c.dhlen <= |out| <= c.dhlen + TAG_SIZE
    ensures x'.s == x.s && x'.rs == x.rs && x'.re == x.re && x'.initiator == x.initiator && x'.isPsk == x.isPsk && x'.patterns == x.patterns
    ensures t == E || x.e.Some? ==> x'.e.Some?
    ensures x'.sym.cipher.k.Some? && x'.sym.cipher.n == 0
  {
    var x1, out1 := WriteOne(c, x, t, newKey);
    WriteTokenSlots(c, x, t, newKey);
    assert [t, u][..1] == [t];
    assert MixedDh(c, x1, u).Ok?;
    x' := WriteToken(c, x1, u, newKey).value.0;
    WriteTokenSlots(c, x1, u, newKey);
    out := out1 + [];
  }

  /** What a message of two tokens does at the writer. */
  lemma TwoTokenMessage(c: Crypto, w: Handshake, t: Token, u: Token, payload: Bytes, newKey: Bytes)
    returns (w': Handshake, m: Bytes)
    requires Lawful(c)
    requires w.patterns != [] && w.patterns[0] == [t, u] && (t == E || t == S)
    requires u.EE? || u.ES? || u.SE?
    requires w.sym.cipher.n < MAX_NONCE && (t == S ==> w.s.Some?)
    requires var slots := if t == E then w.(e := Some([])) else w; DhKeys(slots, u).0.Some? && DhKeys(slots, u).1.Some?
    ensures Written(c, w, payload, newKey) == Ok((w', m))
    ensures c.dhlen + TAG_SIZE + |payload| <= |m| <= c.dhlen + 2 * TAG_SIZE + |payload|
    ensures w'.patterns == w.patterns[1..] && w'.sym.cipher.n <= 1
    ensures w'.s == w.s && w'.rs == w.rs && w'.re == w.re && w'.initiator == w.initiator && w'.isPsk == w.isPsk
    ensures t == E || w.e.Some? ==> w'.e.Some?
  {
    var x1, out := WriteTwo(c, w.(patterns := w.patterns[1..]), t, u, newKey);
    assert SealedAndHashed(c, x1.sym, payload).Ok?;
    OpenedOfSealedAndHashed(c, x1.sym, payload);
    w', m := Written(c, w, payload, newKey).value.0, Written(c, w, payload, newKey).value.1;
  }

  /** What it does to the key slots of the reader. */
  lemma TwoTokenSlots(c: Crypto, r: Handshake, t: Token, u: Token, m: Bytes)
    requires r.patterns != [] && r.patterns[0] == [t, u] && !u.E? && !u.S?
    requires Read(c, r, m).Ok?
    ensures var r' := Read(c, r, m).value.0;
            && r'.e == r.e && r'.s == r.s && r'.initiator == r.initiator
            && r'.re.Some? == (r.re.Some? || t == E) && r'.rs.Some? == (r.rs.Some? || t == S)
  {
    ReadSlots(c, r.(patterns := r.patterns[1..]), [t, u], m);
    var ts := [t, u];
    assert (E in ts) == (t == E) && (S in ts) == (t == S);
  }

  /** A flight of two tokens goes through when the keys of both are at hand. */
  lemma TwoTokenFlight(c: Crypto, w: Handshake, r: Handshake, t: Token, u: Token, payload: Bytes, newKey: Bytes)
    returns (w': Handshake, r': Handshake)
    requires Lawful(c) && Synchronised(c, w, r)
    requires w.patterns != [] && w.patterns[0] == [t, u] && (t == E || t == S)
    requires u.EE? || u.ES? || u.SE?
    requires w.sym.cipher.n < MAX_NONCE && (t == S ==> w.s.Some?)
    requires var slots := if t == E then w.(e := Some([])) else w; DhKeys(slots, u).0.Some? && DhKeys(slots, u).1.Some?
    requires ReaderHolds(r, [t], u)
    ensures Flight(c, w, r, payload, newKey, w', r') && Synchronised(c, w', r')
    ensures w'.patterns == w.patterns[1..] && w'.sym.cipher.n <= 1
    ensures w'.s == w.s && w'.rs == w.rs && w'.re == w.re && w'.initiator == w.initiator && w'.isPsk == w.isPsk
    ensures t == E || w.e.Some? ==> w'.e.Some?
    ensures r'.e == r.e && r'.s == r.s && r'.initiator == r.initiator
    ensures r'.re.Some? == (r.re.Some? || t == E) && r'.rs.Some? == (r.rs.Some? || t == S)
  {
    var m;
    w', m := TwoTokenMessage(c, w, t, u, payload, newKey);
    var ts := [t, u];
    assert ts[..1] == [t] && ts[..0] == [];
    assert ReaderReady(r, ts);
    MessageSync(c, w, r, payload, newKey);
    TwoTokenSlots(c, r, t, u, m);
    r' := Read(c, r, m).value.0;
  }

  /** Where the two ends of an XK handshake stand after n flights. */
  ghost predicate XkStage(c: Crypto, i: Handshake, r: Handshake, phone: Bytes, host: Bytes, n: nat)
    requires n <= 3
  {
    && Synchronised(c, i, r) && i.initiator
    && i.patterns == XK[n..] && i.sym.cipher.n <= 1
    && i.s == Some(phone) && r.s == Some(host) && i.rs == Some(c.pub(host)) && !i.isPsk
    && (n == 0 ==> i.e.None?) && (n <= 1 ==> r.e.None?)
    && (n >= 1 ==> i.e.Some? && r.re.Some?)
    && (n >= 2 ==> r.e.Some? && i.re.Some?)
    && (n >= 3 ==> r.rs.Some?)
  }

  lemma XkFirst(c: Crypto, i: Handshake, r: Handshake, phone: Bytes, host: Bytes, payload: Bytes, newKey: Bytes)
    returns (i': Handshake, r': Handshake)
    requires Lawful(c) && XkStage(c, i, r, phone, host, 0)
    ensures Flight(c, i, r, payload, newKey, i', r') && XkStage(c, i', r', phone, host, 1)
  {
    i', r' := TwoTokenFlight(c, i, r, E, ES, payload, newKey);
  }

  lemma XkSecond(c: Crypto, i: Handshake, r: Handshake, phone: Bytes, host: Bytes, payload: Bytes, newKey: Bytes)
    returns (i': Handshake, r': Handshake)
    requires Lawful(c) && XkStage(c, i, r, phone, host, 1)
    ensures Flight(c, r, i, payload, newKey, r', i') && XkStage(c, i', r', phone, host, 2)
  {
    assert XK[1..][0] == [E, EE] && XK[1..][1..] == XK[2..];
    r', i' := TwoTokenFlight(c, r, i, E, EE, payload, newKey);
    assert Matches(c, r'.s, i'.rs);
    assert i'.rs.Some?;
  }

  lemma XkThird(c: Crypto, i: Handshake, r: Handshake, phone: Bytes, host: Bytes, payload: Bytes, newKey: Bytes)
    returns (i': Handshake, r': Handshake)
    requires Lawful(c) && XkStage(c, i, r, phone, host, 2)
    ensures Flight(c, i, r, payload, newKey, i', r') && XkStage(c, i', r', phone, host, 3)
  {
    assert XK[2..][0] == [S, SE] && XK[2..][1..] == XK[3..];
    i', r' := TwoTokenFlight(c, i, r, S, SE, payload, newKey);
  }

  /**
   * The XK handshake between a phone and a host that know their own keys, the phone also the
   * host's public key: the three messages are accepted, the payloads recovered, both ends hash
   * the same transcript, each sends with the cipher the other receives with, and the host has
   * learnt the phone's static public key.
   */
  lemma XkHandshake(c: Crypto, name: Bytes, prologue: Bytes, phone: Bytes, host: Bytes,
                    phoneNew: Bytes, hostNew: Bytes, p1: Bytes, p2: Bytes, p3: Bytes)
    returns (i1: Handshake, r1: Handshake, i2: Handshake, r2: Handshake, i3: Handshake, r3: Handshake)
    requires Lawful(c)
    ensures Flight(c, InitialXK(c, name, prologue, true, phone, None, c.pub(host)),
                   InitialXK(c, name, prologue, false, host, None, c.pub(host)), p1, phoneNew, i1, r1)
    ensures Flight(c, r1, i1, p2, hostNew, r2, i2)
    ensures Flight(c, i2, r2, p3, phoneNew, i3, r3)
    ensures i3.patterns == r3.patterns == [] && i3.sym.h == r3.sym.h
    ensures Transport(c, i3) == (Transport(c, r3).1, Transport(c, r3).0)
    ensures r3.rs == Some(c.pub(phone)) && i3.rs == Some(c.pub(host))
  {
    var i0 := InitialXK(c, name, prologue, true, phone, None, c.pub(host));
    var r0 := InitialXK(c, name, prologue, false, host, None, c.pub(host));
    i1, r1 := XkFirst(c, i0, r0, phone, host, p1, phoneNew);
    i2, r2 := XkSecond(c, i1, r1, phone, host, p2, hostNew);
    i3, r3 := XkThird(c, i2, r2, phone, host, p3, phoneNew);
    TransportMatches(c, i3, r3);
  }

  // -------------------------------------------------------- satisfiability

  /** The first 32 bytes, filled up with zeros. */
  function Fit(m: Bytes): (r: Bytes)
    ensures |r| == 32
  {
    seq(32, i requires 0 <= i < 32 => if i < |m| then m[i] else 0)
  }

  function Added(a: Bytes, b: Bytes): (r: Bytes)
    requires |a| == |b|
    ensures |r| == |a|
  {
    seq(|a|, i requires 0 <= i < |a| => ((a[i] as int + b[i] as int) % 256) as Byte)
  }

  /** Primitives without secrecy that satisfy the laws, with keys and hashes of the protocol's size. */
  function Transparent(): (c: Crypto) {
    Crypto(m => Fit(m), (k, m) => Fit(k + m), 32, 32, a => Fit(a), (a, b) => Added(Fit(a), Fit(b)),
           (k, n, ad, p) => p + seq(TAG_SIZE, i => 0),
           (k, n, ad, m) => if |m| < TAG_SIZE then None else Some(m[..|m| - TAG_SIZE]))
  }

  /** The laws can be met, so that Lawful excludes nothing by accident. */
  lemma LawsCanBeMet()
    ensures Lawful(Transparent()) && Transparent().dhlen == 32 && forall m {:trigger Transparent().hash(m)} :: |Transparent().hash(m)| == 32
  {
    forall a, b
      ensures Added(Fit(a), Fit(Fit(b))) == Added(Fit(b), Fit(Fit(a)))
    {
      assert Fit(Fit(a)) == Fit(a) && Fit(Fit(b)) == Fit(b);
    }
  }
}
