/**
 * The handshake objects, which update keys, nonces and transcript in place.
 * Each method is tied to the corresponding function of Noise; after a fault the
 * owner closes the channel, so nothing is promised about a faulted handshake.
 */
module NoiseState {
  import opened Common
  import opened Noise

  class CipherState {
    const crypto: Crypto
    var k: Option<Bytes>
    var n: nat

    ghost function View(): Cipher
      reads this
    {
      Cipher(k, n)
    }

    constructor (crypto: Crypto, key: Option<Bytes>)
      ensures this.crypto == crypto && View() == Cipher(key, 0)
    {
      this.crypto := crypto;
      k, n := key, 0;
    }

    method InitializeKey(key: Bytes)
      modifies this
      ensures View() == Cipher(Some(key), 0)
    {
      k := Some(key);
      n := 0;
    }

    method EncryptWithAd(ad: Bytes, plain: Bytes) returns (r: Result<Bytes, Fault>)
      modifies this
      ensures match Sealed(crypto, old(View()), ad, plain)
              case Ok((cs, sealed)) => View() == cs && r == Ok(sealed)
              case Err(f) => View() == old(View()) && r == Err(f)
    {
      if n == MAX_NONCE {
        return Err(NonceDepleted);
      }
      if k.None? {
        return Ok(plain);
      }
      r := Ok(crypto.seal(k.value, n, ad, plain));
      n := n + 1;
    }

    /** The nonce does not advance when authentication fails. */
    method DecryptWithAd(ad: Bytes, sealed: Bytes) returns (r: Result<Bytes, Fault>)
      modifies this
      ensures match Opened(crypto, old(View()), ad, sealed)
              case Ok((cs, plain)) => View() == cs && r == Ok(plain)
              case Err(f) => View() == old(View()) && r == Err(f)
    {
      if n == MAX_NONCE {
        return Err(NonceDepleted);
      }
      if k.None? {
        return Ok(sealed);
      }
      var plain := crypto.open(k.value, n, ad, sealed);
      if plain.None? {
        return Err(NotAuthentic);
      }
      n := n + 1;
      r := Ok(plain.value);
    }
  }

  class SymmetricState {
    const crypto: Crypto
    const cipher: CipherState
    var h: Bytes
    var ck: Bytes

    ghost predicate Valid()
      reads this
    {
      cipher.crypto == crypto
    }

    ghost function View(): Symmetric
      reads this, cipher
    {
      Symmetric(h, ck, cipher.View())
    }

    constructor (crypto: Crypto, h: Bytes)
      ensures Valid() && fresh(cipher)
      ensures this.crypto == crypto && View() == Symmetric(h, h, Cipher(None, 0))
    {
      this.crypto := crypto;
      this.h, this.ck := h, h;
      cipher := new CipherState(crypto, None);
    }

    method MixKey(ikm: Bytes)
      requires Valid()
      modifies this, cipher
      ensures View() == Noise.MixKey(crypto, old(View()), ikm)
    {
      var (chain, key) := Hkdf2(crypto, ck, ikm);
      ck := chain;
      cipher.InitializeKey(KeyOf(crypto, key));
    }

    method MixHash(data: Bytes)
      requires Valid()
      modifies this`h
      ensures View() == Noise.MixHash(crypto, old(View()), data)
    {
      h := crypto.hash(h + data);
    }

    method MixKeyAndHash(ikm: Bytes)
      requires Valid()
      modifies this, cipher
      ensures View() == Noise.MixKeyAndHash(crypto, old(View()), ikm)
    {
      var (chain, tempHash, key) := Hkdf3(crypto, ck, ikm);
      ck := chain;
      MixHash(tempHash);
      cipher.InitializeKey(KeyOf(crypto, key));
    }

    method EncryptAndHash(plain: Bytes) returns (r: Result<Bytes, Fault>)
      requires Valid()
      modifies this, cipher
      ensures match SealedAndHashed(crypto, old(View()), plain)
              case Ok((y, sealed)) => View() == y && r == Ok(sealed)
              case Err(f) => r == Err(f)
    {
      r := cipher.EncryptWithAd(h, plain);
      if r.Ok? {
        MixHash(r.value);
      }
    }

    method DecryptAndHash(sealed: Bytes) returns (r: Result<Bytes, Fault>)
      requires Valid()
      modifies this, cipher
      ensures match OpenedAndHashed(crypto, old(View()), sealed)
              case Ok((y, plain)) => View() == y && r == Ok(plain)
              case Err(f) => r == Err(f)
    {
      r := cipher.DecryptWithAd(h, sealed);
      if r.Ok? {
        MixHash(sealed);
      }
    }

    /** The two ciphers of the transport, the first for initiator to responder. */
    method Split() returns (c1: CipherState, c2: CipherState)
      requires Valid()
      ensures fresh(c1) && fresh(c2) && c1 != c2 && c1.crypto == c2.crypto == crypto
      ensures (c1.View(), c2.View()) == SplitKeys(crypto, View())
    {
      var (k1, k2) := Hkdf2(crypto, ck, []);
      c1 := new CipherState(crypto, Some(KeyOf(crypto, k1)));
      c2 := new CipherState(crypto, Some(KeyOf(crypto, k2)));
    }
  }

  /** A fault in some token is the fault of the whole list. */
  lemma {:induction false} WriteFault(c: Crypto, x: Handshake, ts: seq<Token>, newKey: Bytes, i: nat)
    requires i <= |ts| && WriteTokens(c, x, ts[..i], newKey).Err?
    ensures WriteTokens(c, x, ts, newKey) == WriteTokens(c, x, ts[..i], newKey)
  {
    if i == |ts| {
      assert ts[..i] == ts;
    } else {
      var init := ts[..|ts| - 1];
      assert init[..i] == ts[..i];
      WriteFault(c, x, init, newKey, i);
    }
  }

  lemma {:induction false} ReadFault(c: Crypto, x: Handshake, ts: seq<Token>, m: Bytes, i: nat)
    requires i <= |ts| && ReadTokens(c, x, ts[..i], m).Err?
    ensures ReadTokens(c, x, ts, m) == ReadTokens(c, x, ts[..i], m)
  {
    if i == |ts| {
      assert ts[..i] == ts;
    } else {
      var init := ts[..|ts| - 1];
      assert init[..i] == ts[..i];
      ReadFault(c, x, init, m, i);
    }
  }

  class HandshakeState {
    const crypto: Crypto
    const sym: SymmetricState
    const initiator: bool
    const isPsk: bool
    var s: Option<Bytes>
    var e: Option<Bytes>
    var rs: Option<Bytes>
    var re: Option<Bytes>
    var patterns: seq<seq<Token>>
    var psks: seq<Bytes>

    ghost predicate Valid()
      reads this, sym
    {
      sym.crypto == crypto && sym.Valid()
    }

    ghost function View(): Handshake
      reads this, sym, sym.cipher
    {
      Handshake(sym.View(), initiator, s, e, rs, re, patterns, psks, isPsk)
    }

    /** A side of XK: name and prologue are hashed, then the responder's static public key. */
    constructor (crypto: Crypto, name: Bytes, prologue: Bytes, initiator: bool, s: Bytes, e: Option<Bytes>,
                 responderPublic: Bytes)
      ensures Valid() && fresh(sym) && fresh(sym.cipher)
      ensures this.crypto == crypto
      ensures View() == InitialXK(crypto, name, prologue, initiator, s, e, responderPublic)
    {
      this.crypto, this.initiator, isPsk := crypto, initiator, false;
      this.s, this.e, re := Some(s), e, None;
      rs := if initiator then Some(responderPublic) else None;
      patterns, psks := XK, [];
      var h := if |name| <= crypto.hashlen then name + seq(crypto.hashlen - |name|, i => 0) else crypto.hash(name);
      sym := new SymmetricState(crypto, h);
      new;
      sym.MixHash(prologue);
      sym.MixHash(responderPublic);
    }

    /** The tokens that both directions handle alike: key agreements and pre-shared keys. */
    method MixToken(t: Token) returns (fault: Option<Fault>)
      requires Valid() && !t.E? && !t.S?
      modifies this`psks, sym, sym.cipher
      ensures match (if t.PSK? then MixedPsk(crypto, old(View())) else MixedDh(crypto, old(View()), t))
              case Ok(x) => View() == x && fault == None
              case Err(f) => fault == Some(f)
    {
      if t.PSK? {
        if psks == [] {
          return Some(NoPsk);
        }
        sym.MixKeyAndHash(psks[0]);
        psks := psks[1..];
      } else {
        var private := if t.EE? || (t.ES? && initiator) || (t.SE? && !initiator) then e else s;
        var public := if t.EE? || (t.ES? && !initiator) || (t.SE? && initiator) then re else rs;
        if private.None? || public.None? {
          return Some(MissingKey);
        }
        sym.MixKey(crypto.dh(private.value, public.value));
      }
      fault := None;
    }

    /** One token of an outgoing message, and the bytes it adds. */
    method WriteOne(t: Token, newKey: Bytes) returns (r: Result<Bytes, Fault>)
      requires Valid()
      modifies this, sym, sym.cipher
      ensures match WriteToken(crypto, old(View()), t, newKey)
              case Ok((x, out)) => View() == x && r == Ok(out)
              case Err(f) => r == Err(f)
    {
      match t
      case E =>
        if e.None? {
          e := Some(newKey);
        }
        var public := crypto.pub(e.value);
        sym.MixHash(public);
        if isPsk {
          sym.MixKey(public);
        }
        r := Ok(public);
      case S =>
        if s.None? {
          return Err(MissingKey);
        }
        r := sym.EncryptAndHash(crypto.pub(s.value));
      case _ =>
        var fault := MixToken(t);
        r := if fault.Some? then Err(fault.value) else Ok([]);
    }

    /** One token of an incoming message, and the rest of the message. */
    method ReadOne(t: Token, message: Bytes) returns (r: Result<Bytes, Fault>)
      requires Valid()
      modifies this, sym, sym.cipher
      ensures match ReadToken(crypto, old(View()), t, message)
              case Ok((x, rest)) => View() == x && r == Ok(rest)
              case Err(f) => r == Err(f)
    {
      match t
      case E =>
        var key := Take(message, crypto.dhlen);
        if |key| != crypto.dhlen {
          return Err(BadKeyLength);
        }
        re := Some(key);
        sym.MixHash(key);
        if isPsk {
          sym.MixKey(key);
        }
        r := Ok(Drop(message, crypto.dhlen));
      case S =>
        var length := crypto.dhlen + if sym.cipher.k.Some? then TAG_SIZE else 0;
        var key := sym.DecryptAndHash(Take(message, length));
        if key.Err? {
          return key;
        }
        if |key.value| != crypto.dhlen {
          return Err(BadKeyLength);
        }
        rs := Some(key.value);
        r := Ok(Drop(message, length));
      case _ =>
        var fault := MixToken(t);
        r := if fault.Some? then Err(fault.value) else Ok(message);
    }

    method WriteMessage(payload: Bytes, newKey: Bytes) returns (r: Result<Bytes, Fault>)
      requires Valid()
      modifies this, sym, sym.cipher
      ensures match Written(crypto, old(View()), payload, newKey)
              case Ok((x, message)) => View() == x && r == Ok(message)
              case Err(f) => r == Err(f)
    {
      if patterns == [] {
        return Err(NoPattern);
      }
      var tokens := patterns[0];
      patterns := patterns[1..];
      ghost var start := View();
      var buffer: Bytes := [];
      for i := 0 to |tokens|
        invariant WriteTokens(crypto, start, tokens[..i], newKey) == Ok((View(), buffer))
      {
        var part := WriteOne(tokens[i], newKey);
        assert tokens[..i + 1][..i] == tokens[..i];
        if part.Err? {
          WriteFault(crypto, start, tokens, newKey, i + 1);
          return part;
        }
        buffer := buffer + part.value;
      }
      assert tokens[..|tokens|] == tokens;
      var sealed := sym.EncryptAndHash(payload);
      r := if sealed.Err? then sealed else Ok(buffer + sealed.value);
    }

    method ReadMessage(message: Bytes) returns (r: Result<Bytes, Fault>)
      requires Valid()
      modifies this, sym, sym.cipher
      ensures match Read(crypto, old(View()), message)
              case Ok((x, payload)) => View() == x && r == Ok(payload)
              case Err(f) => r == Err(f)
    {
      if patterns == [] {
        return Err(NoPattern);
      }
      var tokens := patterns[0];
      patterns := patterns[1..];
      ghost var start := View();
      var rest := message;
      for i := 0 to |tokens|
        invariant ReadTokens(crypto, start, tokens[..i], message) == Ok((View(), rest))
      {
        var next := ReadOne(tokens[i], rest);
        assert tokens[..i + 1][..i] == tokens[..i];
        if next.Err? {
          ReadFault(crypto, start, tokens, message, i + 1);
          return next;
        }
        rest := next.value;
      }
      assert tokens[..|tokens|] == tokens;
      r := sym.DecryptAndHash(rest);
    }

    /** The transport ciphers of this side: the one to send with and the one to receive with. */
    method Finish() returns (tx: CipherState, rx: CipherState)
      requires Valid()
      ensures fresh(tx) && fresh(rx) && tx != rx && tx.crypto == rx.crypto == crypto
      ensures (tx.View(), rx.View()) == Transport(crypto, View())
    {
      var c1, c2 := sym.Split();
      tx, rx := if initiator then c1 else c2, if initiator then c2 else c1;
    }
  }
}
