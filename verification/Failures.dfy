/**
 * What a failure ends: exactly which records a channel seals and opens, that a channel once closed
 * does nothing more, and that after the first failure a receiver hands over nothing.
 */
module Failures {
  import opened Common
  import opened Machine
  import opened Noise
  import SecureChannel
  import Transport

  type Channel = SecureChannel.Channel

  /** A channel past its handshake. */
  ghost predicate Carries(ch: Channel) {
    && !ch.closed && ch.next == SecureChannel.Complete && ch.conn.Carrying? && ch.conn.tx.k.Some? && ch.conn.rx.k.Some?
  }

  /** A record of a length that a channel looks at. */
  predicate Sizeable(sealed: Bytes) {
    TAG_SIZE <= |sealed| <= SecureChannel.MAX_CIPHERTEXT
  }

  /**
   * A record opens to a text exactly when the cipher opens it under the next nonce, which then
   * advances; a record of a wrong length is refused and changes nothing; any other closes the channel.
   */
  lemma OpensExactly(c: Crypto, ch: Channel, sealed: Bytes)
    requires Carries(ch)
    ensures var (t, r) := SecureChannel.Decrypted(c, ch, sealed);
            var (key, n) := (ch.conn.rx.k.value, ch.conn.rx.n);
            var plain := c.open(key, n, [], sealed);
            && (r.Ok? <==> Sizeable(sealed) && n != MAX_NONCE && plain.Some? && |plain.value| <= SecureChannel.MAX_PLAINTEXT)
            && (r.Ok? ==> r.value == plain.value && t == ch.(conn := ch.conn.(rx := Cipher(Some(key), n + 1))))
            && (r.Err? ==> if Sizeable(sealed) then t == SecureChannel.Closed(ch) else t == ch)
  {
  }

  /** A text is sealed exactly when it is short enough and a nonce is left; then under the next one. */
  lemma SealsExactly(c: Crypto, ch: Channel, plain: Bytes)
    requires Lawful(c) && Carries(ch)
    ensures var (t, r) := SecureChannel.Encrypted(c, ch, plain);
            var (key, n) := (ch.conn.tx.k.value, ch.conn.tx.n);
            && (r.Ok? <==> |plain| <= SecureChannel.MAX_PLAINTEXT && n != MAX_NONCE)
            && (r.Ok? ==> r.value == c.seal(key, n, [], plain) && t == ch.(conn := ch.conn.(tx := Cipher(Some(key), n + 1))))
            && (r.Err? ==> if |plain| <= SecureChannel.MAX_PLAINTEXT then t == SecureChannel.Closed(ch) else t == ch)
  {
  }

  /** Every call on a closed channel but another close fails and changes nothing, in every run. */
  lemma {:induction false} ClosedForever(c: Crypto, ch: Channel, ops: seq<SecureChannel.Op>)
    requires ch.closed
    ensures var (end, replies) := Run(SecureChannel.Stepper(c), ch, ops);
            end == ch && forall i {:trigger replies[i]} :: 0 <= i < |ops| ==> (replies[i].Ok? <==> ops[i] == SecureChannel.Close)
    decreases |ops|
  {
    if ops != [] {
      var (t, reply) := SecureChannel.Step(c, ch, ops[0]);
      ClosedForever(c, ch, ops[1..]);
      var replies := Run(SecureChannel.Stepper(c), ch, ops[1..]).1;
      forall i | 0 <= i < |ops|
        ensures ([reply] + replies)[i].Ok? <==> ops[i] == SecureChannel.Close
      {
        assert i > 0 ==> ops[1..][i - 1] == ops[i];
      }
    }
  }

  // ----------------------------------------------------------------- receiving

  lemma FailureShuts(c: Crypto, u: Transport.Utf8, push: Transport.Push, s: Transport.Receiver, sealed: Bytes)
    ensures var (t, event) := Transport.Received(c, u, push, s, sealed);
            && (event.Failed? ==> t.closed && (s.closed || (t.channel.closed && t.assembly.None?)))
            && (s.closed ==> t == s && event == Transport.Failed(Transport.ChannelClosed))
  {
  }

  lemma {:induction false} NothingAfterClose(c: Crypto, u: Transport.Utf8,
    push: Transport.Push, s: Transport.Receiver, wire: seq<Bytes>, j: nat)
    requires s.closed && j < |wire|
    ensures Run(Transport.ReceiverStep(c, u, push), s, wire).1[j] == Transport.Failed(Transport.ChannelClosed)
    decreases |wire|
  {
    FailureShuts(c, u, push, s, wire[0]);
    if j > 0 {
      NothingAfterClose(c, u, push, s, wire[1..], j - 1);
    }
  }

  /** In every run of a receiver: after the first record that fails, every record fails, whatever it is. */
  lemma {:induction false} FailureIsFinal(c: Crypto, u: Transport.Utf8, push: Transport.Push, s: Transport.Receiver, wire: seq<Bytes>,
                                          i: nat, j: nat)
    requires i < j < |wire| && Run(Transport.ReceiverStep(c, u, push), s, wire).1[i].Failed?
    ensures Run(Transport.ReceiverStep(c, u, push), s, wire).1[j] == Transport.Failed(Transport.ChannelClosed)
    decreases |wire|
  {
    var t := Transport.Received(c, u, push, s, wire[0]).0;
    if i == 0 {
      FailureShuts(c, u, push, s, wire[0]);
      NothingAfterClose(c, u, push, t, wire[1..], j - 1);
    } else {
      FailureIsFinal(c, u, push, t, wire[1..], i - 1, j - 1);
    }
  }
}
