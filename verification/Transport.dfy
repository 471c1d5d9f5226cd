/**
 * The data path of an admitted controller: a frame is cut into records and sealed by one end,
 * opened and put together by the other, which ends where the lease takes the text.
 */
module Transport {
  import opened Common
  import opened Machine
  import opened Noise
  import Framing
  import SecureChannel

  /** Text encoding, of which only the round trip matters. */
  datatype Utf8 = Utf8(encode: string -> Bytes, decode: Bytes -> Option<string>)

  ghost predicate Faithful(u: Utf8) {
    forall t: string {:trigger u.encode(t)} :: u.decode(u.encode(t)) == Some(t)
  }

  datatype Reason = ChannelClosed | ProtocolViolation | MalformedFrame | LeaseReleased | Backpressure | Unavailable | Detached

  /** What one received record leads to. */
  datatype Event = Pending | Handed(text: string) | Failed(reason: Reason)

  /** The receiving half: the channel, the message in progress, and whether this transport is closed. */
  datatype Receiver = Receiver(channel: SecureChannel.Channel, assembly: Framing.Assembly, closed: bool)

  function Shut(s: Receiver): Receiver {
    Receiver(SecureChannel.Closed(s.channel), None, true)
  }

  type Push = (Framing.Assembly, Bytes) -> (Framing.Assembly, Framing.Outcome)

  /** Decrypt one record, reassemble, and decode a completed message. */
  function Received(c: Crypto, u: Utf8, push: Push, s: Receiver, sealed: Bytes): (r: (Receiver, Event)) {
    if s.closed then (s, Failed(ChannelClosed))
    else if s.channel.closed then (Shut(s), Failed(ChannelClosed))
    else
      match SecureChannel.Decrypted(c, s.channel, sealed)
      case (ch, Err(_)) => (Shut(s.(channel := ch)), Failed(ProtocolViolation))
      case (ch, Ok(record)) =>
        match push(s.assembly, record)
        case (_, Err(_)) => (Shut(s.(channel := ch)), Failed(ProtocolViolation))
        case (a, Ok(None)) => (Receiver(ch, a, false), Pending)
        case (a, Ok(Some(m))) =>
          match u.decode(m)
          case None => (Shut(s.(channel := ch)), Failed(MalformedFrame))
          case Some(t) => (Receiver(ch, a, false), Handed(t))
  }

  function ReceiverStep(c: Crypto, u: Utf8, push: Push): (Receiver, Bytes) -> (Receiver, Event) {
    (s, sealed) => Received(c, u, push, s, sealed)
  }

  /** The sending half encrypts the records of one frame in order. */
  function EncryptAll(c: Crypto, ch: SecureChannel.Channel, rs: seq<Bytes>)
    : (r: (SecureChannel.Channel, Result<seq<Bytes>, SecureChannel.ChannelError>))
  {
    if rs == [] then (ch, Ok([]))
    else
      match EncryptAll(c, ch, rs[..|rs| - 1])
      case (ch1, Err(e)) => (ch1, Err(e))
      case (ch1, Ok(sealed)) =>
        match SecureChannel.Encrypted(c, ch1, rs[|rs| - 1])
        case (ch2, Err(e)) => (ch2, Err(e))
        case (ch2, Ok(last)) => (ch2, Ok(sealed + [last]))
  }

  /** A frame to send, under a message identifier of the sender's choice. */
  datatype Frame = Frame(message: Bytes, text: string)

  predicate Legal(u: Utf8, f: Frame) {
    |f.message| == Framing.ID_SIZE && |u.encode(f.text)| <= Framing.MAX_LOGICAL
  }

  type Sending = (SecureChannel.Channel, Result<seq<Bytes>, Reason>)

  type Send = (SecureChannel.Channel, Frame) -> Sending

  function Sent(c: Crypto, u: Utf8, id: Bytes, ch: SecureChannel.Channel, f: Frame): (r: Sending)
  {
    match Framing.EncodeMessage(id, f.message, u.encode(f.text))
    case Err(_) => (SecureChannel.Closed(ch), Err(ProtocolViolation))
    case Ok(rs) =>
      match EncryptAll(c, ch, rs)
      case (ch', Err(_)) => (SecureChannel.Closed(ch'), Err(ProtocolViolation))
      case (ch', Ok(sealed)) => (ch', Ok(sealed))
  }

  function Sender(c: Crypto, u: Utf8, id: Bytes): Send {
    (ch, f) => Sent(c, u, id, ch, f)
  }

  function SentAll(send: Send, ch: SecureChannel.Channel, frames: seq<Frame>): (r: Sending)
  {
    if frames == [] then (ch, Ok([]))
    else
      match SentAll(send, ch, frames[..|frames| - 1])
      case (ch1, Err(e)) => (ch1, Err(e))
      case (ch1, Ok(wire)) =>
        match send(ch1, frames[|frames| - 1])
        case (ch2, Err(e)) => (ch2, Err(e))
        case (ch2, Ok(more)) => (ch2, Ok(wire + more))
  }

  /** The texts handed over in a run, in order. */
  function HandedTexts(events: seq<Event>): (ts: seq<string>) {
    if events == [] then []
    else
      var init := HandedTexts(events[..|events| - 1]);
      var last := events[|events| - 1];
      if last.Handed? then init + [last.text] else init
  }

  lemma {:induction false} HandedAppend(a: seq<Event>, b: seq<Event>)
    ensures HandedTexts(a + b) == HandedTexts(a) + HandedTexts(b)
  {
    if b == [] {
      assert a + b == a;
    } else {
      HandedAppend(a, b[..|b| - 1]);
      assert (a + b)[..|a + b| - 1] == a + b[..|b| - 1];
    }
  }

  /** An open channel past its handshake, with nonces left to count. */
  ghost predicate Established(ch: SecureChannel.Channel) {
    && !ch.closed && ch.next.Complete? && ch.conn.Carrying?
    && ch.conn.tx.k.Some? && ch.conn.tx.n <= MAX_NONCE
  }

  /** Record i sealed under nonce n + i. */
  ghost predicate SealedUnder(c: Crypto, cs: Cipher, rs: seq<Bytes>, wire: seq<Bytes>)
    requires cs.k.Some?
  {
    && |wire| == |rs|
    && forall i {:trigger wire[i]} {:trigger rs[i]} :: 0 <= i < |rs| ==> wire[i] == c.seal(cs.k.value, cs.n + i, [], rs[i])
  }

  /** Both ends of a direction: established, open, and with the same key and nonce. */
  ghost predicate InStep(tx: SecureChannel.Channel, rx: SecureChannel.Channel) {
    && Established(tx)
    && !rx.closed && rx.next.Complete? && rx.conn.Carrying?
    && tx.conn.tx == rx.conn.rx
  }

  function WithRx(ch: SecureChannel.Channel, n: nat): SecureChannel.Channel
    requires ch.conn.Carrying?
  {
    ch.(conn := ch.conn.(rx := ch.conn.rx.(n := n)))
  }

  function WithTx(ch: SecureChannel.Channel, n: nat): SecureChannel.Channel
    requires ch.conn.Carrying?
  {
    ch.(conn := ch.conn.(tx := ch.conn.tx.(n := n)))
  }

  /** Encrypting succeeds exactly while nonces last, and seals record i under nonce n + i. */
  lemma {:induction false} EncryptAllSeals(c: Crypto, ch: SecureChannel.Channel, rs: seq<Bytes>)
    requires Lawful(c) && Established(ch)
    requires forall i :: 0 <= i < |rs| ==> |rs[i]| <= SecureChannel.MAX_PLAINTEXT
    ensures var (ch', r) := EncryptAll(c, ch, rs);
            && (r.Ok? <==> ch.conn.tx.n + |rs| <= MAX_NONCE)
            && (r.Ok? ==> ch' == WithTx(ch, ch.conn.tx.n + |rs|) && SealedUnder(c, ch.conn.tx, rs, r.value))
  {
    if rs != [] {
      EncryptAllSeals(c, ch, rs[..|rs| - 1]);
    }
  }

  /** A record sealed under the receiver's nonce reaches the reassembler. */
  lemma ReceivedRecord(c: Crypto, u: Utf8, push: Push, s: Receiver, record: Bytes, a: Framing.Assembly, out: Option<Bytes>)
    requires Lawful(c) && !s.closed && !s.channel.closed && s.channel.next.Complete? && s.channel.conn.Carrying?
    requires s.channel.conn.rx.k.Some? && s.channel.conn.rx.n < MAX_NONCE
    requires |record| <= SecureChannel.MAX_PLAINTEXT
    requires push(s.assembly, record) == (a, Ok(out))
    requires out.Some? ==> u.decode(out.value).Some?
    ensures var rx := s.channel.conn.rx;
            Received(c, u, push, s, c.seal(rx.k.value, rx.n, [], record))
            == (Receiver(WithRx(s.channel, rx.n + 1), a, false),
                if out.None? then Pending else Handed(u.decode(out.value).value))
  {
    var rx := s.channel.conn.rx;
    OpenedOfSealed(c, rx, [], record);
    assert SecureChannel.Decrypted(c, s.channel, c.seal(rx.k.value, rx.n, [], record))
        == (WithRx(s.channel, rx.n + 1), Ok(record));
  }

  /** What sending a frame of legal size puts on the wire, and when it succeeds. */
  lemma SentRecords(c: Crypto, u: Utf8, id: Bytes, ch: SecureChannel.Channel, f: Frame)
    requires Lawful(c) && |id| == Framing.ID_SIZE && Legal(u, f)
    requires Established(ch)
    ensures var rs := Framing.Records(id, f.message, u.encode(f.text));
            var (ch', r) := Sent(c, u, id, ch, f);
            && (r.Ok? <==> ch.conn.tx.n + |rs| <= MAX_NONCE)
            && (r.Ok? ==> ch' == WithTx(ch, ch.conn.tx.n + |rs|) && SealedUnder(c, ch.conn.tx, rs, r.value))
  {
    var payload := u.encode(f.text);
    var rs := Framing.Records(id, f.message, payload);
    forall i | 0 <= i < |rs|
      ensures |rs[i]| <= SecureChannel.MAX_PLAINTEXT
    {
      assert rs[i] == Framing.Record(Framing.FrameAt(id, f.message, payload, i));
    }
    EncryptAllSeals(c, ch, rs);
  }

  /** The events of one frame: nothing until the last record. */
  function FrameEvents(n: nat, text: string): (es: seq<Event>)
    requires n > 0
    ensures |es| == n
  {
    seq(n - 1, i => Pending) + [Handed(text)]
  }

  lemma HandedOfFrame(n: nat, text: string)
    requires n > 0
    ensures HandedTexts(FrameEvents(n, text)) == [text]
  {
    HandedPending(n - 1);
    assert FrameEvents(n, text)[..n - 1] == seq(n - 1, i => Pending);
  }

  lemma {:induction false} HandedPending(n: nat)
    ensures HandedTexts(seq(n, i => Pending)) == []
  {
    if n > 0 {
      HandedPending(n - 1);
      assert seq(n, i => Pending)[..n - 1] == seq(n - 1, i => Pending);
    }
  }

  /** A reassembler that goes through these assemblies and delivers a text only at the last record. */
  ghost predicate Accepts(u: Utf8, push: Push, rs: seq<Bytes>, asms: seq<Framing.Assembly>, text: string) {
    && |rs| > 0 && |asms| == |rs| + 1 && asms[0] == None == asms[|rs|]
    && (forall i {:trigger rs[i]} :: 0 <= i < |rs| ==>
          && |rs[i]| <= SecureChannel.MAX_PLAINTEXT
          && push(asms[i], rs[i]) == (asms[i + 1], Ok(if i + 1 < |rs| then None else Some(u.encode(text)))))
  }

  /** The receiver in the middle of a frame. */
  function Midway(s: Receiver, a: Framing.Assembly, n: nat): Receiver
    requires s.channel.conn.Carrying?
  {
    Receiver(WithRx(s.channel, n), a, false)
  }

  lemma WireStep(c: Crypto, u: Utf8, push: Push, s: Receiver, rs: seq<Bytes>, asms: seq<Framing.Assembly>,
                 text: string, i: nat)
    requires Lawful(c) && Faithful(u) && Accepts(u, push, rs, asms, text) && i < |rs|
    requires !s.closed && !s.channel.closed && s.channel.next.Complete?
    requires s.channel.conn.Carrying? && s.channel.conn.rx.k.Some? && s.channel.conn.rx.n + |rs| <= MAX_NONCE
    ensures var rx := s.channel.conn.rx;
            Steps(ReceiverStep(c, u, push), s, asms, i, c.seal(rx.k.value, rx.n + i, [], rs[i]), i + 1 == |rs|, text)
  {
    var mid := Midway(s, asms[i], s.channel.conn.rx.n + i);
    assert u.decode(u.encode(text)) == Some(text);
    ReceivedRecord(c, u, push, mid, rs[i], asms[i + 1], if i + 1 < |rs| then None else Some(u.encode(text)));
  }

  /** The sealed records of a frame, received in order, hand over its text at the last one. */
  lemma WireGoesThrough(c: Crypto, u: Utf8, push: Push, s: Receiver, rs: seq<Bytes>, asms: seq<Framing.Assembly>,
                        text: string, wire: seq<Bytes>)
    requires Lawful(c) && Faithful(u) && Accepts(u, push, rs, asms, text)
    requires s.assembly == None && !s.closed && !s.channel.closed && s.channel.next.Complete?
    requires s.channel.conn.Carrying? && s.channel.conn.rx.k.Some? && s.channel.conn.rx.n + |rs| <= MAX_NONCE
    requires SealedUnder(c, s.channel.conn.rx, rs, wire)
    ensures Run(ReceiverStep(c, u, push), s, wire)
         == (Midway(s, None, s.channel.conn.rx.n + |rs|), FrameEvents(|rs|, text))
  {
    var rx := s.channel.conn.rx;
    forall i | 0 <= i < |rs|
      ensures Steps(ReceiverStep(c, u, push), s, asms, i, c.seal(rx.k.value, rx.n + i, [], rs[i]), i + 1 == |rs|, text)
    {
      WireStep(c, u, push, s, rs, asms, text, i);
    }
    WireRuns(c, ReceiverStep(c, u, push), s, rs, asms, text, wire);
  }

  /** Record i moves the receiver from one assembly to the next. */
  ghost predicate Steps(step: (Receiver, Bytes) -> (Receiver, Event), s: Receiver, asms: seq<Framing.Assembly>,
                        i: nat, sealed: Bytes, last: bool, text: string)
    requires s.channel.conn.Carrying? && i + 1 < |asms|
  {
    var m := s.channel.conn.rx.n + i;
    step(Midway(s, asms[i], m), sealed) == (Midway(s, asms[i + 1], m + 1), if last then Handed(text) else Pending)
  }

  lemma WireRuns(c: Crypto, step: (Receiver, Bytes) -> (Receiver, Event), s: Receiver, rs: seq<Bytes>,
                 asms: seq<Framing.Assembly>, text: string, wire: seq<Bytes>)
    requires s.channel.conn.Carrying? && !s.closed && s.channel.conn.rx.k.Some?
    requires |rs| > 0 && |asms| == |rs| + 1 && s.assembly == asms[0]
    requires SealedUnder(c, s.channel.conn.rx, rs, wire)
    requires var rx := s.channel.conn.rx;
             forall i {:trigger rs[i]} :: 0 <= i < |rs| ==>
               Steps(step, s, asms, i, c.seal(rx.k.value, rx.n + i, [], rs[i]), i + 1 == |rs|, text)
    ensures Run(step, s, wire) == (Midway(s, asms[|rs|], s.channel.conn.rx.n + |rs|), FrameEvents(|rs|, text))
  {
    var m := s.channel.conn.rx.n;
    var states := seq(|asms|, i requires 0 <= i < |asms| => Midway(s, asms[i], m + i));
    forall i | 0 <= i < |wire|
      ensures step(states[i], wire[i]) == (states[i + 1], if i + 1 < |wire| then Pending else Handed(text))
    {
      assert wire[i] == c.seal(s.channel.conn.rx.k.value, m + i, [], rs[i]);
    }
    RunThrough(step, states, text, wire, 0);
    assert wire[0..] == wire && states[0] == s;
  }

  /** A step function that goes through some states one by one runs through them all. */
  lemma {:induction false} RunThrough(step: (Receiver, Bytes) -> (Receiver, Event), states: seq<Receiver>,
                                      text: string, wire: seq<Bytes>, i: nat)
    requires i < |wire| && |states| == |wire| + 1
    requires forall j {:trigger wire[j]} :: 0 <= j < |wire| ==>
               step(states[j], wire[j]) == (states[j + 1], if j + 1 < |wire| then Pending else Handed(text))
    ensures Run(step, states[i], wire[i..]) == (states[|wire|], FrameEvents(|wire| - i, text))
    decreases |wire| - i
  {
    assert wire[i..][0] == wire[i] && wire[i..][1..] == wire[i + 1..];
    var n := |wire| - i;
    if n > 1 {
      RunThrough(step, states, text, wire, i + 1);
      assert FrameEvents(n, text) == [Pending] + FrameEvents(n - 1, text);
    } else {
      assert wire[i..] == [wire[i]];
      RunOne(step, states[i], wire[i]);
      assert FrameEvents(1, text) == [Handed(text)];
    }
  }

  /** The receiver has the sender's nonce, no message in progress, and has handed over these texts. */
  ghost predicate CaughtUp(tx: SecureChannel.Channel, s: Receiver, events: seq<Event>, texts: seq<string>) {
    && InStep(tx, s.channel) && s.assembly == None && !s.closed
    && HandedTexts(events) == texts
  }

  /** One frame, sent by one end and received in order by the other. */
  lemma FrameGoesThrough(c: Crypto, u: Utf8, id: Bytes, tx: SecureChannel.Channel, s: Receiver, f: Frame)
    requires Lawful(c) && Faithful(u) && |id| == Framing.ID_SIZE && Legal(u, f)
    requires CaughtUp(tx, s, [], [])
    requires Sent(c, u, id, tx, f).1.Ok?
    ensures var (tx', wire) := Sent(c, u, id, tx, f);
            var (s', events) := Run(ReceiverStep(c, u, Framing.Pusher(Some(id))), s, wire.value);
            CaughtUp(tx', s', events, [f.text])
  {
    SentRecords(c, u, id, tx, f);
    var payload := u.encode(f.text);
    var rs, asms := Framing.Records(id, f.message, payload), Framing.Assemblies(id, f.message, payload);
    RecordsAccepted(u, id, f);
    var wire := Sent(c, u, id, tx, f).1.value;
    WireGoesThrough(c, u, Framing.Pusher(Some(id)), s, rs, asms, f.text, wire);
    HandedOfFrame(|rs|, f.text);
  }

  lemma RecordsAccepted(u: Utf8, id: Bytes, f: Frame)
    requires |id| == Framing.ID_SIZE && Legal(u, f)
    ensures Accepts(u, Framing.Pusher(Some(id)), Framing.Records(id, f.message, u.encode(f.text)),
                    Framing.Assemblies(id, f.message, u.encode(f.text)), f.text)
  {
    var payload := u.encode(f.text);
    var rs, asms := Framing.Records(id, f.message, payload), Framing.Assemblies(id, f.message, payload);
    forall i | 0 <= i < |rs|
      ensures |rs[i]| <= SecureChannel.MAX_PLAINTEXT
      ensures Framing.Pusher(Some(id))(asms[i], rs[i]) == (asms[i + 1], Ok(if i + 1 < |rs| then None else Some(payload)))
    {
      Framing.PushedInOrder(Some(id), id, f.message, payload, i);
      assert rs[i] == Framing.Record(Framing.FrameAt(id, f.message, payload, i));
    }
  }

  function Texts(frames: seq<Frame>): (ts: seq<string>) {
    seq(|frames|, i requires 0 <= i < |frames| => frames[i].text)
  }

  /** What one frame does, any number of frames do. */
  lemma {:induction false} ManyGoThrough(u: Utf8, send: Send, step: (Receiver, Bytes) -> (Receiver, Event),
                                         tx: SecureChannel.Channel, s: Receiver, frames: seq<Frame>)
    requires forall tx, s, f {:trigger send(tx, f), CaughtUp(tx, s, [], [])} ::
               CaughtUp(tx, s, [], []) && Legal(u, f) && send(tx, f).1.Ok? ==>
                 CaughtUp(send(tx, f).0, Run(step, s, send(tx, f).1.value).0, Run(step, s, send(tx, f).1.value).1, [f.text])
    requires forall i :: 0 <= i < |frames| ==> Legal(u, frames[i])
    requires CaughtUp(tx, s, [], [])
    requires SentAll(send, tx, frames).1.Ok?
    ensures var (tx', wire) := SentAll(send, tx, frames);
            var (s', events) := Run(step, s, wire.value);
            CaughtUp(tx', s', events, Texts(frames))
  {
    if frames != [] {
      var init, f := frames[..|frames| - 1], frames[|frames| - 1];
      ManyGoThrough(u, send, step, tx, s, init);
      var (tx1, wire1) := SentAll(send, tx, init);
      var (s1, events1) := Run(step, s, wire1.value);
      assert CaughtUp(tx1, s1, [], []);
      var (tx2, wire2) := send(tx1, f);
      var (s2, events2) := Run(step, s1, wire2.value);
      RunAppend(step, s, wire1.value, wire2.value);
      HandedAppend(events1, events2);
      assert Texts(frames) == Texts(init) + [f.text];
    }
  }

  /**
   * End to end: for every list of frames of legal size, the records one end sends, received in
   * order at the other, hand over exactly the texts of the frames, in order and once each, and
   * leave the nonces in step for the next frame.
   */
  lemma FramesGoThrough(c: Crypto, u: Utf8, id: Bytes, tx: SecureChannel.Channel, s: Receiver, frames: seq<Frame>)
    requires Lawful(c) && Faithful(u) && |id| == Framing.ID_SIZE
    requires forall i :: 0 <= i < |frames| ==> Legal(u, frames[i])
    requires CaughtUp(tx, s, [], [])
    requires SentAll(Sender(c, u, id), tx, frames).1.Ok?
    ensures var (tx', wire) := SentAll(Sender(c, u, id), tx, frames);
            var (s', events) := Run(ReceiverStep(c, u, Framing.Pusher(Some(id))), s, wire.value);
            CaughtUp(tx', s', events, Texts(frames))
  {
    var send, step := Sender(c, u, id), ReceiverStep(c, u, Framing.Pusher(Some(id)));
    forall tx, s, f | CaughtUp(tx, s, [], []) && Legal(u, f) && send(tx, f).1.Ok?
      ensures CaughtUp(send(tx, f).0, Run(step, s, send(tx, f).1.value).0, Run(step, s, send(tx, f).1.value).1, [f.text])
    {
      FrameGoesThrough(c, u, id, tx, s, f);
    }
    ManyGoThrough(u, send, step, tx, s, frames);
  }

  /** After a handshake both directions are in step: frames go through either way. */
  lemma PairedAreCaughtUp(c: Crypto, p: SecureChannel.Channel, h: SecureChannel.Channel, phone: Bytes, host: Bytes)
    requires SecureChannel.Paired(c, p, h, phone, host)
    ensures CaughtUp(p, Receiver(h, None, false), [], []) && CaughtUp(h, Receiver(p, None, false), [], [])
  {
  }

  /** How many records a list of frames takes. */
  function RecordCount(u: Utf8, frames: seq<Frame>): (n: nat) {
    if frames == [] then 0
    else RecordCount(u, frames[..|frames| - 1]) + Framing.FragmentCount(|u.encode(frames[|frames| - 1].text)|)
  }

  lemma {:induction false} ManyAreSent(u: Utf8, send: Send, tx: SecureChannel.Channel, frames: seq<Frame>)
    requires forall ch, f :: Established(ch) && Legal(u, f) ==> Counts(u, send, ch, f)
    requires forall i :: 0 <= i < |frames| ==> Legal(u, frames[i])
    requires Established(tx)
    ensures SentAll(send, tx, frames).1.Ok? <==> tx.conn.tx.n + RecordCount(u, frames) <= MAX_NONCE
    ensures SentAll(send, tx, frames).1.Ok? ==>
              SentAll(send, tx, frames).0 == WithTx(tx, tx.conn.tx.n + RecordCount(u, frames))
  {
    if frames != [] {
      var init := frames[..|frames| - 1];
      ManyAreSent(u, send, tx, init);
      var (ch, r) := SentAll(send, tx, init);
      if r.Ok? {
        assert Counts(u, send, ch, frames[|frames| - 1]);
      }
    }
  }

  /** Sending frames of legal size succeeds exactly while nonces last. */
  lemma SendingSucceeds(c: Crypto, u: Utf8, id: Bytes, tx: SecureChannel.Channel, frames: seq<Frame>)
    requires Lawful(c) && |id| == Framing.ID_SIZE
    requires forall i :: 0 <= i < |frames| ==> Legal(u, frames[i])
    requires Established(tx)
    ensures SentAll(Sender(c, u, id), tx, frames).1.Ok? <==> tx.conn.tx.n + RecordCount(u, frames) <= MAX_NONCE
  {
    forall ch, f | Established(ch) && Legal(u, f)
      ensures Counts(u, Sender(c, u, id), ch, f)
    {
      SentCounts(c, u, id, ch, f);
    }
    ManyAreSent(u, Sender(c, u, id), tx, frames);
  }

  lemma SentCounts(c: Crypto, u: Utf8, id: Bytes, ch: SecureChannel.Channel, f: Frame)
    requires Lawful(c) && |id| == Framing.ID_SIZE && Established(ch) && Legal(u, f)
    ensures Counts(u, Sender(c, u, id), ch, f)
  {
    SentRecords(c, u, id, ch, f);
    assert Sender(c, u, id)(ch, f) == Sent(c, u, id, ch, f);
  }

  /** A frame is sent exactly when its records still have nonces, and uses one for each. */
  ghost predicate Counts(u: Utf8, send: Send, ch: SecureChannel.Channel, f: Frame)
    requires Established(ch)
  {
    var n := ch.conn.tx.n + Framing.FragmentCount(|u.encode(f.text)|);
    (send(ch, f).1.Ok? <==> n <= MAX_NONCE) && (send(ch, f).1.Ok? ==> send(ch, f).0 == WithTx(ch, n))
  }

  /** How the lease attachment answers a text handed to it. */
  datatype Feed = Accepted | Released | Overloaded | Refused | Broken

  function FeedFailure(feed: Feed): Reason
    requires feed != Accepted
  {
    match feed
    case Released => LeaseReleased
    case Overloaded => Backpressure
    case Refused => ProtocolViolation
    case Broken => Unavailable
  }

  /** Only the host's end of an admitted channel, and only one transport, may carry frames. */
  predicate Bindable(ch: SecureChannel.Channel, id: Bytes) {
    && !ch.initiator && ch.next == SecureChannel.Complete && !ch.closed && ch.admitted && !ch.bound
    && |id| == Framing.ID_SIZE
  }

  /** Carries exact Hermes text frames; a failure severs only this outer attachment, once. */
  class EncryptedControllerTransport {
    const channel: SecureChannel.NoiseChannel
    const reassembler: Framing.Reassembler
    const id: Bytes
    const utf8: Utf8
    var closed: bool
    ghost var handed: seq<string>
    ghost var detaches: seq<Reason>

    ghost predicate Valid()
      reads this, reassembler
    {
      reassembler.Valid() && reassembler.expected == Some(id) && |detaches| == if closed then 1 else 0
    }

    ghost function View(): Receiver
      requires Valid()
      reads this, channel, reassembler
    {
      Receiver(channel.View(), reassembler.View(), closed)
    }

    constructor (channel: SecureChannel.NoiseChannel, id: Bytes, utf8: Utf8)
      ensures Valid() && fresh(reassembler) && this.channel == channel && this.id == id && this.utf8 == utf8
      ensures View() == Receiver(channel.View(), None, false) && handed == []
    {
      this.channel, this.id, this.utf8 := channel, id, utf8;
      reassembler := new Framing.Reassembler(Some(id));
      closed, handed, detaches := false, [], [];
    }

    /** A transport for a channel, which no other transport gets after it. */
    static method Bind(channel: SecureChannel.NoiseChannel, id: Bytes, utf8: Utf8) returns (t: Option<EncryptedControllerTransport>)
      modifies channel`transportBound
      ensures t.Some? <==> Bindable(old(channel.View()), id)
      ensures channel.View() == if t.Some? then old(channel.View()).(bound := true) else old(channel.View())
      ensures t.Some? ==> fresh(t.value) && fresh(t.value.reassembler) && t.value.Valid()
      ensures t.Some? ==> t.value.channel == channel && t.value.id == id && t.value.utf8 == utf8 && t.value.handed == []
      ensures t.Some? ==> t.value.View() == Receiver(channel.View(), None, false)
    {
      if channel.initiator || channel.nextAction != SecureChannel.Complete || channel.closed || !channel.admitted {
        return None;
      }
      if |id| != Framing.ID_SIZE || channel.transportBound {
        return None;
      }
      var bound := channel.MarkTransportBound();
      var transport := new EncryptedControllerTransport(channel, id, utf8);
      t := Some(transport);
    }

    /** The first close ends channel, reassembler and attachment; later ones change nothing. */
    method Close(reason: Reason)
      requires Valid()
      modifies this, channel, reassembler
      ensures Valid() && handed == old(handed)
      ensures View() == (if old(closed) then old(View()) else Shut(old(View())))
      ensures detaches == old(detaches) + (if old(closed) then [] else [reason])
    {
      if !closed {
        closed := true;
        reassembler.Reset();
        channel.Close();
        detaches := detaches + [reason];
      }
    }

    /** One sealed record in; if it completes a frame, `feed` is what the lease makes of the text. */
    method FeedCiphertext(sealed: Bytes, feed: Feed) returns (r: Result<bool, Reason>)
      requires Valid()
      modifies this, channel, reassembler
      ensures Valid()
      ensures var (next, event) := Received(channel.crypto, utf8, Framing.Pusher(Some(id)), old(View()), sealed);
              match event
              case Failed(reason) => View() == next && r == Err(reason) && handed == old(handed)
              case Pending => View() == next && r == Ok(false) && handed == old(handed)
              case Handed(text) =>
                && handed == old(handed) + [text]
                && (if feed == Accepted then View() == next && r == Ok(true)
                    else View() == Shut(next) && r == Err(FeedFailure(feed)))
    {
      if closed {
        return Err(ChannelClosed);
      }
      if channel.closed {
        Close(ChannelClosed);
        return Err(ChannelClosed);
      }
      var record := channel.Decrypt(sealed);
      if record.Err? {
        Close(ProtocolViolation);
        return Err(ProtocolViolation);
      }
      var message := reassembler.Push(record.value);
      if message.Err? {
        Close(ProtocolViolation);
        return Err(ProtocolViolation);
      }
      if message.value.None? {
        return Ok(false);
      }
      var text := utf8.decode(message.value.value);
      if text.None? {
        Close(MalformedFrame);
        return Err(MalformedFrame);
      }
      handed := handed + [text.value];
      if feed != Accepted {
        Close(FeedFailure(feed));
        return Err(FeedFailure(feed));
      }
      r := Ok(true);
    }

    /** The ordered Noise records of one frame taken from the attachment. */
    method NextCiphertexts(f: Frame) returns (r: Result<seq<Bytes>, Reason>)
      requires Valid()
      modifies this, channel, reassembler
      ensures Valid() && handed == old(handed)
      ensures old(closed) || old(channel.closed) ==> r == Err(ChannelClosed) && closed
      ensures !old(closed) && !old(channel.closed) ==>
                var (ch, sent) := Sent(channel.crypto, utf8, id, old(channel.View()), f);
                && r == sent && channel.View() == ch && closed == sent.Err?
                && (sent.Ok? ==> reassembler.View() == old(reassembler.View()))
    {
      if closed {
        return Err(ChannelClosed);
      }
      if channel.closed {
        Close(ChannelClosed);
        return Err(ChannelClosed);
      }
      var records := Framing.EncodeMessage(id, f.message, utf8.encode(f.text));
      if records.Err? {
        Close(ProtocolViolation);
        return Err(ProtocolViolation);
      }
      var wire := EncryptRecords(records.value);
      if wire.Err? {
        Close(ProtocolViolation);
        return Err(ProtocolViolation);
      }
      r := Ok(wire.value);
    }

    method EncryptRecords(rs: seq<Bytes>) returns (r: Result<seq<Bytes>, SecureChannel.ChannelError>)
      modifies channel
      ensures (channel.View(), r) == EncryptAll(channel.crypto, old(channel.View()), rs)
    {
      var wire: seq<Bytes> := [];
      for i := 0 to |rs|
        invariant EncryptAll(channel.crypto, old(channel.View()), rs[..i]) == (channel.View(), Ok(wire))
      {
        var sealed := channel.Encrypt(rs[i]);
        assert rs[..i + 1][..i] == rs[..i];
        if sealed.Err? {
          EncryptFault(channel.crypto, old(channel.View()), rs, i + 1);
          return Err(sealed.error);
        }
        wire := wire + [sealed.value];
      }
      assert rs[..|rs|] == rs;
      r := Ok(wire);
    }
  }

  lemma {:induction false} EncryptFault(c: Crypto, ch: SecureChannel.Channel, rs: seq<Bytes>, i: nat)
    requires i <= |rs| && EncryptAll(c, ch, rs[..i]).1.Err?
    ensures EncryptAll(c, ch, rs) == EncryptAll(c, ch, rs[..i])
  {
    if i == |rs| {
      assert rs[..i] == rs;
    } else {
      assert rs[..|rs| - 1][..i] == rs[..i];
      EncryptFault(c, ch, rs[..|rs| - 1], i);
    }
  }
}
