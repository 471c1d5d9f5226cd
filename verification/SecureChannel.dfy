/**
 * One Noise channel of the relay: the order of the handshake messages, closing on every
 * cryptographic failure, and the one-way flags that admission and transport set.
 */
module SecureChannel {
  import opened Common
  import opened Machine
  import opened Noise
  import opened KeySchedule

  const KEY_BYTES := 32
  const CAPABILITY_BYTES := 32
  const MAX_CIPHERTEXT := 65_535
  const MAX_PLAINTEXT := 65_519

  datatype Action = Write1 | Read1 | Write2 | Read2 | Write3 | Read3 | Complete

  datatype ChannelError =
    | ChannelClosed | AuthenticationFailed | HandshakeNotFinished | PlaintextLimit | CiphertextLimit
    | TransportFailed | AlreadyAdmitted | NotAdmitted | AlreadyBound

  /** The Noise connection: shaking hands, or carrying data with one cipher for each direction. */
  datatype Connection = Shaking(x: Handshake) | Carrying(tx: Cipher, rx: Cipher, hash: Bytes, peer: Bytes)

  /** A channel as a value. */
  datatype Channel = Channel(initiator: bool, next: Action, closed: bool, admitted: bool, bound: bool, conn: Connection)

  type Reply = Result<Bytes, ChannelError>

  function Fresh(initiator: bool, x: Handshake): (ch: Channel)
    ensures Sound(ch)
  {
    Channel(initiator, if initiator then Write1 else Read1, false, false, false, Shaking(x))
  }

  function Closed(ch: Channel): Channel { ch.(closed := true) }

  predicate Finished(ch: Channel) { ch.next == Complete && !ch.closed }

  /** The action after this one; a side that is not at this action has none. */
  function Following(a: Action): Action {
    match a
    case Write1 => Read2
    case Read1 => Write2
    case Write2 => Read3
    case Read2 => Write3
    case Write3 => Complete
    case Read3 => Complete
    case Complete => Complete
  }

  predicate MayWrite(ch: Channel) {
    if ch.initiator then ch.next == Write1 || ch.next == Write3 else ch.next == Write2
  }

  predicate MayRead(ch: Channel) {
    if ch.initiator then ch.next == Read2 else ch.next == Read1 || ch.next == Read3
  }

  /** Payloads are empty but for the pairing capability of the third message. */
  predicate PayloadAllowed(a: Action, payload: Bytes) {
    payload == [] || ((a == Write3 || a == Read3) && |payload| == CAPABILITY_BYTES)
  }

  /** After a handshake message: the next action, and the transport when it was the last. */
  function Advanced(c: Crypto, ch: Channel, x: Handshake, reply: Bytes): (r: (Channel, Reply)) {
    if Following(ch.next) != Complete then
      (ch.(next := Following(ch.next), conn := Shaking(x)), Ok(reply))
    else if |x.sym.h| != KEY_BYTES || x.rs.None? || |x.rs.value| != KEY_BYTES then
      (Closed(ch.(next := Complete)), Err(AuthenticationFailed))
    else
      var (tx, rx) := Transport(c, x);
      (ch.(next := Complete, conn := Carrying(tx, rx, x.sym.h, x.rs.value)), Ok(reply))
  }

  function WroteHandshake(c: Crypto, ch: Channel, payload: Bytes, newKey: Bytes): (r: (Channel, Reply)) {
    if ch.closed then (ch, Err(ChannelClosed))
    else if !MayWrite(ch) || !PayloadAllowed(ch.next, payload) || ch.conn.Carrying? then
      (Closed(ch), Err(AuthenticationFailed))
    else
      match Written(c, ch.conn.x, payload, newKey)
      case Err(_) => (Closed(ch), Err(AuthenticationFailed))
      case Ok((x, wire)) =>
        if 32 <= |wire| <= MAX_CIPHERTEXT then Advanced(c, ch, x, wire)
        else (Closed(ch), Err(AuthenticationFailed))
  }

  function DidReadHandshake(c: Crypto, ch: Channel, wire: Bytes): (r: (Channel, Reply)) {
    if ch.closed then (ch, Err(ChannelClosed))
    else if !(32 <= |wire| <= MAX_CIPHERTEXT) || !MayRead(ch) || ch.conn.Carrying? then
      (Closed(ch), Err(AuthenticationFailed))
    else
      match Read(c, ch.conn.x, wire)
      case Err(_) => (Closed(ch), Err(AuthenticationFailed))
      case Ok((x, payload)) =>
        if PayloadAllowed(ch.next, payload) then Advanced(c, ch, x, payload)
        else (Closed(ch), Err(AuthenticationFailed))
  }

  /** Limits are refused without closing; a cryptographic failure closes. */
  function Encrypted(c: Crypto, ch: Channel, plain: Bytes): (r: (Channel, Reply)) {
    if ch.closed then (ch, Err(ChannelClosed))
    else if ch.next != Complete || ch.conn.Shaking? then (ch, Err(HandshakeNotFinished))
    else if |plain| > MAX_PLAINTEXT then (ch, Err(PlaintextLimit))
    else
      match Sealed(c, ch.conn.tx, [], plain)
      case Err(_) => (Closed(ch), Err(TransportFailed))
      case Ok((tx, sealed)) =>
        if |sealed| > MAX_CIPHERTEXT then (Closed(ch), Err(TransportFailed))
        else (ch.(conn := ch.conn.(tx := tx)), Ok(sealed))
  }

  function Decrypted(c: Crypto, ch: Channel, sealed: Bytes): (r: (Channel, Reply)) {
    if ch.closed then (ch, Err(ChannelClosed))
    else if ch.next != Complete || ch.conn.Shaking? then (ch, Err(HandshakeNotFinished))
    else if |sealed| > MAX_CIPHERTEXT || |sealed| < TAG_SIZE then (ch, Err(CiphertextLimit))
    else
      match Opened(c, ch.conn.rx, [], sealed)
      case Err(_) => (Closed(ch), Err(TransportFailed))
      case Ok((rx, plain)) =>
        if |plain| > MAX_PLAINTEXT then (Closed(ch), Err(TransportFailed))
        else (ch.(conn := ch.conn.(rx := rx)), Ok(plain))
  }

  function MarkedAdmitted(ch: Channel): (r: (Channel, Reply)) {
    if ch.closed then (ch, Err(ChannelClosed))
    else if !Finished(ch) then (ch, Err(HandshakeNotFinished))
    else if ch.admitted then (ch, Err(AlreadyAdmitted))
    else (ch.(admitted := true), Ok([]))
  }

  function MarkedBound(ch: Channel): (r: (Channel, Reply)) {
    if ch.closed then (ch, Err(ChannelClosed))
    else if !Finished(ch) || !ch.admitted then (ch, Err(NotAdmitted))
    else if ch.bound then (ch, Err(AlreadyBound))
    else (ch.(bound := true), Ok([]))
  }

  // ------------------------------------------------------------------ runs

  datatype Op =
    | WriteShake(payload: Bytes, newKey: Bytes) | ReadShake(wire: Bytes)
    | Encrypt(plain: Bytes) | Decrypt(sealed: Bytes) | Admit | Bind | Close

  function Step(c: Crypto, ch: Channel, op: Op): (r: (Channel, Reply)) {
    match op
    case WriteShake(p, k) => WroteHandshake(c, ch, p, k)
    case ReadShake(w) => DidReadHandshake(c, ch, w)
    case Encrypt(p) => Encrypted(c, ch, p)
    case Decrypt(s) => Decrypted(c, ch, s)
    case Admit => MarkedAdmitted(ch)
    case Bind => MarkedBound(ch)
    case Close => (Closed(ch), Ok([]))
  }

  function Stepper(c: Crypto): (Channel, Op) -> (Channel, Reply) {
    (ch, op) => Step(c, ch, op)
  }

  /** The handshake messages of a side, true for those it writes. */
  function Script(initiator: bool): seq<bool> {
    if initiator then [true, false, true] else [false, true, false]
  }

  /** How many messages of its script a channel has done. */
  function Position(a: Action): nat {
    match a
    case Write1 => 0
    case Read1 => 0
    case Write2 => 1
    case Read2 => 1
    case Write3 => 2
    case Read3 => 2
    case Complete => 3
  }

  /** The action of a role suits it, and the flags are set in order: complete, admitted, bound. */
  ghost predicate Sound(ch: Channel) {
    && (ch.next == Complete && ch.conn.Shaking? ==> ch.closed)
    && (ch.next != Complete ==> ch.conn.Shaking?)
    && (ch.next != Complete ==> (ch.next in {Write1, Write2, Write3}) == Script(ch.initiator)[Position(ch.next)])
    && (ch.admitted ==> ch.conn.Carrying?)
    && (ch.bound ==> ch.admitted)
  }

  /** The directions of the accepted handshake messages of a run. */
  function Shakes(ops: seq<Op>, replies: seq<Reply>): (dirs: seq<bool>)
    requires |ops| == |replies|
  {
    if ops == [] then []
    else
      (if (ops[0].WriteShake? || ops[0].ReadShake?) && replies[0].Ok? then [ops[0].WriteShake?] else [])
      + Shakes(ops[1..], replies[1..])
  }

  function CountOk(ops: seq<Op>, replies: seq<Reply>, op: Op): (n: nat)
    requires |ops| == |replies|
  {
    if ops == [] then 0
    else (if ops[0] == op && replies[0].Ok? then 1 else 0) + CountOk(ops[1..], replies[1..], op)
  }

  /** What one operation may do to a sound channel. */
  ghost predicate Follows(ch: Channel, op: Op, ch': Channel, reply: Reply) {
    && Sound(ch') && ch'.initiator == ch.initiator
    && (ch.closed ==> ch' == ch && (reply.Ok? ==> op == Close))
    && (op.WriteShake? || op.ReadShake? ==>
          if reply.Ok? then
            && ch.next != Complete && Script(ch.initiator)[Position(ch.next)] == op.WriteShake?
            && Position(ch'.next) == Position(ch.next) + 1
          else ch'.closed)
    && (!op.WriteShake? && !op.ReadShake? ==> ch'.next == ch.next)
    && (if op == Admit && reply.Ok? then !ch.admitted && ch'.admitted && ch.next == Complete
        else ch'.admitted == ch.admitted)
    && (if op == Bind && reply.Ok? then !ch.bound && ch'.bound && ch.admitted else ch'.bound == ch.bound)
    && ((op.Encrypt? || op.Decrypt?) && reply.Ok? ==> ch.next == Complete)
  }

  lemma StepFollows(c: Crypto, ch: Channel, op: Op)
    requires Sound(ch)
    ensures Follows(ch, op, Step(c, ch, op).0, Step(c, ch, op).1)
  {
  }

  /** The outcome of a run: what it did of the script, and how often it set each flag. */
  ghost predicate Followed(ch: Channel, ops: seq<Op>, end: Channel, replies: seq<Reply>)
    requires |ops| == |replies|
  {
    var dirs := Shakes(ops, replies);
    var at := Position(ch.next);
    && Sound(end) && end.initiator == ch.initiator
    && at + |dirs| <= 3 && dirs == Script(ch.initiator)[at..at + |dirs|]
    && (!end.closed ==> !ch.closed && Position(end.next) == at + |dirs|)
    && CountOk(ops, replies, Admit) == (if end.admitted && !ch.admitted then 1 else 0)
    && CountOk(ops, replies, Bind) == (if end.bound && !ch.bound then 1 else 0)
    && (ch.admitted ==> end.admitted) && (ch.bound ==> end.bound)
    && (ch.closed ==> dirs == [])
  }

  /** A first operation and the rest of a run make a run. */
  lemma FollowedFrom(ch: Channel, ch': Channel, ops: seq<Op>, end: Channel, replies: seq<Reply>)
    requires |ops| == |replies| > 0 && Sound(ch)
    requires Follows(ch, ops[0], ch', replies[0]) && Followed(ch', ops[1..], end, replies[1..])
    ensures Followed(ch, ops, end, replies)
  {
    var first := if (ops[0].WriteShake? || ops[0].ReadShake?) && replies[0].Ok? then [ops[0].WriteShake?] else [];
    var rest := Shakes(ops[1..], replies[1..]);
    assert Shakes(ops, replies) == first + rest;
    if first == [] {
      assert first + rest == rest;
    } else {
      SliceOneMore(Script(ch.initiator), Position(ch.next), |rest|);
    }
  }

  lemma SliceOneMore(script: seq<bool>, at: nat, n: nat)
    requires at + 1 + n <= |script|
    ensures script[at..at + 1 + n] == [script[at]] + script[at + 1..at + 1 + n]
  {
  }

  lemma {:induction false} RunFollows(step: (Channel, Op) -> (Channel, Reply), ch: Channel, ops: seq<Op>)
    requires Sound(ch)
    requires forall x, op {:trigger step(x, op)} :: Sound(x) ==> Follows(x, op, step(x, op).0, step(x, op).1)
    ensures Followed(ch, ops, Run(step, ch, ops).0, Run(step, ch, ops).1)
    decreases |ops|
  {
    if ops != [] {
      var (ch', reply) := step(ch, ops[0]);
      assert Follows(ch, ops[0], ch', reply);
      RunFollows(step, ch', ops[1..]);
      var (end, replies) := Run(step, ch, ops);
      assert replies[0] == reply && replies[1..] == Run(step, ch', ops[1..]).1;
      FollowedFrom(ch, ch', ops, end, replies);
    } else {
      assert Script(ch.initiator)[Position(ch.next)..Position(ch.next)] == [];
    }
  }

  /**
   * Over every run of a channel: the accepted handshake messages are, in order, the next ones of
   * the script of its role; at most one admission and one binding succeed; and a flag once set stays.
   */
  lemma RunFollowsScript(c: Crypto, ch: Channel, ops: seq<Op>)
    requires Sound(ch)
    ensures Followed(ch, ops, Run(Stepper(c), ch, ops).0, Run(Stepper(c), ch, ops).1)
  {
    forall x, op | Sound(x)
      ensures Follows(x, op, Stepper(c)(x, op).0, Stepper(c)(x, op).1)
    {
      StepFollows(c, x, op);
    }
    RunFollows(Stepper(c), ch, ops);
  }

  /** From a new channel no data operation, admission or binding succeeds before three messages have. */
  lemma NothingBeforeHandshake(c: Crypto, initiator: bool, x: Handshake, ops: seq<Op>, op: Op)
    requires op.Encrypt? || op.Decrypt? || op == Admit || op == Bind
    requires var ch := Run(Stepper(c), Fresh(initiator, x), ops).0; Step(c, ch, op).1.Ok?
    ensures Shakes(ops, Run(Stepper(c), Fresh(initiator, x), ops).1) == Script(initiator)
  {
    var ch := Fresh(initiator, x);
    RunFollowsScript(c, ch, ops);
    StepFollows(c, Run(Stepper(c), ch, ops).0, op);
  }

  // ------------------------------------------------------- two channels

  /** Keys and hashes of the sizes of the relay's protocol. */
  ghost predicate Sized(c: Crypto) {
    c.dhlen == KEY_BYTES && forall m {:trigger c.hash(m)} :: |c.hash(m)| == KEY_BYTES
  }

  /** Primitives that are lawful and sized exist: what is proved of them is proved of something. */
  lemma SizedAndLawful()
    ensures Lawful(Transparent()) && Sized(Transparent())
  {
    LawsCanBeMet();
  }

  /** The two sides of a message: one writes, the other reads it, with an admissible payload. */
  ghost predicate Facing(a: Channel, b: Channel, payload: Bytes) {
    && !a.closed && !b.closed && a.conn.Shaking? && b.conn.Shaking?
    && ((a.next == Write1 && b.next == Read1) || (a.next == Write2 && b.next == Read2) || (a.next == Write3 && b.next == Read3))
    && a.initiator == !b.initiator && a.initiator == (a.next != Write2)
    && PayloadAllowed(a.next, payload)
  }

  /** A channel in the middle of its handshake. */
  function Midway(initiator: bool, next: Action, x: Handshake): Channel {
    Channel(initiator, next, false, false, false, Shaking(x))
  }

  /** A channel that has just finished it. */
  function Established(c: Crypto, initiator: bool, x: Handshake): Channel
    requires x.rs.Some?
  {
    Channel(initiator, Complete, false, false, false,
            Carrying(Transport(c, x).0, Transport(c, x).1, x.sym.h, x.rs.value))
  }

  /** A flight that succeeds between two handshakes succeeds between the channels that hold them. */
  lemma ChannelFlight(c: Crypto, a: Channel, b: Channel, payload: Bytes, newKey: Bytes, x: Handshake, y: Handshake)
    returns (wire: Bytes)
    requires Sized(c) && Facing(a, b, payload) && Flight(c, a.conn.x, b.conn.x, payload, newKey, x, y)
    ensures Stepper(c)(a, WriteShake(payload, newKey)) == Advanced(c, a, x, wire)
    ensures Stepper(c)(b, ReadShake(wire)) == Advanced(c, b, y, payload)
    ensures |x.sym.h| == KEY_BYTES && wire == Written(c, a.conn.x, payload, newKey).value.1
  {
    wire := Written(c, a.conn.x, payload, newKey).value.1;
    assert |payload| <= 32;
  }

  /** A flight that is not the last. */
  lemma EarlyFlight(c: Crypto, first: bool, x: Handshake, y: Handshake, newKey: Bytes, x': Handshake, y': Handshake)
    returns (wire: Bytes)
    requires Sized(c) && Flight(c, x, y, [], newKey, x', y')
    ensures Stepper(c)(Midway(first, if first then Write1 else Write2, x), WriteShake([], newKey))
         == (Midway(first, if first then Read2 else Read3, x'), Ok(wire))
    ensures Stepper(c)(Midway(!first, if first then Read1 else Read2, y), ReadShake(wire))
         == (Midway(!first, if first then Write2 else Write3, y'), Ok([]))
    ensures wire == Written(c, x, [], newKey).value.1
  {
    wire := ChannelFlight(c, Midway(first, if first then Write1 else Write2, x),
                          Midway(!first, if first then Read1 else Read2, y), [], newKey, x', y');
  }

  /** The last flight, which carries the capability. */
  lemma LastFlight(c: Crypto, x: Handshake, y: Handshake, payload: Bytes, newKey: Bytes, x': Handshake, y': Handshake)
    returns (wire: Bytes)
    requires Sized(c) && Flight(c, x, y, payload, newKey, x', y')
    requires payload == [] || |payload| == CAPABILITY_BYTES
    requires x'.sym.h == y'.sym.h
    requires x'.rs.Some? && |x'.rs.value| == KEY_BYTES && y'.rs.Some? && |y'.rs.value| == KEY_BYTES
    ensures Stepper(c)(Midway(true, Write3, x), WriteShake(payload, newKey)) == (Established(c, true, x'), Ok(wire))
    ensures Stepper(c)(Midway(false, Read3, y), ReadShake(wire)) == (Established(c, false, y'), Ok(payload))
    ensures wire == Written(c, x, payload, newKey).value.1
  {
    wire := ChannelFlight(c, Midway(true, Write3, x), Midway(false, Read3, y), payload, newKey, x', y');
  }

  /** The outcome of a handshake between two channels. */
  ghost predicate Paired(c: Crypto, p: Channel, h: Channel, phone: Bytes, host: Bytes) {
    && Finished(p) && Finished(h) && p.conn.Carrying? && h.conn.Carrying?
    && p.conn.tx == h.conn.rx && h.conn.tx == p.conn.rx && p.conn.hash == h.conn.hash
    && p.conn.tx.k.Some? && h.conn.tx.k.Some? && p.conn.tx.n == h.conn.tx.n == 0
    && h.conn.peer == c.pub(phone) && p.conn.peer == c.pub(host)
  }

  /**
   * Two channels that run the handshake: every message is accepted, and they end up established,
   * with the same transcript hash, each knowing the other's static key, and each sending with
   * the cipher with which the other receives. The messages, the hash and the two keys are those
   * that the key schedule makes of the keys of both ends.
   */
  lemma ChannelHandshake(c: Crypto, name: Bytes, prologue: Bytes, phone: Bytes, host: Bytes,
                         phoneNew: Bytes, hostNew: Bytes, capability: Bytes)
    returns (p: Channel, h: Channel, w1: Bytes, w2: Bytes, w3: Bytes)
    requires Lawful(c) && Sized(c)
    requires capability == [] || |capability| == CAPABILITY_BYTES
    ensures Run(Stepper(c), Fresh(true, InitialXK(c, name, prologue, true, phone, None, c.pub(host))),
                [WriteShake([], phoneNew), ReadShake(w2), WriteShake(capability, phoneNew)])
         == (p, [Ok(w1), Ok([]), Ok(w3)])
    ensures Run(Stepper(c), Fresh(false, InitialXK(c, name, prologue, false, host, None, c.pub(host))),
                [ReadShake(w1), WriteShake([], hostNew), ReadShake(w3)])
         == (h, [Ok([]), Ok(w2), Ok(capability)])
    ensures Paired(c, p, h, phone, host)
    ensures var s := Session(name, prologue, phone, host, phoneNew, hostNew, [], [], capability);
            && w1 == Message(Parts1(c, s)) && w2 == Message(Parts2(c, s)) && w3 == Message(Parts3(c, s))
            && (p.conn.tx, p.conn.rx) == FinalCiphers(c, s) && p.conn.hash == Digest(c, Named(c, s), Parts3(c, s))
  {
    var s := Session(name, prologue, phone, host, phoneNew, hostNew, [], [], capability);
    var i0, r0 := Phone(c, s), Host(c, s);
    var i1, r1, i2, r2, i3, r3 := HandshakeComputes(c, s);
    w1, w2, w3 := FlightsThrough(c, i0, r0, phoneNew, hostNew, capability, i1, r1, i2, r2, i3, r3, phone, host);
    p, h := Established(c, true, i3), Established(c, false, r3);
    EstablishedArePaired(c, i3, r3, phone, host);
  }

  lemma FlightsThrough(c: Crypto, i0: Handshake, r0: Handshake, phoneNew: Bytes, hostNew: Bytes, capability: Bytes,
                       i1: Handshake, r1: Handshake, i2: Handshake, r2: Handshake, i3: Handshake, r3: Handshake,
                       phone: Bytes, host: Bytes)
    returns (w1: Bytes, w2: Bytes, w3: Bytes)
    requires Lawful(c) && Sized(c)
    requires capability == [] || |capability| == CAPABILITY_BYTES
    requires Flight(c, i0, r0, [], phoneNew, i1, r1) && Flight(c, r1, i1, [], hostNew, r2, i2)
    requires Flight(c, i2, r2, capability, phoneNew, i3, r3)
    requires i3.sym.h == r3.sym.h && r3.rs == Some(c.pub(phone)) && i3.rs == Some(c.pub(host))
    ensures Run(Stepper(c), Fresh(true, i0), [WriteShake([], phoneNew), ReadShake(w2), WriteShake(capability, phoneNew)])
         == (Established(c, true, i3), [Ok(w1), Ok([]), Ok(w3)])
    ensures Run(Stepper(c), Fresh(false, r0), [ReadShake(w1), WriteShake([], hostNew), ReadShake(w3)])
         == (Established(c, false, r3), [Ok([]), Ok(w2), Ok(capability)])
    ensures w1 == Written(c, i0, [], phoneNew).value.1 && w2 == Written(c, r1, [], hostNew).value.1
    ensures w3 == Written(c, i2, capability, phoneNew).value.1
  {
    w1 := EarlyFlight(c, true, i0, r0, phoneNew, i1, r1);
    w2 := EarlyFlight(c, false, r1, i1, hostNew, r2, i2);
    assert |c.pub(phone)| == |c.pub(host)| == c.dhlen;
    w3 := LastFlight(c, i2, r2, capability, phoneNew, i3, r3);
    RunThree(Stepper(c), Midway(true, Write1, i0), WriteShake([], phoneNew), ReadShake(w2), WriteShake(capability, phoneNew),
             Midway(true, Read2, i1), Midway(true, Write3, i2), Established(c, true, i3), Ok(w1), Ok([]), Ok(w3));
    RunThree(Stepper(c), Midway(false, Read1, r0), ReadShake(w1), WriteShake([], hostNew), ReadShake(w3),
             Midway(false, Write2, r1), Midway(false, Read3, r2), Established(c, false, r3), Ok([]), Ok(w2), Ok(capability));
  }

  lemma RunThree<S, I, O>(step: (S, I) -> (S, O), s: S, a: I, b: I, d: I, s1: S, s2: S, s3: S, o1: O, o2: O, o3: O)
    requires step(s, a) == (s1, o1) && step(s1, b) == (s2, o2) && step(s2, d) == (s3, o3)
    ensures Run(step, s, [a, b, d]) == (s3, [o1, o2, o3])
  {
    RunOfStates(step, [a, b, d], [s, s1, s2, s3], [o1, o2, o3]);
  }

  lemma EstablishedArePaired(c: Crypto, i: Handshake, r: Handshake, phone: Bytes, host: Bytes)
    requires i.rs == Some(c.pub(host)) && r.rs == Some(c.pub(phone)) && i.sym.h == r.sym.h
    requires Transport(c, i) == (Transport(c, r).1, Transport(c, r).0)
    ensures Paired(c, Established(c, true, i), Established(c, false, r), phone, host)
  {
  }

  // ----------------------------------------------------------- the object

  class NoiseChannel {
    const crypto: Crypto
    const initiator: bool
    var nextAction: Action
    var closed: bool
    var admitted: bool
    var transportBound: bool
    var connection: Connection

    ghost function View(): Channel
      reads this
    {
      Channel(initiator, nextAction, closed, admitted, transportBound, connection)
    }

    constructor (crypto: Crypto, initiator: bool, x: Handshake)
      ensures this.crypto == crypto && View() == Fresh(initiator, x)
    {
      this.crypto, this.initiator := crypto, initiator;
      nextAction := if initiator then Write1 else Read1;
      closed, admitted, transportBound := false, false, false;
      connection := Shaking(x);
    }

    method Close()
      modifies this`closed
      ensures View() == Closed(old(View()))
    {
      closed := true;
    }

    method FinishMessage(x: Handshake, reply: Bytes) returns (r: Reply)
      requires !closed && connection.Shaking?
      modifies this
      ensures (View(), r) == Advanced(crypto, old(View()), x, reply)
    {
      var following := Following(nextAction);
      if following == Complete {
        if |x.sym.h| != KEY_BYTES || x.rs.None? || |x.rs.value| != KEY_BYTES {
          nextAction := Complete;
          Close();
          return Err(AuthenticationFailed);
        }
        var (tx, rx) := Transport(crypto, x);
        connection := Carrying(tx, rx, x.sym.h, x.rs.value);
      } else {
        connection := Shaking(x);
      }
      nextAction := following;
      r := Ok(reply);
    }

    method WriteHandshake(payload: Bytes, newKey: Bytes) returns (r: Reply)
      modifies this
      ensures (View(), r) == WroteHandshake(crypto, old(View()), payload, newKey)
    {
      if closed {
        return Err(ChannelClosed);
      }
      var legal := if initiator then nextAction == Write1 || nextAction == Write3 else nextAction == Write2;
      if legal && PayloadAllowed(nextAction, payload) && connection.Shaking? {
        var written := Written(crypto, connection.x, payload, newKey);
        if written.Ok? && 32 <= |written.value.1| <= MAX_CIPHERTEXT {
          r := FinishMessage(written.value.0, written.value.1);
          return;
        }
      }
      Close();
      r := Err(AuthenticationFailed);
    }

    method ReadHandshake(wire: Bytes) returns (r: Reply)
      modifies this
      ensures (View(), r) == DidReadHandshake(crypto, old(View()), wire)
    {
      if closed {
        return Err(ChannelClosed);
      }
      var legal := if initiator then nextAction == Read2 else nextAction == Read1 || nextAction == Read3;
      if 32 <= |wire| <= MAX_CIPHERTEXT && legal && connection.Shaking? {
        var read := Read(crypto, connection.x, wire);
        if read.Ok? && PayloadAllowed(nextAction, read.value.1) {
          r := FinishMessage(read.value.0, read.value.1);
          return;
        }
      }
      Close();
      r := Err(AuthenticationFailed);
    }

    method Encrypt(plain: Bytes) returns (r: Reply)
      modifies this
      ensures (View(), r) == Encrypted(crypto, old(View()), plain)
    {
      if closed {
        return Err(ChannelClosed);
      }
      if nextAction != Complete || connection.Shaking? {
        return Err(HandshakeNotFinished);
      }
      if |plain| > MAX_PLAINTEXT {
        return Err(PlaintextLimit);
      }
      var sealed := Sealed(crypto, connection.tx, [], plain);
      if sealed.Err? || |sealed.value.1| > MAX_CIPHERTEXT {
        Close();
        return Err(TransportFailed);
      }
      connection := connection.(tx := sealed.value.0);
      r := Ok(sealed.value.1);
    }

    method Decrypt(sealed: Bytes) returns (r: Reply)
      modifies this
      ensures (View(), r) == Decrypted(crypto, old(View()), sealed)
    {
      if closed {
        return Err(ChannelClosed);
      }
      if nextAction != Complete || connection.Shaking? {
        return Err(HandshakeNotFinished);
      }
      if |sealed| > MAX_CIPHERTEXT || |sealed| < TAG_SIZE {
        return Err(CiphertextLimit);
      }
      var plain := Opened(crypto, connection.rx, [], sealed);
      if plain.Err? || |plain.value.1| > MAX_PLAINTEXT {
        Close();
        return Err(TransportFailed);
      }
      connection := connection.(rx := plain.value.0);
      r := Ok(plain.value.1);
    }

    method MarkAdmitted() returns (r: Reply)
      modifies this`admitted
      ensures (View(), r) == MarkedAdmitted(old(View()))
    {
      if closed {
        return Err(ChannelClosed);
      }
      if nextAction != Complete {
        return Err(HandshakeNotFinished);
      }
      if admitted {
        return Err(AlreadyAdmitted);
      }
      admitted := true;
      r := Ok([]);
    }

    method MarkTransportBound() returns (r: Reply)
      modifies this`transportBound
      ensures (View(), r) == MarkedBound(old(View()))
    {
      if closed {
        return Err(ChannelClosed);
      }
      if nextAction != Complete || !admitted {
        return Err(NotAdmitted);
      }
      if transportBound {
        return Err(AlreadyBound);
      }
      transportBound := true;
      r := Ok([]);
    }
  }
}
