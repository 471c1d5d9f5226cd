/**
 * What the host socket gives: exactly when an open frame makes a connection, that every connection
 * offered is handed out once and in order, exactly which steps end a connection, and that frames
 * and sends which nothing stands in the way of go through.
 */
module Hosting {
  import opened Common
  import opened Machine
  import opened RelayClient

  // ---------------------------------------------------------------- opening

  /** The newest connection is open, holds the id, and is the last of those offered, with the read loop going on. */
  ghost predicate Offered(s: State, t: State, id: Id) {
    var k := |s.conns|;
    && |t.conns| == k + 1 && t.conns[k].id == id && !t.conns[k].closed && IsLive(t, k)
    && t.accepted == s.accepted + [k] && t.reading
  }

  /** The newest connection is closed, nothing holds the id, nothing is offered, and the read loop has ended. */
  ghost predicate TurnedAway(s: State, t: State, id: Id) {
    var k := |s.conns|;
    && |t.conns| == k + 1 && t.conns[k].id == id && t.conns[k].closed && id !in t.live
    && t.accepted == s.accepted && !t.reading
  }

  /**
   * In every run: an open frame gives an open connection, offered last, if and only if fewer than
   * eight wait to be accepted; otherwise it is refused and the read loop ends. Other ids keep
   * what they hold, and an earlier connection under this id is closed.
   */
  lemma OpensIff(ops: seq<Op>, id: Id)
    requires After(Initial, ops).reading
    ensures var s := After(Initial, ops);
            var t := Step(s, OpenFrame(id)).0;
            && (if |s.accepted| < ACCEPT_QUEUE_LIMIT then Offered(s, t, id) else TurnedAway(s, t, id))
            && t.live - {id} == s.live - {id} && t.socket == s.socket
            && (id in s.live ==> s.live[id] < |s.conns| && t.conns[s.live[id]].closed)
  {
    RunKeeps(Initial, ops);
    var s := After(Initial, ops);
    RetiredKeeps(s, id);
    var u := Retired(s, id);
    if id in s.live {
      MarkClosedKeeps(s.conns[s.live[id]]);
      assert u.conns[s.live[id]].closed;
    }
    assert Opened(s, id) == if |s.accepted| < ACCEPT_QUEUE_LIMIT then Taken(u, id) else Refused(u, id);
  }

  // -------------------------------------------------------------- accepting

  /** The connection that a step offers. */
  function Offers(s: State, op: Op): (ks: seq<nat>) {
    if op.OpenFrame? && s.reading && |s.accepted| < ACCEPT_QUEUE_LIMIT then [|s.conns|] else []
  }

  /** The connection that a step hands out. */
  function Hands(s: State, op: Op): (ks: seq<nat>) {
    if op.Accept? && s.accepted != [] then [s.accepted[0]] else []
  }

  function AllOffers(s: State, ops: seq<Op>): (ks: seq<nat>)
    decreases |ops|
  {
    if ops == [] then [] else Offers(s, ops[0]) + AllOffers(Step(s, ops[0]).0, ops[1..])
  }

  function AllHands(s: State, ops: seq<Op>): (ks: seq<nat>)
    decreases |ops|
  {
    if ops == [] then [] else Hands(s, ops[0]) + AllHands(Step(s, ops[0]).0, ops[1..])
  }

  lemma StepHands(s: State, op: Op)
    ensures s.accepted + Offers(s, op) == Hands(s, op) + Step(s, op).0.accepted
    ensures |s.accepted| <= ACCEPT_QUEUE_LIMIT ==> |Step(s, op).0.accepted| <= ACCEPT_QUEUE_LIMIT
  {
  }

  lemma {:induction false} HandedFrom(s: State, ops: seq<Op>)
    ensures s.accepted + AllOffers(s, ops) == AllHands(s, ops) + After(s, ops).accepted
    ensures |s.accepted| <= ACCEPT_QUEUE_LIMIT ==> |After(s, ops).accepted| <= ACCEPT_QUEUE_LIMIT
    decreases |ops|
  {
    if ops != [] {
      var t := Step(s, ops[0]).0;
      StepHands(s, ops[0]);
      HandedFrom(t, ops[1..]);
      Regroup(s.accepted, Offers(s, ops[0]), AllOffers(t, ops[1..]), Hands(s, ops[0]), t.accepted,
              AllHands(t, ops[1..]), After(t, ops[1..]).accepted);
    }
  }

  lemma Regroup(a: seq<nat>, b: seq<nat>, c: seq<nat>, x: seq<nat>, y: seq<nat>, z: seq<nat>, w: seq<nat>)
    requires a + b == x + y && y + c == z + w
    ensures a + (b + c) == (x + z) + w
  {
    assert a + (b + c) == (a + b) + c;
    assert (x + y) + c == x + (y + c);
    assert x + (z + w) == (x + z) + w;
  }

  /** Offers come in the order of the connections, each after all that were there. */
  lemma {:induction false} OffersRise(s: State, ops: seq<Op>)
    requires Inv(s)
    ensures var ks := AllOffers(s, ops);
            Rises(ks, |s.conns|, |After(s, ops).conns|)
    decreases |ops|
  {
    if ops != [] {
      var t := Step(s, ops[0]).0;
      StepKeeps(s, ops[0]);
      StepAdds(s, ops[0]);
      OffersRise(t, ops[1..]);
      RiseTogether(Offers(s, ops[0]), AllOffers(t, ops[1..]), |s.conns|, |t.conns|, |After(s, ops).conns|);
    }
  }

  /** Rising numbers between two bounds. */
  ghost predicate Rises(ks: seq<nat>, low: nat, high: nat) {
    && low <= high && (forall i :: 0 <= i < |ks| ==> low <= ks[i] < high)
    && (forall i, j :: 0 <= i < j < |ks| ==> ks[i] < ks[j])
  }

  lemma RiseTogether(a: seq<nat>, b: seq<nat>, low: nat, mid: nat, high: nat)
    requires Rises(a, low, mid) && Rises(b, mid, high)
    ensures Rises(a + b, low, high)
  {
  }

  lemma StepAdds(s: State, op: Op)
    ensures Rises(Offers(s, op), |s.conns|, |Step(s, op).0.conns|)
  {
  }

  /**
   * In every run the connections offered are those handed out so far, in the same order, followed
   * by those that still wait; no connection is offered twice; and never more than eight wait.
   */
  lemma OfferedAreHandedOut(ops: seq<Op>)
    ensures var (ks, s) := (AllOffers(Initial, ops), After(Initial, ops));
            && ks == AllHands(Initial, ops) + s.accepted
            && (forall i, j :: 0 <= i < j < |ks| ==> ks[i] < ks[j])
            && (forall i :: 0 <= i < |ks| ==> ks[i] < |s.conns|)
            && |s.accepted| <= ACCEPT_QUEUE_LIMIT
  {
    assert Inv(Initial);
    HandedFrom(Initial, ops);
    OffersRise(Initial, ops);
    assert [] + AllOffers(Initial, ops) == AllOffers(Initial, ops);
  }

  // ----------------------------------------------------------------- ending

  /** The steps that end an open connection. */
  predicate Ends(s: State, op: Op, k: nat)
    requires k < |s.conns|
  {
    match op
    case EndAll => !s.reading
    case OpenFrame(id) => s.reading && id == s.conns[k].id
    case CloseFrame(id) => s.reading && id == s.conns[k].id
    case DataFrame(id, _) => s.reading && id == s.conns[k].id && |s.conns[k].inbound| == INBOUND_QUEUE_LIMIT
    case HostClose(c) => c == k
    case _ => false
  }

  lemma EndsClose(s: State, op: Op, k: nat)
    requires Inv(s) && IsLive(s, k) && Ends(s, op, k)
    ensures Step(s, op).0.conns[k].closed
  {
    assert Matched(s, k) && ConnSound(s.conns[k]);
    MarkClosedKeeps(s.conns[k]);
    if op.OpenFrame? {
      RetiredKeeps(s, op.id);
      assert Retired(s, op.id).conns[k].closed;
    }
  }

  lemma QuietWhenNotReading(s: State, op: Op, k: nat)
    requires Inv(s) && IsLive(s, k) && !Ends(s, op, k) && MayEnd(s, op, k)
    ensures Step(s, op).0 == s
  {
  }

  /** In every run, at every step: an open connection is closed by it if and only if it is one of these. */
  lemma EndedIff(ops: seq<Op>, op: Op, k: nat)
    requires IsLive(After(Initial, ops), k)
    ensures var s := After(Initial, ops);
            var t := Step(s, op).0;
            k < |t.conns| && (t.conns[k].closed <==> Ends(s, op, k)) && (IsLive(t, k) <==> !Ends(s, op, k))
  {
    RunKeeps(Initial, ops);
    var s := After(Initial, ops);
    StepAdds(s, op);
    StepKeeps(s, op);
    assert Matched(s, k) && Matched(Step(s, op).0, k);
    if Ends(s, op, k) {
      EndsClose(s, op, k);
    } else if MayEnd(s, op, k) {
      QuietWhenNotReading(s, op, k);
    } else {
      OnlyOwnStepsEnd(s, op, k);
    }
  }

  // ------------------------------------------------------------ going through

  /** In every run: a receive on an open connection gets the first frame that it has, and waits only if it has none. */
  lemma OpenReceives(ops: seq<Op>, k: nat)
    requires var s := After(Initial, ops); IsLive(s, k) && !s.conns[k].suspended
    ensures var s := After(Initial, ops);
            var (t, r) := Step(s, Receive(k));
            var fs := Frames(s.conns[k].inbound);
            if fs == [] then r == Wait && k < |t.conns| && t.conns[k].suspended
            else r == Frame(fs[0]) && k < |t.conns| && Frames(t.conns[k].inbound) == fs[1..]
  {
    RunKeeps(Initial, ops);
    var s := After(Initial, ops);
    assert Matched(s, k) && ConnSound(s.conns[k]);
    if s.conns[k].inbound != [] {
      FramesHead(s.conns[k].inbound);
    }
  }

  /** In every run: a frame for an open connection whose queue has room is queued last, and the connection stays open. */
  lemma FrameIsQueued(ops: seq<Op>, k: nat, data: Bytes)
    requires var s := After(Initial, ops); IsLive(s, k) && s.reading && |s.conns[k].inbound| < INBOUND_QUEUE_LIMIT
    ensures var s := After(Initial, ops);
            var t := Step(s, DataFrame(s.conns[k].id, data)).0;
            k < |t.conns| && IsLive(t, k) && !t.conns[k].closed && Frames(t.conns[k].inbound) == Frames(s.conns[k].inbound) + [data]
  {
    RunKeeps(Initial, ops);
    var s := After(Initial, ops);
    assert Matched(s, k);
    FramesSnoc(s.conns[k].inbound, Some(data));
  }

  /**
   * In every run: a send by an open connection that gets its turn at once, on a socket that takes it,
   * goes out under its id.
   */
  lemma SendGoesOut(ops: seq<Op>, k: nat, data: Bytes)
    requires var s := After(Initial, ops); IsLive(s, k) && s.socket.Some?
    ensures var s := After(Initial, ops);
            var t := Step(Step(s, Send(k, data)).0, SendResumes(|s.sends|, false)).0;
            t.wire == s.wire + [Wire(s.socket.value, s.conns[k].id, k, data)] && t.sends == s.sends
  {
    RunKeeps(Initial, ops);
    var s := After(Initial, ops);
    assert Matched(s, k);
  }

  /**
   * A send that waited goes out if and only if its turn comes on the socket it saw, with its connection
   * still open, and the socket takes it.
   */
  lemma SentIff(ops: seq<Op>, i: nat, fails: bool)
    requires i < |After(Initial, ops).sends|
    ensures var s := After(Initial, ops);
            var (t, p) := (Step(s, SendResumes(i, fails)).0, s.sends[i]);
            && |t.sends| == |s.sends| - 1
            && (|t.wire| > |s.wire| <==> !fails && s.socket == Some(p.socket) && p.conn < |s.conns| && !s.conns[p.conn].closed)
            && (|t.wire| > |s.wire| ==> t.wire == s.wire + [Wire(p.socket, s.conns[p.conn].id, p.conn, p.data)])
  {
    RunKeeps(Initial, ops);
    var s := After(Initial, ops);
    if s.sends[i].conn < |s.conns| {
      assert Matched(s, s.sends[i].conn);
    }
  }

  /**
   * Whatever the state: once the read loop has failed, the clean-up and a new connect start it on a
   * fresh socket with no connection left.
   */
  lemma Reconnects(s: State)
    ensures var t := After(s, [ReadFails, DropSocket, EndAll, Connect]);
            t.reading && t.socket == Some(s.sockets) && t.sockets == s.sockets + 1 && t.live == map[]
  {
    var ops := [ReadFails, DropSocket, EndAll, Connect];
    var s1 := Step(s, ReadFails).0;
    var s2 := Step(s1, DropSocket).0;
    var s3 := Step(s2, EndAll).0;
    RunOfStates(Stepper(), ops, [s, s1, s2, s3, Step(s3, Connect).0], [Wait, Wait, Wait, Wait]);
  }
}
