/**
 * The multiplexer of the host socket: device connections that come and go under router-assigned
 * ids, each with a bounded inbound queue. A step is one stretch without suspension. A connection
 * is named by its position among all that were ever made, so that two under one id stay apart.
 */
module RelayClient {
  import opened Common
  import opened Machine

  const INBOUND_QUEUE_LIMIT := 64
  const ACCEPT_QUEUE_LIMIT := 8

  type Id = Bytes

  /**
   * `inbound` holds frames, and the end marker None. `suspended` says that a receive waits on it.
   * `arrived` records the frames that came with its id while it was connected, `received` what its
   * reader has had.
   */
  datatype Conn = Conn(id: Id, inbound: seq<Option<Bytes>>, closed: bool, suspended: bool,
                       arrived: seq<Bytes>, received: seq<Bytes>)

  /** A send past its first check, waiting for its turn on the socket it saw. */
  datatype Pending = Pending(conn: nat, socket: nat, data: Bytes)

  datatype Wire = Wire(socket: nat, id: Id, conn: nat, data: Bytes)

  /** `socket` is the live host socket; the read loop runs while `reading`. */
  datatype State = State(conns: seq<Conn>, live: map<Id, nat>, accepted: seq<nat>,
                         socket: Option<nat>, sockets: nat, reading: bool, sends: seq<Pending>, wire: seq<Wire>)

  const Initial := State([], map[], [], None, 0, false, [], [])

  // ------------------------------------------------------------- connections

  function NewConn(id: Id): Conn {
    Conn(id, [], false, false, [], [])
  }

  function MarkClosed(c: Conn): Conn {
    if c.closed then c
    else c.(closed := true, inbound := if |c.inbound| < INBOUND_QUEUE_LIMIT then c.inbound + [None] else c.inbound)
  }

  /** Queue a frame; false means that the bounded queue overflowed. */
  function Feed(c: Conn, data: Bytes): (Conn, bool) {
    if c.closed then (c, true)
    else if |c.inbound| < INBOUND_QUEUE_LIMIT then (c.(inbound := c.inbound + [Some(data)]), true)
    else (c, false)
  }

  datatype Received = Frame(data: Bytes) | End | Wait

  /** A receive up to the point where it has its answer or waits for the queue. */
  function BeginReceive(c: Conn): (Conn, Received) {
    if c.closed && c.inbound == [] then (c, End) else FinishReceive(c.(suspended := true))
  }

  /** A receive that waits for the queue takes its head as soon as there is one. */
  function FinishReceive(c: Conn): (Conn, Received) {
    if !c.suspended || c.inbound == [] then (c, Wait)
    else
      var t := c.(suspended := false, inbound := c.inbound[1..]);
      match c.inbound[0]
      case Some(data) => (t.(received := t.received + [data]), Frame(data))
      case None => (t.(closed := true), End)
  }

  // ------------------------------------------------------------ the connector

  predicate IsLive(s: State, k: nat) {
    k < |s.conns| && s.conns[k].id in s.live && s.live[s.conns[k].id] == k
  }

  function SetConn(s: State, k: nat, c: Conn): State
    requires k < |s.conns|
  {
    s.(conns := s.conns[k := c])
  }

  function Unmapped(s: State, id: Id): State {
    s.(live := s.live - {id})
  }

  /** Take the connection of an id out of the map and mark it closed. */
  function Retired(s: State, id: Id): State {
    if id in s.live && s.live[id] < |s.conns|
    then SetConn(Unmapped(s, id), s.live[id], MarkClosed(s.conns[s.live[id]])) else s
  }

  function Taken(s: State, id: Id): State {
    s.(conns := s.conns + [NewConn(id)], live := s.live[id := |s.conns|], accepted := s.accepted + [|s.conns|])
  }

  function Refused(s: State, id: Id): State {
    s.(conns := s.conns + [MarkClosed(NewConn(id))], live := s.live - {id}, reading := false)
  }

  /** A control frame opens a connection; when too many wait to be accepted it is refused and the read loop fails. */
  function Opened(s: State, id: Id): State {
    var t := Retired(s, id);
    if |t.accepted| < ACCEPT_QUEUE_LIMIT then Taken(t, id) else Refused(t, id)
  }

  /** Close a device connection from this side; the map changes only if it still holds this very connection. */
  function CloseDevice(s: State, k: nat): State
    requires k < |s.conns|
  {
    var t := SetConn(s, k, MarkClosed(s.conns[k]));
    if IsLive(s, k) then Unmapped(t, s.conns[k].id) else t
  }

  function FrameArrived(s: State, id: Id, data: Bytes): State {
    if id !in s.live || s.live[id] >= |s.conns| then s
    else
      var k := s.live[id];
      var (c, ok) := Feed(s.conns[k], data);
      var t := SetConn(s, k, c.(arrived := c.arrived + [data]));
      if ok then t else CloseDevice(t, k)
  }

  function MarkAll(s: State, k: nat): seq<Conn>
    requires k <= |s.conns|
  {
    seq(k, i requires 0 <= i < k => if IsLive(s, i) then MarkClosed(s.conns[i]) else s.conns[i])
  }

  function AllEnded(s: State): State {
    s.(conns := MarkAll(s, |s.conns|), live := map[])
  }

  /** A send that may still go out: same socket, same connection, still open. */
  predicate MaySend(s: State, p: Pending) {
    s.socket == Some(p.socket) && IsLive(s, p.conn) && !s.conns[p.conn].closed
  }

  datatype Op =
    | Connect
    | ReadFails
    | DropSocket
    | EndAll
    | OpenFrame(id: Id)
    | CloseFrame(id: Id)
    | DataFrame(id: Id, data: Bytes)
    | Accept
    | Receive(conn: nat)
    | ReceiveResumes(conn: nat)
    | Send(conn: nat, data: Bytes)
    | SendResumes(i: nat, fails: bool)
    | HostClose(conn: nat)

  function WithReceive(s: State, k: nat, r: (Conn, Received)): (State, Received)
    requires k < |s.conns|
  {
    (SetConn(s, k, r.0), r.1)
  }

  /** One step; what a receive returns is its outcome, and the other steps return Wait. */
  function Step(s: State, op: Op): (State, Received) {
    match op
    case Connect =>
      if s.reading || s.socket.Some? || s.live != map[] then (s, Wait)
      else (s.(socket := Some(s.sockets), sockets := s.sockets + 1, reading := true), Wait)
    case ReadFails => (s.(reading := false), Wait)
    case DropSocket => if s.reading then (s, Wait) else (s.(socket := None), Wait)
    case EndAll => if s.reading then (s, Wait) else (AllEnded(s), Wait)
    case OpenFrame(id) => if s.reading then (Opened(s, id), Wait) else (s, Wait)
    case CloseFrame(id) => if s.reading then (Retired(s, id), Wait) else (s, Wait)
    case DataFrame(id, data) => if s.reading then (FrameArrived(s, id, data), Wait) else (s, Wait)
    case Accept => if s.accepted == [] then (s, Wait) else (s.(accepted := s.accepted[1..]), Wait)
    case Receive(k) =>
      if k < |s.conns| && !s.conns[k].suspended then WithReceive(s, k, BeginReceive(s.conns[k])) else (s, Wait)
    case ReceiveResumes(k) => if k < |s.conns| then WithReceive(s, k, FinishReceive(s.conns[k])) else (s, Wait)
    case Send(k, data) =>
      if IsLive(s, k) && !s.conns[k].closed && s.socket.Some?
      then (s.(sends := s.sends + [Pending(k, s.socket.value, data)]), Wait) else (s, Wait)
    case SendResumes(i, fails) =>
      if i >= |s.sends| then (s, Wait)
      else
        var p := s.sends[i];
        var t := s.(sends := s.sends[..i] + s.sends[i + 1..]);
        if MaySend(s, p) && !fails then (t.(wire := t.wire + [Wire(p.socket, s.conns[p.conn].id, p.conn, p.data)]), Wait) else (t, Wait)
    case HostClose(k) => if k < |s.conns| && !s.conns[k].closed then (CloseDevice(s, k), Wait) else (s, Wait)
  }

  function Stepper(): (State, Op) -> (State, Received) {
    (s, op) => Step(s, op)
  }

  function After(s: State, ops: seq<Op>): State {
    Run(Stepper(), s, ops).0
  }

  // -------------------------------------------------------------- invariant

  /** The frames of a queue, without the end marker. */
  function Frames(q: seq<Option<Bytes>>): (fs: seq<Bytes>)
  {
    if q == [] then []
    else Frames(q[..|q| - 1]) + (match q[|q| - 1] case Some(d) => [d] case None => [])
  }

  /**
   * A queue holds frames, then at most one end marker, which only a closed connection has. What was
   * received and what is queued are what arrived, but for one frame that overflowed and closed it.
   * A receive that waits on a closed connection has something to take.
   */
  ghost predicate ConnSound(c: Conn) {
    && |c.inbound| <= INBOUND_QUEUE_LIMIT
    && (forall i :: 0 <= i < |c.inbound| && c.inbound[i].None? ==> c.closed && i == |c.inbound| - 1)
    && c.received + Frames(c.inbound) <= c.arrived
    && (!c.closed ==> c.received + Frames(c.inbound) == c.arrived)
    && |c.arrived| <= |c.received + Frames(c.inbound)| + 1
    && (c.closed && c.suspended ==> c.inbound != [])
  }

  /** A connection is in the map exactly when it is not closed. */
  ghost predicate Matched(s: State, k: nat)
    requires k < |s.conns|
  {
    IsLive(s, k) <==> !s.conns[k].closed
  }

  ghost predicate Inv(s: State) {
    && (forall k {:trigger s.conns[k]} :: 0 <= k < |s.conns| ==> ConnSound(s.conns[k]) && Matched(s, k))
    && (forall id {:trigger s.live[id]} :: id in s.live ==> s.live[id] < |s.conns| && s.conns[s.live[id]].id == id)
  }

  lemma FramesSnoc(q: seq<Option<Bytes>>, x: Option<Bytes>)
    ensures Frames(q + [x]) == Frames(q) + (match x case Some(d) => [d] case None => [])
  {
    assert (q + [x])[..|q|] == q;
  }

  lemma {:induction false} FramesHead(q: seq<Option<Bytes>>)
    requires q != []
    ensures Frames(q) == (match q[0] case Some(d) => [d] case None => []) + Frames(q[1..])
    decreases |q|
  {
    if |q| == 1 {
      assert q[..0] == [] && q[1..] == [];
    } else {
      FramesHead(q[..|q| - 1]);
      assert q[1..][..|q| - 2] == q[..|q| - 1][1..];
    }
  }

  lemma MarkClosedKeeps(c: Conn)
    requires ConnSound(c)
    ensures var t := MarkClosed(c); ConnSound(t) && t.closed && t == c.(closed := true, inbound := t.inbound)
  {
    FramesSnoc(c.inbound, None);
  }

  lemma FeedKeeps(c: Conn, data: Bytes)
    requires ConnSound(c) && !c.closed
    ensures var (t, ok) := Feed(c, data);
            var u := t.(arrived := c.arrived + [data]);
            ConnSound(if ok then u else MarkClosed(u)) && t.id == c.id && !t.closed && (!ok ==> t == c)
  {
    FramesSnoc(c.inbound, Some(data));
    var (t, ok) := Feed(c, data);
    var u := t.(arrived := c.arrived + [data]);
    if ok {
      assert c.received + (Frames(c.inbound) + [data]) == c.arrived + [data];
    } else {
      FramesSnoc(u.inbound, None);
    }
  }

  lemma FinishKeeps(c: Conn)
    requires ConnSound(c)
    ensures var (t, r) := FinishReceive(c);
            && ConnSound(t) && t.closed == c.closed && t.id == c.id && t.arrived == c.arrived
            && t.received == c.received + (if r.Frame? then [r.data] else [])
            && (r.Wait? ==> t == c && (c.suspended ==> !c.closed)) && (r.End? ==> c.closed && t.inbound == [])
  {
    if c.suspended && c.inbound != [] {
      FramesHead(c.inbound);
      var t := c.inbound[1..];
      match c.inbound[0]
      case Some(d) =>
        assert (c.received + [d]) + Frames(t) == c.received + ([d] + Frames(t));
      case None =>
        assert t == [];
    }
  }

  lemma BeginKeeps(c: Conn)
    requires ConnSound(c) && !c.suspended
    ensures var (t, r) := BeginReceive(c);
            && ConnSound(t) && t.closed == c.closed && t.id == c.id && t.arrived == c.arrived
            && t.received == c.received + (if r.Frame? then [r.data] else [])
            && (r.Wait? ==> !c.closed && c.inbound == [] && t == c.(suspended := true))
            && (r.End? ==> c.closed && t.inbound == [])
  {
    if !(c.closed && c.inbound == []) {
      FinishKeeps(c.(suspended := true));
    }
  }

  // -------------------------------------------------- every step keeps it

  /** Replacing one connection by another state of itself, open or closed as before. */
  lemma SetKeeps(s: State, k: nat, c: Conn)
    requires Inv(s) && k < |s.conns| && ConnSound(c) && c.id == s.conns[k].id && c.closed == s.conns[k].closed
    ensures Inv(SetConn(s, k, c))
  {
    var t := SetConn(s, k, c);
    forall i | 0 <= i < |t.conns| ensures ConnSound(t.conns[i]) && Matched(t, i) {
      assert Matched(s, i) && ConnSound(s.conns[i]);
    }
  }

  /** Closing a connection and taking it out of the map go together. */
  lemma ShutKeeps(s: State, k: nat, c: Conn)
    requires Inv(s) && IsLive(s, k) && ConnSound(c) && c.id == s.conns[k].id && c.closed
    ensures Inv(SetConn(Unmapped(s, c.id), k, c))
  {
    var t := SetConn(Unmapped(s, c.id), k, c);
    forall i | 0 <= i < |t.conns| ensures ConnSound(t.conns[i]) && Matched(t, i) {
      assert Matched(s, i) && ConnSound(s.conns[i]);
    }
  }

  lemma RetiredKeeps(s: State, id: Id)
    requires Inv(s)
    ensures var t := Retired(s, id); Inv(t) && id !in t.live && |t.conns| == |s.conns|
    ensures Retired(s, id) == s.(conns := Retired(s, id).conns, live := s.live - {id})
  {
    if id in s.live {
      var k := s.live[id];
      assert ConnSound(s.conns[k]);
      MarkClosedKeeps(s.conns[k]);
      ShutKeeps(s, k, MarkClosed(s.conns[k]));
    } else {
      assert s.live - {id} == s.live;
    }
  }

  lemma AddedKeeps(s: State, id: Id)
    requires Inv(s) && id !in s.live
    ensures Inv(s.(conns := s.conns + [NewConn(id)], live := s.live[id := |s.conns|]))
    ensures Inv(s.(conns := s.conns + [MarkClosed(NewConn(id))], live := s.live - {id}))
  {
    var t := s.(conns := s.conns + [NewConn(id)], live := s.live[id := |s.conns|]);
    var u := s.(conns := s.conns + [MarkClosed(NewConn(id))], live := s.live - {id});
    assert ConnSound(NewConn(id));
    MarkClosedKeeps(NewConn(id));
    forall i | 0 <= i < |t.conns| ensures ConnSound(t.conns[i]) && Matched(t, i) {
      if i < |s.conns| {
        assert Matched(s, i) && ConnSound(s.conns[i]);
      }
    }
    forall i | 0 <= i < |u.conns| ensures ConnSound(u.conns[i]) && Matched(u, i) {
      if i < |s.conns| {
        assert Matched(s, i) && ConnSound(s.conns[i]);
      }
    }
  }

  lemma OpenedKeeps(s: State, id: Id)
    requires Inv(s)
    ensures Inv(Opened(s, id))
  {
    RetiredKeeps(s, id);
    var t := Retired(s, id);
    AddedKeeps(t, id);
    SameConnsKeep(t.(conns := t.conns + [NewConn(id)], live := t.live[id := |t.conns|]), Taken(t, id));
    SameConnsKeep(t.(conns := t.conns + [MarkClosed(NewConn(id))], live := t.live - {id}), Refused(t, id));
  }

  lemma CloseDeviceKeeps(s: State, k: nat)
    requires Inv(s) && k < |s.conns|
    ensures Inv(CloseDevice(s, k))
  {
    assert ConnSound(s.conns[k]) && Matched(s, k);
    MarkClosedKeeps(s.conns[k]);
    if IsLive(s, k) {
      ShutKeeps(s, k, MarkClosed(s.conns[k]));
    } else {
      SetKeeps(s, k, MarkClosed(s.conns[k]));
    }
  }

  lemma FrameKeeps(s: State, id: Id, data: Bytes)
    requires Inv(s)
    ensures Inv(FrameArrived(s, id, data))
  {
    if id in s.live {
      var k := s.live[id];
      assert ConnSound(s.conns[k]) && Matched(s, k);
      FeedKeeps(s.conns[k], data);
      var (c, ok) := Feed(s.conns[k], data);
      var u := c.(arrived := c.arrived + [data]);
      if ok {
        SetKeeps(s, k, u);
      } else {
        ShutKeeps(s, k, MarkClosed(u));
        assert FrameArrived(s, id, data) == SetConn(Unmapped(s, id), k, MarkClosed(u)) by {
          assert s.conns[k := u][k := MarkClosed(u)] == s.conns[k := MarkClosed(u)];
        }
      }
    }
  }

  lemma EndAllKeeps(s: State)
    requires Inv(s)
    ensures Inv(AllEnded(s))
  {
    var t := AllEnded(s);
    forall i | 0 <= i < |t.conns| ensures ConnSound(t.conns[i]) && Matched(t, i) {
      assert ConnSound(s.conns[i]) && Matched(s, i);
      MarkClosedKeeps(s.conns[i]);
    }
  }

  /** The connections and the map are what the invariant speaks of. */
  lemma SameConnsKeep(s: State, t: State)
    requires Inv(s) && t.conns == s.conns && t.live == s.live
    ensures Inv(t)
  {
    forall i | 0 <= i < |t.conns| ensures ConnSound(t.conns[i]) && Matched(t, i) {
      assert ConnSound(s.conns[i]) && Matched(s, i);
    }
  }

  lemma ReceiveKeeps(s: State, k: nat)
    requires Inv(s) && k < |s.conns|
    ensures Inv(SetConn(s, k, FinishReceive(s.conns[k]).0))
    ensures !s.conns[k].suspended ==> Inv(SetConn(s, k, BeginReceive(s.conns[k]).0))
  {
    assert ConnSound(s.conns[k]);
    FinishKeeps(s.conns[k]);
    SetKeeps(s, k, FinishReceive(s.conns[k]).0);
    if !s.conns[k].suspended {
      BeginKeeps(s.conns[k]);
      SetKeeps(s, k, BeginReceive(s.conns[k]).0);
    }
  }

  lemma StepKeeps(s: State, op: Op)
    requires Inv(s)
    ensures Inv(Step(s, op).0)
  {
    match op
    case EndAll => EndAllKeeps(s);
    case OpenFrame(id) => OpenedKeeps(s, id);
    case CloseFrame(id) => RetiredKeeps(s, id);
    case DataFrame(id, data) => FrameKeeps(s, id, data);
    case Receive(k) =>
      if k < |s.conns| {
        ReceiveKeeps(s, k);
      }
    case ReceiveResumes(k) =>
      if k < |s.conns| {
        ReceiveKeeps(s, k);
      }
    case HostClose(k) =>
      if k < |s.conns| {
        CloseDeviceKeeps(s, k);
      }
    case _ => SameConnsKeep(s, Step(s, op).0);
  }

  lemma {:induction false} RunKeeps(s: State, ops: seq<Op>)
    requires Inv(s)
    ensures Inv(After(s, ops))
    decreases |ops|
  {
    if ops != [] {
      StepKeeps(s, ops[0]);
      RunKeeps(Step(s, ops[0]).0, ops[1..]);
    }
  }

  /**
   * In every run: a connection is in the map exactly when it is not closed, and what its reader has
   * received is a prefix, in order, of the frames that carried its id while it was connected; nothing
   * is missing while it is open but what still waits in its queue.
   */
  lemma EveryConnectionIsSound(ops: seq<Op>, k: nat)
    requires k < |After(Initial, ops).conns|
    ensures var s := After(Initial, ops);
            var c := s.conns[k];
            && (IsLive(s, k) <==> !c.closed)
            && c.received <= c.arrived
            && (!c.closed ==> c.received + Frames(c.inbound) == c.arrived)
            && |c.inbound| <= INBOUND_QUEUE_LIMIT
  {
    RunKeeps(Initial, ops);
    assert ConnSound(After(Initial, ops).conns[k]) && Matched(After(Initial, ops), k);
  }

  /** A connection after a step that is not a frame for it: perhaps marked closed, perhaps read from. */
  ghost predicate SameArrivals(c: Conn, t: Conn) {
    t.id == c.id && t.arrived == c.arrived
  }

  lemma DataArrives(s: State, id: Id, data: Bytes, k: nat)
    requires Inv(s) && k < |s.conns|
    ensures var t := FrameArrived(s, id, data);
            && |t.conns| == |s.conns| && t.conns[k].id == s.conns[k].id
            && t.conns[k].arrived == s.conns[k].arrived + (if id == s.conns[k].id && !s.conns[k].closed then [data] else [])
  {
    assert Matched(s, k);
  }

  lemma OthersArriveNothing(s: State, op: Op, k: nat)
    requires Inv(s) && k < |s.conns| && !op.DataFrame?
    ensures var t := Step(s, op).0; |s.conns| <= |t.conns| && SameArrivals(s.conns[k], t.conns[k])
  {
    assert ConnSound(s.conns[k]);
    FinishKeeps(s.conns[k]);
    if !s.conns[k].suspended {
      BeginKeeps(s.conns[k]);
    }
  }

  /** What `arrived` means: a data frame is added to the open connection that has its id, and to no other. */
  lemma ArrivedIsById(s: State, op: Op, k: nat)
    requires Inv(s) && k < |s.conns|
    ensures var t := Step(s, op).0;
            && |s.conns| <= |t.conns| && t.conns[k].id == s.conns[k].id
            && t.conns[k].arrived == s.conns[k].arrived
                                     + (if op.DataFrame? && s.reading && op.id == s.conns[k].id && !s.conns[k].closed
                                         then [op.data] else [])
  {
    if op.DataFrame? {
      DataArrives(s, op.id, op.data, k);
    } else {
      OthersArriveNothing(s, op, k);
    }
  }

  /** How many answers a closed connection still has before it reports its end. */
  function Backlog(c: Conn): nat {
    |c.inbound|
  }

  /**
   * A closed connection never blocks its reader: a receive that starts, or one that was waiting as it
   * closed, gets a queued frame or the end at once; each frame shortens the queue; after the end there
   * is nothing but the end.
   */
  lemma ClosedNeverBlocks(s: State, op: Op, k: nat)
    requires Inv(s) && k < |s.conns| && s.conns[k].closed
    requires (op == Receive(k) && !s.conns[k].suspended) || (op == ReceiveResumes(k) && s.conns[k].suspended)
    ensures var (t, r) := Step(s, op);
            && k < |t.conns| && t.conns[k].closed && !t.conns[k].suspended
            && (r.Frame? || r.End?)
            && (r.Frame? ==>
                  Backlog(t.conns[k]) < Backlog(s.conns[k]) && Frames(s.conns[k].inbound) == [r.data] + Frames(t.conns[k].inbound))
            && (r.End? ==> Backlog(t.conns[k]) == 0 && Frames(s.conns[k].inbound) == [])
  {
    var c := s.conns[k];
    assert ConnSound(c);
    if c.inbound != [] {
      FramesHead(c.inbound);
      if c.inbound[0].None? {
        assert c.inbound[1..] == [];
      }
    }
  }

  /** Once closed, a connection stays closed and nothing more is queued for it. */
  lemma ClosedStaysClosed(s: State, op: Op, k: nat)
    requires Inv(s) && k < |s.conns| && s.conns[k].closed
    ensures var t := Step(s, op).0;
            && k < |t.conns| && t.conns[k].closed
            && (t.conns[k].inbound == s.conns[k].inbound || (s.conns[k].inbound != [] && t.conns[k].inbound == s.conns[k].inbound[1..]))
  {
    assert Matched(s, k) && ConnSound(s.conns[k]);
    if op.OpenFrame? {
      RetiredKeeps(s, op.id);
    }
  }

  // -------------------------------------------------------------- isolation

  /**
   * The steps that can end a connection: control frames for its id, an overflow of its own queue, its
   * own close, the socket's end.
   */
  predicate MayEnd(s: State, op: Op, k: nat)
    requires k < |s.conns|
  {
    match op
    case EndAll => true
    case OpenFrame(id) => id == s.conns[k].id
    case CloseFrame(id) => id == s.conns[k].id
    case DataFrame(id, _) => id == s.conns[k].id && |s.conns[k].inbound| == INBOUND_QUEUE_LIMIT
    case HostClose(c) => c == k
    case _ => false
  }

  /** A connection is ended by nothing else; in particular by no step of a former connection under the same id. */
  lemma OnlyOwnStepsEnd(s: State, op: Op, k: nat)
    requires Inv(s) && IsLive(s, k) && !MayEnd(s, op, k)
    ensures IsLive(Step(s, op).0, k) && !Step(s, op).0.conns[k].closed
  {
    assert Matched(s, k) && ConnSound(s.conns[k]);
    StepKeeps(s, op);
    match op
    case OpenFrame(id) => RetiredKeeps(s, id);
    case HostClose(c) =>
      if c < |s.conns| {
        assert Matched(s, c);
      }
    case Receive(c) =>
      if c < |s.conns| && !s.conns[c].suspended {
        assert ConnSound(s.conns[c]);
        BeginKeeps(s.conns[c]);
      }
    case ReceiveResumes(c) =>
      if c < |s.conns| {
        assert ConnSound(s.conns[c]);
        FinishKeeps(s.conns[c]);
      }
    case _ =>
  }

  /** What goes out is stamped with the id of a connection that holds that id, open, on the socket it first saw. */
  lemma WireIsCurrent(s: State, op: Op)
    requires Inv(s)
    ensures var t := Step(s, op).0;
            || t.wire == s.wire
            || (exists p :: p in s.sends && MaySend(s, p) && t.wire == s.wire + [Wire(p.socket, s.conns[p.conn].id, p.conn, p.data)])
  {
    if op.SendResumes? && op.i < |s.sends| {
      assert s.sends[op.i] in s.sends;
    }
  }

  /** A connection that has been closed, or whose id has been opened again, never sends anything more. */
  lemma {:induction false} StaleNeverSends(s: State, ops: seq<Op>, k: nat)
    requires Inv(s) && k < |s.conns| && s.conns[k].closed
    ensures var t := After(s, ops);
            s.wire <= t.wire && forall i {:trigger t.wire[i]} :: |s.wire| <= i < |t.wire| ==> t.wire[i].conn != k
    decreases |ops|
  {
    if ops != [] {
      var m := Step(s, ops[0]).0;
      StepKeeps(s, ops[0]);
      ClosedStaysClosed(s, ops[0], k);
      WireIsCurrent(s, ops[0]);
      assert Matched(s, k);
      StaleNeverSends(m, ops[1..], k);
    }
  }

  /** Opening an id again makes every earlier connection under it stale. */
  lemma ReopenMakesStale(s: State, id: Id, k: nat)
    requires Inv(s) && s.reading && k < |s.conns| && s.conns[k].id == id
    ensures Step(s, OpenFrame(id)).0.conns[k].closed
  {
    RetiredKeeps(s, id);
    assert Matched(Retired(s, id), k);
  }
}
