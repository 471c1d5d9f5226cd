/** The host socket's connections as objects, each method tied to the step of RelayClient or Pacing that it performs. */
module RelayObjects {
  import opened Common
  import opened Steps = RelayClient
  import Pacing

  /** The inbound frames of one device id between the control frames that open and close it. */
  class HostedDeviceConnection {
    const id: Id
    var inbound: seq<Option<Bytes>>
    var closed: bool
    var suspended: bool
    ghost var arrived: seq<Bytes>
    ghost var received: seq<Bytes>
    ghost const index: nat  // its position among all the connections ever made

    ghost function View(): Conn
      reads this
    {
      Conn(id, inbound, closed, suspended, arrived, received)
    }

    constructor (id: Id, ghost index: nat)
      ensures View() == NewConn(id) && this.index == index && this.id == id
    {
      this.id, this.index := id, index;
      inbound, closed, suspended := [], false, false;
      arrived, received := [], [];
    }

    method Feed(data: Bytes) returns (ok: bool)
      modifies this`inbound
      ensures (View(), ok) == Steps.Feed(old(View()), data)
    {
      if closed {
        return true;
      }
      ok := |inbound| < INBOUND_QUEUE_LIMIT;
      if ok {
        inbound := inbound + [Some(data)];
      }
    }

    method MarkClosed()
      modifies this`closed, this`inbound
      ensures View() == Steps.MarkClosed(old(View()))
    {
      if !closed {
        closed := true;
        if |inbound| < INBOUND_QUEUE_LIMIT {
          inbound := inbound + [None];
        }
      }
    }

    /** A receive up to its answer, or up to the point where it waits. */
    method Receive() returns (r: Received)
      modifies this
      ensures (View(), r) == BeginReceive(old(View()))
    {
      if closed && inbound == [] {
        return End;
      }
      suspended := true;
      r := Resume();
    }

    method Resume() returns (r: Received)
      modifies this
      ensures (View(), r) == FinishReceive(old(View()))
    {
      if !suspended || inbound == [] {
        return Wait;
      }
      suspended := false;
      var data := inbound[0];
      inbound := inbound[1..];
      match data
      case Some(frame) =>
        received := received + [frame];
        r := Frame(frame);
      case None =>
        closed := true;
        r := End;
    }
  }

  ghost function Views(objects: seq<HostedDeviceConnection>): (vs: seq<Conn>)
    reads objects
    ensures |vs| == |objects|
    ensures forall i {:trigger vs[i]} :: 0 <= i < |objects| ==> vs[i] == objects[i].View()
  {
    seq(|objects|, i requires 0 <= i < |objects| reads objects => objects[i].View())
  }

  /** When only one object differs from earlier views, only its view changed. */
  lemma ViewsSet(objects: seq<HostedDeviceConnection>, before: seq<Conn>, i: nat)
    requires i < |objects| == |before|
    requires forall j {:trigger before[j]} :: 0 <= j < |objects| && j != i ==> before[j] == objects[j].View()
    ensures Views(objects) == before[i := objects[i].View()]
  {
  }

  lemma ViewsSnoc(objects: seq<HostedDeviceConnection>, last: HostedDeviceConnection, before: seq<Conn>)
    requires |before| == |objects| && forall j {:trigger before[j]} :: 0 <= j < |objects| ==> before[j] == objects[j].View()
    ensures Views(objects + [last]) == before + [last.View()]
  {
    assert (objects + [last])[..|objects|] == objects;
  }

  /** A send past its first check, waiting for its turn. */
  datatype Waiting = Waiting(conn: HostedDeviceConnection, socket: nat, data: Bytes)

  /** The map from device ids to connections, and the moment the next binary send may start. */
  class CloudflareRelayConnector {
    var connections: map<Id, HostedDeviceConnection>
    var accepted: seq<HostedDeviceConnection>
    var socket: Option<nat>
    var reading: bool
    var outboundNext: real
    ghost var registry: seq<HostedDeviceConnection>
    ghost var sockets: nat
    ghost var sends: seq<Pending>
    ghost var wire: seq<Wire>
    ghost var clock: real
    ghost var log: seq<Pacing.Sent>

    ghost predicate Known(c: HostedDeviceConnection)
      reads this
    {
      c.index < |registry| && registry[c.index] == c
    }

    ghost predicate Valid()
      reads this
    {
      && (forall i {:trigger registry[i]} :: 0 <= i < |registry| ==> registry[i].index == i)
      && (forall id {:trigger connections[id]} :: id in connections ==> Known(connections[id]) && connections[id].id == id)
      && (forall i {:trigger accepted[i]} :: 0 <= i < |accepted| ==> Known(accepted[i]))
    }

    ghost function Live(): map<Id, nat>
      reads this
    {
      map id | id in connections :: connections[id].index
    }

    ghost function Waiters(): seq<nat>
      reads this
    {
      seq(|accepted|, i requires 0 <= i < |accepted| reads this => accepted[i].index)
    }

    ghost function Value(): State
      reads this, registry
    {
      State(Views(registry), Live(), Waiters(), socket, sockets, reading, sends, wire)
    }

    /** Whether the map still holds this very object under its id. */
    predicate Holds(c: HostedDeviceConnection)
      reads this
    {
      c.id in connections && connections[c.id] == c
    }

    lemma HoldsIsLive(c: HostedDeviceConnection)
      requires Valid() && Known(c)
      ensures Holds(c) <==> IsLive(Value(), c.index)
    {
      assert Views(registry)[c.index].id == c.id;
    }

    /** Take the connection of an id out of the map and mark it closed. */
    method Retire(id: Id)
      requires Valid()
      modifies this`connections, registry
      ensures Valid() && Value() == Retired(old(Value()), id)
    {
      if id in connections {
        var c := connections[id];
        ghost var before := Views(registry);
        connections := connections - {id};
        c.MarkClosed();
        ViewsSet(registry, before, c.index);
        assert Live() == old(Live()) - {id};
      }
    }

    method Accept(id: Id)
      requires Valid()
      modifies this`connections, this`accepted, this`registry
      ensures Valid() && Value() == Taken(old(Value()), id)
    {
      ghost var before := Views(registry);
      var c := new HostedDeviceConnection(id, |registry|);
      connections, accepted := connections[id := c], accepted + [c];
      ViewsSnoc(registry, c, before);
      registry := registry + [c];
      assert Live() == old(Live())[id := |before|];
      assert Waiters() == old(Waiters()) + [|before|];
    }

    method Refuse(id: Id)
      requires Valid()
      modifies this`connections, this`reading, this`registry
      ensures Valid() && Value() == Refused(old(Value()), id)
    {
      ghost var before := Views(registry);
      var c := new HostedDeviceConnection(id, |registry|);
      connections := connections - {id};
      c.MarkClosed();
      reading := false;
      ViewsSnoc(registry, c, before);
      registry := registry + [c];
      assert Live() == old(Live()) - {id};
    }

    /** A control frame that opens a connection; false means that the read loop fails with it. */
    method HandleOpen(id: Id) returns (ok: bool)
      requires Valid()
      modifies this, registry
      ensures Valid() && Value() == Opened(old(Value()), id) && ok == (|old(accepted)| < ACCEPT_QUEUE_LIMIT)
    {
      Retire(id);
      ok := |accepted| < ACCEPT_QUEUE_LIMIT;
      if ok {
        Accept(id);
      } else {
        Refuse(id);
      }
    }

    method CloseDevice(c: HostedDeviceConnection)
      requires Valid() && Known(c)
      modifies this`connections, c
      ensures Valid() && Value() == Steps.CloseDevice(old(Value()), c.index)
    {
      HoldsIsLive(c);
      ghost var before := Views(registry);
      c.MarkClosed();
      ViewsSet(registry, before, c.index);
      if Holds(c) {
        connections := connections - {c.id};
        assert Live() == old(Live()) - {c.id};
      }
    }

    method HandleData(id: Id, data: Bytes)
      requires Valid()
      modifies this`connections, registry
      ensures Valid() && Value() == FrameArrived(old(Value()), id, data)
    {
      if id in connections {
        var c := connections[id];
        ghost var before := Views(registry);
        var ok := c.Feed(data);
        c.arrived := c.arrived + [data];
        ViewsSet(registry, before, c.index);
        if !ok {
          CloseDevice(c);
        }
      }
    }

    ghost predicate AllKnown(group: map<Id, HostedDeviceConnection>)
      reads this
    {
      forall id {:trigger group[id]} :: id in group ==> Known(group[id]) && group[id].id == id
    }

    /** Whether an object belongs to a group and its id is not among those left. */
    predicate Member(c: HostedDeviceConnection, group: map<Id, HostedDeviceConnection>, left: set<Id>) {
      c.id in group && c.id !in left && group[c.id] == c
    }

    method MarkEach(group: map<Id, HostedDeviceConnection>)
      requires Valid() && AllKnown(group)
      modifies registry
      ensures Valid()
      ensures forall i {:trigger registry[i]} :: 0 <= i < |registry| ==>
                registry[i].View() == if Member(registry[i], group, {})
                    then Steps.MarkClosed(old(Views(registry))[i]) else old(Views(registry))[i]
    {
      var ids := group.Keys;
      ghost var before := Views(registry);
      while ids != {}
        invariant ids <= group.Keys && Valid()
        invariant forall i {:trigger before[i]} {:trigger registry[i]} :: 0 <= i < |registry| ==>
                    registry[i].View() == if Member(registry[i], group, ids) then Steps.MarkClosed(before[i]) else before[i]
      {
        var id :| id in ids;
        assert before[group[id].index] == group[id].View();
        ids := ids - {id};
        group[id].MarkClosed();
      }
    }

    /** Mark every connection of the map closed and empty the map. */
    method EndAllConnections()
      requires Valid()
      modifies this`connections, registry
      ensures Valid() && Value() == AllEnded(old(Value()))
    {
      var ending := connections;
      ghost var s := Value();
      connections := map[];
      MarkEach(ending);
      forall i | 0 <= i < |registry|
        ensures Views(registry)[i] == MarkAll(s, |s.conns|)[i]
      {
        assert s.conns[i].id == registry[i].id;
        assert IsLive(s, i) <==> Member(registry[i], ending, {});
      }
      assert Views(registry) == MarkAll(s, |s.conns|);
      assert Live() == map[];
    }

    ghost function Paced(): Pacing.State
      reads this
    {
      Pacing.State(outboundNext, clock, log)
    }

    /**
     * The rest of a send once it has the outbound lock: readings of the clock before the wait, after it and
     * after the send; `fails` when the socket does.
     */
    method Publish(w: Waiting, before: real, woke: real, done: real, fails: bool) returns (sent: bool)
      requires Valid() && Known(w.conn)
      modifies this`outboundNext, this`wire, this`clock, this`log
      ensures sent == (MaySend(old(Value()), Pending(w.conn.index, w.socket, w.data)) && !fails)
      ensures wire == old(wire) + (if sent then [Wire(w.socket, w.conn.id, w.conn.index, w.data)] else [])
      ensures Paced() == Pacing.Step(old(Paced()), Pacing.Attempt(Pacing.CONNECTION_ID_BYTES + |w.data|, before, woke, done, sent))
    {
      HoldsIsLive(w.conn);
      assert Views(registry)[w.conn.index].closed == w.conn.closed;
      sent := socket == Some(w.socket) && !w.conn.closed && Holds(w.conn) && !fails;
      if sent {
        var size := Pacing.CONNECTION_ID_BYTES + |w.data|;
        wire := wire + [Wire(w.socket, w.conn.id, w.conn.index, w.data)];
        log := log + [Pacing.Sent(done, size)];
        outboundNext := done + Pacing.Gap(size);
      }
      clock := done;
    }
  }
}
