/**
 * What a revocation settles for good: its identifier is out until a new pairing draws the same
 * random identifier, its pair of identifier and key is out in every continuation, and its key is
 * out exactly when no other record of that key is still active.
 */
module Revocation {
  import opened Common
  import opened Machine
  import opened Authorization

  function After(h: Hashing, s: State, ops: seq<Op>): State {
    Run(Stepper(h), s, ops).0
  }

  lemma EveryRunIsValid(h: Hashing, ops: seq<Op>)
    ensures Valid(After(h, Empty, ops)) && Counted(After(h, Empty, ops))
  {
    var inv := (s: State) => Valid(s) && Counted(s);
    forall s, op | inv(s)
      ensures inv(Stepper(h)(s, op).0)
    {
      NextIsValid(h, s, op);
      NextCounts(h, s, op);
    }
    RunInvariant(Stepper(h), inv, Empty, ops);
  }

  /** A revocation that returns a record has put it in the place of the one it found. */
  lemma RevokeShape(s: State, id: string, now: int, writes: bool)
    requires Valid(s) && Revoke(s, id, now, writes).1.Ok?
    ensures var (t, r) := Revoke(s, id, now, writes);
            var i := Index(s.devices, id);
            && (r.value.None? <==> i == |s.devices|)
            && (r.value.Some? ==>
                  && r.value.value.status.Revoked? && r.value.value.id == id && r.value.value.key == s.devices[i].key
                  && t.devices == s.devices[i := r.value.value])
            && (r.value.None? ==> t == s)
  {
  }

  // ---------------------------------------------------- the identifier stays out

  /** Every record under an identifier, if there is one, is revoked. */
  ghost predicate Retired(s: State, id: string) {
    forall i {:trigger s.devices[i]} :: 0 <= i < |s.devices| && s.devices[i].id == id ==> s.devices[i].status.Revoked?
  }

  /** A pairing that draws an identifier anew. */
  predicate Draws(op: Op, id: string) {
    op.OpConsume? && op.id == id
  }

  lemma RevokeRetires(s: State, id: string, now: int, writes: bool)
    requires Valid(s) && Revoke(s, id, now, writes).1.Ok?
    ensures Retired(Revoke(s, id, now, writes).0, id)
  {
    RevokeShape(s, id, now, writes);
  }

  lemma NextKeepsRetired(h: Hashing, s: State, op: Op, id: string)
    requires Retired(s, id) && !Draws(op, id)
    ensures Retired(Next(h, s, op).0, id)
  {
    NextEvolves(h, s, op);
  }

  lemma {:induction false} RunKeepsRetired(h: Hashing, s: State, ops: seq<Op>, id: string)
    requires Retired(s, id) && forall k :: 0 <= k < |ops| ==> !Draws(ops[k], id)
    ensures Retired(After(h, s, ops), id)
    decreases |ops|
  {
    if ops != [] {
      NextKeepsRetired(h, s, ops[0], id);
      assert forall k :: 0 <= k < |ops[1..]| ==> ops[1..][k] == ops[k + 1];
      RunKeepsRetired(h, Next(h, s, ops[0]).0, ops[1..], id);
    }
  }

  /** Over all runs: a revoked identifier is not authorized again, for any key, before a pairing draws it anew. */
  lemma RevokedIdStaysOut(h: Hashing, before: seq<Op>, id: string, now: int, writes: bool, after: seq<Op>, key: string)
    requires Revoke(After(h, Empty, before), id, now, writes).1.Ok?
    requires forall k :: 0 <= k < |after| ==> !Draws(after[k], id)
    ensures !IsAuthorized(After(h, Revoke(After(h, Empty, before), id, now, writes).0, after), id, key)
  {
    var s := After(h, Empty, before);
    EveryRunIsValid(h, before);
    RevokeRetires(s, id, now, writes);
    RunKeepsRetired(h, Revoke(s, id, now, writes).0, after, id);
  }

  // ---------------------------------------------------------- the pair stays out

  /** The key is known to be revoked, and so is every record under the identifier with that key. */
  ghost predicate Barred(h: Hashing, s: State, id: string, key: string) {
    && KeyRevoked(h, s, key)
    && forall i {:trigger s.devices[i]} :: 0 <= i < |s.devices| && s.devices[i].id == id && s.devices[i].key == key ==>
         s.devices[i].status.Revoked?
  }

  lemma RevokeBars(h: Hashing, s: State, id: string, now: int, writes: bool)
    requires Valid(s)
    requires var (t, r) := Revoke(s, id, now, writes); r.Ok? && r.value.Some?
    ensures var (t, r) := Revoke(s, id, now, writes); Barred(h, t, id, r.value.value.key)
  {
    RevokeShape(s, id, now, writes);
    RevokeRetires(s, id, now, writes);
    RevokeIsNoted(h, s, id, now, writes);
  }

  lemma NextKeepsBarred(h: Hashing, s: State, op: Op, id: string, key: string)
    requires Barred(h, s, id, key)
    ensures Barred(h, Next(h, s, op).0, id, key)
  {
    NextEvolves(h, s, op);
    NextRemembers(h, s, op);
  }

  lemma {:induction false} RunKeepsBarred(h: Hashing, s: State, ops: seq<Op>, id: string, key: string)
    requires Barred(h, s, id, key)
    ensures Barred(h, After(h, s, ops), id, key)
    decreases |ops|
  {
    if ops != [] {
      NextKeepsBarred(h, s, ops[0], id, key);
      RunKeepsBarred(h, Next(h, s, ops[0]).0, ops[1..], id, key);
    }
  }

  /** Over all runs, whatever identifiers are drawn: the revoked identifier is never authorized with the revoked key. */
  lemma RevokedPairStaysOut(h: Hashing, before: seq<Op>, id: string, now: int, writes: bool, after: seq<Op>)
    requires var r := Revoke(After(h, Empty, before), id, now, writes).1; r.Ok? && r.value.Some?
    ensures var (t, r) := Revoke(After(h, Empty, before), id, now, writes);
            !IsAuthorized(After(h, t, after), id, r.value.value.key)
  {
    var s := After(h, Empty, before);
    var (t, r) := Revoke(s, id, now, writes);
    EveryRunIsValid(h, before);
    RevokeBars(h, s, id, now, writes);
    RunKeepsBarred(h, t, after, id, r.value.value.key);
  }

  // ------------------------------------------------- other records of the same key

  /** Operations whose clock never reads earlier than before. */
  predicate Steady(clock: int, ops: seq<Op>)
    decreases |ops|
  {
    ops == [] ||
    (&& (ops[0].OpCancel? || clock <= ops[0].now)
     && Steady(if ops[0].OpCancel? then clock else ops[0].now, ops[1..]))
  }

  /** A record that is authorized, or pending and in time to be approved. */
  predicate Live(d: Device, clock: int) {
    d.status.Authorized? || (d.status.Pending? && clock - d.created < MAX_TTL)
  }

  /** A revoked key of which no record is live. */
  ghost predicate Dormant(h: Hashing, s: State, key: string, clock: int) {
    && KeyRevoked(h, s, key)
    && forall i {:trigger s.devices[i]} :: 0 <= i < |s.devices| && s.devices[i].key == key ==> !Live(s.devices[i], clock)
  }

  lemma DormantIsOut(h: Hashing, s: State, key: string, clock: int, other: string)
    requires Dormant(h, s, key, clock)
    ensures !IsAuthorized(s, other, key)
  {
  }

  lemma NextKeepsDormant(h: Hashing, s: State, op: Op, key: string, clock: int)
    requires Valid(s) && Dormant(h, s, key, clock) && (op.OpCancel? || clock <= op.now)
    ensures Dormant(h, Next(h, s, op).0, key, if op.OpCancel? then clock else op.now)
  {
    var t := Next(h, s, op).0;
    NextEvolves(h, s, op);
    NextRemembers(h, s, op);
    forall j | 0 <= j < |t.devices| && t.devices[j].key == key
      ensures !Live(t.devices[j], if op.OpCancel? then clock else op.now)
    {
      assert Moved(s.devices, t.devices[j], EndOf(op)) || Joins(h, s, t, j, op);
      var i :| 0 <= i < |s.devices| && Move(s.devices[i], t.devices[j], EndOf(op));
      if t.devices[j].status.Authorized? {
        AuthorizedWasLive(h, s, op, i, j, clock);
      }
    }
  }

  /** What is authorized after an operation was live before it. */
  lemma AuthorizedWasLive(h: Hashing, s: State, op: Op, i: nat, j: nat, clock: int)
    requires UniqueIds(s.devices) && (op.OpCancel? || clock <= op.now)
    requires var t := Next(h, s, op).0;
             i < |s.devices| && j < |t.devices| && Move(s.devices[i], t.devices[j], EndOf(op)) && t.devices[j].status.Authorized?
    ensures Live(s.devices[i], clock)
  {
    BecomesAuthorized(h, s, op, j);
    var d := Next(h, s, op).0.devices[j];
    if d in s.devices {
      var k :| 0 <= k < |s.devices| && s.devices[k] == d;
      assert k == i;
    } else {
      assert Index(s.devices, op.id) == i;
    }
  }

  lemma {:induction false} RunKeepsDormant(h: Hashing, s: State, ops: seq<Op>, key: string, clock: int, other: string)
    requires Valid(s) && Dormant(h, s, key, clock) && Steady(clock, ops)
    ensures !IsAuthorized(After(h, s, ops), other, key)
    decreases |ops|
  {
    if ops == [] {
      DormantIsOut(h, s, key, clock, other);
    } else {
      NextKeepsDormant(h, s, ops[0], key, clock);
      NextIsValid(h, s, ops[0]);
      RunKeepsDormant(h, Next(h, s, ops[0]).0, ops[1..], key, if ops[0].OpCancel? then clock else ops[0].now, other);
    }
  }

  /** The key is authorized under no identifier, in any continuation whose clock does not go back. */
  ghost predicate Ended(h: Hashing, s: State, key: string, clock: int) {
    forall ops, other {:trigger IsAuthorized(After(h, s, ops), other, key)} ::
      Steady(clock, ops) ==> !IsAuthorized(After(h, s, ops), other, key)
  }

  /** A live record can be authorized, if it is not already. */
  lemma LiveIsApproved(h: Hashing, s: State, i: nat, clock: int)
    requires Valid(s) && Counted(s) && InRange(clock) && i < |s.devices| && Live(s.devices[i], clock)
    ensures !Ended(h, s, s.devices[i].key, clock)
  {
    var d := s.devices[i];
    assert ValidDevice(d);
    assert Index(s.devices, d.id) == i;
    if d.status.Authorized? {
      assert After(h, s, []) == s && Steady(clock, []);
      assert IsAuthorized(After(h, s, []), d.id, d.key);
    } else {
      var now := Max(clock, d.created);
      var op := OpApprove(d.id, Digest(d.binding), now, now, true);
      ApprovalWorks(h, s, i, now);
      RunOne(Stepper(h), s, op);
      assert [op][1..] == [];
      assert Steady(clock, [op]);
      assert IsAuthorized(After(h, s, [op]), d.id, d.key);
    }
  }

  lemma ApprovalWorks(h: Hashing, s: State, i: nat, now: int)
    requires Valid(s) && Counted(s) && InRange(now) && i < |s.devices|
    requires s.devices[i].status.Pending? && s.devices[i].created <= now < s.devices[i].created + MAX_TTL
    ensures IsAuthorized(Approve(h, s, s.devices[i].id, Digest(s.devices[i].binding), now, now, true).0, s.devices[i].id, s.devices[i].key)
  {
    var d := s.devices[i];
    var t := Aged(s, now, MAX_TTL);
    AgedIsValid(s, now);
    assert t.devices[i] == d;
    assert Index(t.devices, d.id) == i;
    var e := ApprovedRecord(d, now);
    SetIsValid(t, i, e);
    var u := SetDevice(t, i, e);
    assert u.devices[i] == e && Index(u.devices, d.id) == i;
  }

  /** Expiry keeps a state valid at any reading: a record that times out is older than the reading. */
  lemma AgedIsValid(s: State, now: int)
    requires Valid(s) && Counted(s) && InRange(now)
    ensures Valid(Aged(s, now, MAX_TTL))
  {
    ActiveExpired(s.devices, now, MAX_TTL);
    var t := Aged(s, now, MAX_TTL);
    forall i | 0 <= i < |t.devices|
      ensures ValidDevice(t.devices[i]) && t.devices[i].id == s.devices[i].id
    {
      assert ValidDevice(s.devices[i]) && CountedDevice(s.devices[i]);
    }
  }

  /**
   * Over all runs: revoking a record ends its key, in every continuation whose clock does not go
   * back, if and only if no other record of that key is authorized or pending and in time.
   */
  lemma RevokeEndsKeyIff(h: Hashing, before: seq<Op>, id: string, now: int, writes: bool)
    requires InRange(now)
    requires var r := Revoke(After(h, Empty, before), id, now, writes).1; r.Ok? && r.value.Some?
    ensures var s := After(h, Empty, before);
            var (t, r) := Revoke(s, id, now, writes);
            Ended(h, t, r.value.value.key, now) <==>
              forall i :: 0 <= i < |s.devices| && s.devices[i].id != id && s.devices[i].key == r.value.value.key ==>
                !Live(s.devices[i], now)
  {
    var s := After(h, Empty, before);
    var (t, r) := Revoke(s, id, now, writes);
    var key := r.value.value.key;
    EveryRunIsValid(h, before);
    RevokeShape(s, id, now, writes);
    RevokeIsNoted(h, s, id, now, writes);
    NextIsValid(h, s, OpRevoke(id, now, writes));
    NextCounts(h, s, OpRevoke(id, now, writes));
    if i :| 0 <= i < |s.devices| && s.devices[i].id != id && s.devices[i].key == key && Live(s.devices[i], now) {
      assert t.devices[i] == s.devices[i];
      LiveIsApproved(h, t, i, now);
    } else {
      forall i | 0 <= i < |t.devices| && t.devices[i].key == key
        ensures !Live(t.devices[i], now)
      {
        assert s.devices[i].id != id ==> t.devices[i] == s.devices[i];
      }
      forall ops, other | Steady(now, ops)
        ensures !IsAuthorized(After(h, t, ops), other, key)
      {
        RunKeepsDormant(h, t, ops, key, now, other);
      }
    }
  }

  // ------------------------------------------------------------- concrete runs

  /** A pairing of one key under one identifier: an offer is made and consumed. */
  function Pairing(offer: string, id: string, binding: string): seq<Op> {
    [OpCreate(1, offer, "capability", 5, true), OpConsume("capability", "key", binding, true, id, 5, true)]
  }

  function PairedOnce(h: Hashing, a: Device): State {
    State(1, [a], [], Some(Offer("first", h.sha("capability"), 5, 6, Consumed, 5)))
  }

  function PairedTwice(h: Hashing, a: Device, b: Device): State {
    State(1, [a, b], [], Some(Offer("second", h.sha("capability"), 5, 6, Consumed, 5)))
  }

  lemma RunTwo(h: Hashing, s: State, a: Op, b: Op)
    ensures After(h, s, [a, b]) == Next(h, Next(h, s, a).0, b).0
  {
    RunOne(Stepper(h), s, a);
    RunOne(Stepper(h), Next(h, s, a).0, b);
    RunAppend(Stepper(h), s, [a], [b]);
    assert [a] + [b] == [a, b];
  }

  lemma FirstPairing(h: Hashing)
    ensures After(h, Empty, Pairing("first", "a", "x")) == PairedOnce(h, NewDevice(h, "a", "key", "x", 5))
  {
    var p := Pairing("first", "a", "x");
    RunTwo(h, Empty, p[0], p[1]);
    var d := NewDevice(h, "a", "key", "x", 5);
    assert Next(h, Empty, p[0]).0 == State(1, [], [], Some(Offer("first", h.sha("capability"), 5, 6, Active, 0)));
    assert [d][1..] == [] && [] + [d] == [d];
  }

  lemma SecondPairing(h: Hashing, a: Device)
    requires ValidDevice(a) && a.id == "a" && !a.status.Revoked? && a.created == 5
    ensures After(h, PairedOnce(h, a), Pairing("second", "b", "y")) == PairedTwice(h, a, NewDevice(h, "b", "key", "y", 5))
  {
    var p := Pairing("second", "b", "y");
    var s := PairedOnce(h, a);
    var b := NewDevice(h, "b", "key", "y", 5);
    RunTwo(h, s, p[0], p[1]);
    assert "first"[0] != "second"[0] && "a"[0] != "b"[0];
    assert Aged(s, 5, MAX_TTL).devices == s.devices;
    assert [a][1..] == [] && [a, b][1..] == [b] && [b][1..] == [];
    assert Index([a], "b") == 1 && ActiveCount([a, b]) <= 2 && ActiveCount([a]) <= 1;
    assert Next(h, s, p[0]).0 == s.(offer := Some(Offer("second", h.sha("capability"), 5, 6, Active, 0)));
    assert s.devices + [b] == [a, b];
  }

  /** The two pairings of one key, and nothing else. */
  function Twins(): seq<Op> {
    Pairing("first", "a", "x") + Pairing("second", "b", "y")
  }

  lemma TwoRecords(a: Device, b: Device, id: string)
    ensures ActiveCount([a, b]) == (if IsActive(a) then 1 else 0) + (if IsActive(b) then 1 else 0)
    ensures Index([a, b], id) == if a.id == id then 0 else if b.id == id then 1 else 2
  {
    assert [a, b][1..] == [b] && [b][1..] == [];
    assert ActiveCount([b]) == if IsActive(b) then 1 else 0;
  }

  lemma RunThen(h: Hashing, before: seq<Op>, p: Op, q: Op, s: State, t: State, u: State)
    requires After(h, Empty, before) == s && Next(h, s, p).0 == t && Next(h, t, q).0 == u
    ensures After(h, Empty, before + [p, q]) == u
  {
    RunAppend(Stepper(h), Empty, before, [p, q]);
    RunTwo(h, s, p, q);
  }

  lemma TwinsPaired(h: Hashing)
    ensures After(h, Empty, Twins()) == PairedTwice(h, NewDevice(h, "a", "key", "x", 5), NewDevice(h, "b", "key", "y", 5))
  {
    FirstPairing(h);
    SecondPairing(h, NewDevice(h, "a", "key", "x", 5));
    RunAppend(Stepper(h), Empty, Pairing("first", "a", "x"), Pairing("second", "b", "y"));
  }

  lemma RevocationOfTwin(h: Hashing, a: Device, b: Device)
    requires a == NewDevice(h, "a", "key", "x", 5) && b == NewDevice(h, "b", "key", "y", 5)
    ensures Revoke(PairedTwice(h, a, b), "a", 5, true) == (PairedTwice(h, RevokedRecord(a, 5), b), Ok(Some(RevokedRecord(a, 5))))
  {
    var c := RevokedRecord(a, 5);
    assert "a"[0] != "b"[0];
    TwoRecords(a, b, "a");
    TwoRecords(c, b, "a");
    assert [a, b][0 := c] == [c, b];
    assert Valid(PairedTwice(h, c, b));
  }

  lemma TwinSteps(h: Hashing, a: Device, b: Device, t: State)
    requires a == NewDevice(h, "a", "key", "x", 5) && b == NewDevice(h, "b", "key", "y", 5)
    requires t == PairedTwice(h, RevokedRecord(a, 5), b)
    ensures Next(h, PairedTwice(h, a, b), OpRevoke("a", 5, true)).0 == t
    ensures var u := Next(h, t, OpApprove("b", Digest(h.sha("y")), 5, 5, true)).0;
            KeyRevoked(h, u, "key") && IsAuthorized(u, "b", "key")
  {
    RevocationOfTwin(h, a, b);
    ApprovalOfTwin(h, t, RevokedRecord(a, 5), b);
  }

  lemma TwinIsApproved(h: Hashing, before: seq<Op>)
    requires After(h, Empty, before) == PairedTwice(h, NewDevice(h, "a", "key", "x", 5), NewDevice(h, "b", "key", "y", 5))
    ensures var s := After(h, Empty, before + [OpRevoke("a", 5, true), OpApprove("b", Digest(h.sha("y")), 5, 5, true)]);
            KeyRevoked(h, s, "key") && IsAuthorized(s, "b", "key")
  {
    var a, b := NewDevice(h, "a", "key", "x", 5), NewDevice(h, "b", "key", "y", 5);
    var p, q := OpRevoke("a", 5, true), OpApprove("b", Digest(h.sha("y")), 5, 5, true);
    var t := PairedTwice(h, RevokedRecord(a, 5), b);
    TwinSteps(h, a, b, t);
    RunThen(h, before, p, q, PairedTwice(h, a, b), t, Next(h, t, q).0);
  }

  /**
   * A run from the empty state in which a key that was revoked is authorized: it was paired twice
   * before, and its second record, still pending at the revocation, is approved after it.
   */
  lemma RevokedKeyIsApproved(h: Hashing)
    ensures var s := After(h, Empty, Twins() + [OpRevoke("a", 5, true), OpApprove("b", Digest(h.sha("y")), 5, 5, true)]);
            KeyRevoked(h, s, "key") && IsAuthorized(s, "b", "key")
  {
    TwinsPaired(h);
    TwinIsApproved(h, Twins());
  }

  lemma ApprovalOfTwin(h: Hashing, t: State, c: Device, b: Device)
    requires c == RevokedRecord(NewDevice(h, "a", "key", "x", 5), 5) && b == NewDevice(h, "b", "key", "y", 5)
    requires t == PairedTwice(h, c, b)
    ensures var u := Approve(h, t, "b", Digest(h.sha("y")), 5, 5, true).0;
            KeyRevoked(h, u, "key") && IsAuthorized(u, "b", "key")
  {
    var e := ApprovedRecord(b, 5);
    var u := PairedTwice(h, c, e);
    assert "a"[0] != "b"[0];
    TwoRecords(c, b, "b");
    TwoRecords(c, e, "b");
    assert Aged(t, 5, MAX_TTL).devices == t.devices;
    assert t.devices[1 := e] == [c, e];
    assert Valid(u);
    assert Approve(h, t, "b", Digest(h.sha("y")), 5, 5, true).0 == u;
    assert u.devices[0].status.Revoked?;
  }

  /** A run from the empty state in which a revocation is refused: the clock has gone back by one second. */
  lemma RevokeIsRefused(h: Hashing)
    ensures Run(Stepper(h), Empty, Pairing("first", "a", "x") + [OpRevoke("a", 4, true)]).1 == [None, None, Some(Refused)]
  {
    var p, q := Pairing("first", "a", "x"), OpRevoke("a", 4, true);
    var a := NewDevice(h, "a", "key", "x", 5);
    var s := State(1, [], [], Some(Offer("first", h.sha("capability"), 5, 6, Active, 0)));
    var t := PairedOnce(h, a);
    assert [a][1..] == [] && [] + [a] == [a];
    assert Next(h, Empty, p[0]) == (s, None);
    assert Next(h, s, p[1]) == (t, None);
    EveryRunIsValid(h, p);
    FirstPairing(h);
    RevokeRefusedIff(t, "a", 4, true);
    assert Next(h, t, q) == (t, Some(Refused));
    RunOfStates(Stepper(h), p + [q], [Empty, s, t, t], [None, None, Some(Refused)]);
  }
}
