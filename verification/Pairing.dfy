/**
 * What a pairing takes: over every run, exactly which consumptions of an offer succeed, and that
 * each had the capability of the offer that was open; exactly when an offer is made, a device is
 * approved, and which record gives way when the list is full.
 */
module Pairing {
  import opened Common
  import opened Machine
  import opened Authorization

  // ---------------------------------------------------------------- the ledger

  /** An offer as it was asked for, with its capability in clear. */
  datatype Minted = Minted(id: string, capability: string, created: int, ttl: int)

  /** A consumption that succeeded, the offer open at that moment, and the records that it brought. */
  datatype Use = Use(offer: Option<Minted>, op: Op, records: seq<Device>)

  /** A state with the offer that is open by the operations so far, and all successful consumptions. */
  datatype Ledger = Ledger(state: State, open: Option<Minted>, uses: seq<Use>)

  predicate Over(m: Minted, now: int) {
    now >= m.created + m.ttl
  }

  /** An operation closes the open offer: it consumes it, cancels it, or finds it over and writes that down. */
  predicate Closes(m: Minted, op: Op, fault: Option<Fault>) {
    || (op.OpConsume? && (fault.None? || (Over(m, op.now) && InRange(op.now) && op.writes)))
    || (op.OpCancel? && fault.None? && op.id == m.id)
  }

  function LedgerNext(h: Hashing, b: Ledger, op: Op): (Ledger, Option<Fault>) {
    var (t, fault) := Next(h, b.state, op);
    var open := if op.OpCreate? && fault.None? then Some(Minted(op.id, op.capability, op.now, op.ttl))
                else if b.open.Some? && Closes(b.open.value, op, fault) then None else b.open;
    var uses := if op.OpConsume? && fault.None?
                then b.uses + [Use(b.open, op, NewRecords(b.state.devices, t.devices, op.now))] else b.uses;
    (Ledger(t, open, uses), fault)
  }

  function Keeper(h: Hashing): (Ledger, Op) -> (Ledger, Option<Fault>) {
    (b, op) => LedgerNext(h, b, op)
  }

  const OpenLedger := Ledger(Empty, None, [])

  /** Keeping the ledger changes nothing. */
  lemma {:induction false} KeptRun(h: Hashing, b: Ledger, ops: seq<Op>)
    ensures Run(Keeper(h), b, ops).0.state == Run(Stepper(h), b.state, ops).0
    decreases |ops|
  {
    if ops != [] {
      KeptRun(h, LedgerNext(h, b, ops[0]).0, ops[1..]);
    }
  }

  /** The capability, the identity and the time are those of the offer. */
  predicate Matches(h: Hashing, m: Minted, op: Op) {
    op.OpConsume? && h.sha(op.capability) == h.sha(m.capability) && op.identityOk && !Over(m, op.now)
  }

  predicate Proper(h: Hashing, u: Use) {
    u.offer.Some? && Matches(h, u.offer.value, u.op) && u.records == [NewDevice(h, u.op.id, u.op.key, u.op.binding, u.op.now)]
  }

  /** The state's active offer is the open one. */
  ghost predicate Mirrors(h: Hashing, s: State, open: Option<Minted>) {
    && (s.offer.Some? && s.offer.value.status.Active? <==> open.Some?)
    && (open.Some? ==>
          var m := open.value;
          s.offer == Some(Offer(m.id, h.sha(m.capability), m.created, m.created + m.ttl, Active, 0)) && 1 <= m.ttl <= MAX_TTL)
  }

  ghost predicate Inv(h: Hashing, b: Ledger) {
    Valid(b.state) && Counted(b.state) && Mirrors(h, b.state, b.open)
    && forall i {:trigger b.uses[i]} :: 0 <= i < |b.uses| ==> Proper(h, b.uses[i])
  }

  // -------------------------------------------------------------- single steps

  lemma CreateMirrors(h: Hashing, s: State, op: Op)
    requires op.OpCreate?
    ensures var (t, fault) := Next(h, s, op);
            if fault.None? then Mirrors(h, t, Some(Minted(op.id, op.capability, op.now, op.ttl))) else t == s
  {
  }

  lemma ConsumeMirrors(h: Hashing, s: State, open: Option<Minted>, op: Op)
    requires Valid(s) && Mirrors(h, s, open) && op.OpConsume?
    ensures var (t, fault) := Next(h, s, op);
            Mirrors(h, t, if open.Some? && Closes(open.value, op, fault) then None else open)
    ensures Next(h, s, op).1.None? ==> open.Some? && Matches(h, open.value, op)
  {
    if open.Some? {
      assert Valid(s.(offer := Some(s.offer.value.(status := OfferStatus.Expired))));
    }
  }

  lemma CancelMirrors(h: Hashing, s: State, open: Option<Minted>, op: Op)
    requires Valid(s) && Mirrors(h, s, open) && op.OpCancel?
    ensures var (t, fault) := Next(h, s, op);
            Mirrors(h, t, if open.Some? && Closes(open.value, op, fault) then None else open)
  {
  }

  lemma OtherMirrors(h: Hashing, s: State, op: Op)
    requires !op.OpCreate? && !op.OpConsume? && !op.OpCancel?
    ensures Next(h, s, op).0.offer == s.offer
  {
    if op.OpApprove? {
      ApproveOffers(h, s, op.id, op.proof, op.now, op.later, op.writes);
    }
  }

  lemma SlotKeepsFresh(h: Hashing, s: State, now: int, d: Device)
    requires d in s.devices && IsActive(d) && !Stale(d, now, MAX_TTL)
    ensures d in Slot(h, Aged(s, now, MAX_TTL)).devices
  {
    var t := Aged(s, now, MAX_TTL);
    var i :| 0 <= i < |s.devices| && s.devices[i] == d;
    assert t.devices[i] == d;
    var cs := Candidates(t.devices);
    forall j | 0 <= j < |cs|
      ensures !IsActive(cs[j])
    {
      assert cs[j] in cs;
    }
    if |t.devices| >= MAX_RECORDS {
      PruneKeepsActive(h, t, cs, d);
    }
  }

  /** A successful consumption brings the one record of its own identifier, key and binding. */
  lemma ConsumeBrings(h: Hashing, s: State, op: Op)
    requires op.OpConsume? && Next(h, s, op).1.None?
    ensures NewRecords(s.devices, Next(h, s, op).0.devices, op.now) == [NewDevice(h, op.id, op.key, op.binding, op.now)]
  {
    var u := Slot(h, Aged(s, op.now, MAX_TTL));
    var d := NewDevice(h, op.id, op.key, op.binding, op.now);
    ConsumedAppends(h, s, op);
    SlotEvolves(h, s, op.now, u);
    NoNewRecords(s.devices, u.devices, op.now);
    NewRecordsAppend(s.devices, u.devices, d, op.now);
    NewIsUnmoved(h, s, op);
    assert [d][1..] == [];
  }

  lemma NewIsUnmoved(h: Hashing, s: State, op: Op)
    requires op.OpConsume? && Next(h, s, op).1.None?
    ensures !Moved(s.devices, NewDevice(h, op.id, op.key, op.binding, op.now), op.now)
  {
    var d := NewDevice(h, op.id, op.key, op.binding, op.now);
    NoIndex(Slot(h, Aged(s, op.now, MAX_TTL)).devices, op.id);
    if Moved(s.devices, d, op.now) {
      var i :| 0 <= i < |s.devices| && Move(s.devices[i], d, op.now);
      SlotKeepsFresh(h, s, op.now, d);
    }
  }

  lemma NextKeeps(h: Hashing, b: Ledger, op: Op)
    requires Inv(h, b)
    ensures Inv(h, LedgerNext(h, b, op).0)
  {
    var s := b.state;
    NextIsValid(h, s, op);
    NextCounts(h, s, op);
    match op
    case OpCreate(_, _, _, _, _) => CreateMirrors(h, s, op);
    case OpConsume(_, _, _, _, _, _, _) =>
      ConsumeMirrors(h, s, b.open, op);
      if Next(h, s, op).1.None? {
        ConsumeBrings(h, s, op);
      }
    case OpCancel(_, _) => CancelMirrors(h, s, b.open, op);
    case _ => OtherMirrors(h, s, op);
  }

  lemma EveryRunKeeps(h: Hashing, ops: seq<Op>)
    ensures Inv(h, Run(Keeper(h), OpenLedger, ops).0)
  {
    var inv := (b: Ledger) => Inv(h, b);
    forall b, op | inv(b)
      ensures inv(Keeper(h)(b, op).0)
    {
      NextKeeps(h, b, op);
    }
    RunInvariant(Keeper(h), inv, OpenLedger, ops);
  }

  /**
   * In every run every consumption that succeeded had a capability that hashes as the one with
   * which the open offer was made, came with a matching identity before the offer was over, and
   * brought exactly the record of its own identifier, key and binding.
   */
  lemma PairingNeedsCapability(h: Hashing, ops: seq<Op>, i: nat)
    requires i < |Run(Keeper(h), OpenLedger, ops).0.uses|
    ensures Proper(h, Run(Keeper(h), OpenLedger, ops).0.uses[i])
  {
    EveryRunKeeps(h, ops);
  }

  // ------------------------------------------------------------ exactly when

  lemma {:induction false} InactiveRemoved(ds: seq<Device>, d: Device)
    requires !IsActive(d)
    ensures ActiveCount(Remove(ds, d)) == ActiveCount(ds)
  {
    if ds != [] && ds[0] != d {
      InactiveRemoved(ds[1..], d);
      assert Remove(ds, d)[1..] == Remove(ds[1..], d);
    }
  }

  lemma {:induction false} PruneKeepsCount(h: Hashing, s: State, cs: seq<Device>)
    requires forall i :: 0 <= i < |cs| ==> !IsActive(cs[i])
    ensures ActiveCount(PruneFrom(h, s, cs).devices) == ActiveCount(s.devices)
    decreases |cs|
  {
    if cs != [] {
      if !Removable(h, s, cs[0]) {
        PruneKeepsCount(h, s, cs[1..]);
      } else {
        InactiveRemoved(s.devices, cs[0]);
        PruneKeepsCount(h, Pruned(h, s, cs[0]), cs[1..]);
      }
    }
  }

  lemma SlotKeepsCount(h: Hashing, s: State)
    ensures ActiveCount(Slot(h, s).devices) == ActiveCount(s.devices)
  {
    var cs := Candidates(s.devices);
    forall j | 0 <= j < |cs|
      ensures !IsActive(cs[j])
    {
      assert cs[j] in cs;
    }
    PruneKeepsCount(h, s, cs);
  }

  /** Room for a device: fewer than five records in use, and a place in the list with a new identifier. */
  predicate HasPlace(h: Hashing, s: State, id: string, now: int) {
    var u := Slot(h, Aged(s, now, MAX_TTL));
    ActiveCount(Aged(s, now, MAX_TTL).devices) < MAX_ACTIVE && |u.devices| < MAX_RECORDS && forall d :: d in u.devices ==> d.id != id
  }

  lemma NoIndex(ds: seq<Device>, id: string)
    ensures Index(ds, id) == |ds| <==> forall d :: d in ds ==> d.id != id
  {
    if Index(ds, id) < |ds| {
      assert ds[Index(ds, id)] in ds;
    }
  }

  /**
   * At every point of every run, with a clock that is not behind what the state says: a consumption
   * succeeds if and only if an offer is open, matches, its key was never revoked, there is a place
   * for the device, and the write works.
   */
  lemma PairsIff(h: Hashing, ops: seq<Op>, op: Op)
    requires op.OpConsume? && Reads(Run(Keeper(h), OpenLedger, ops).0.state, op.now)
    ensures var b := Run(Keeper(h), OpenLedger, ops).0;
            Next(h, b.state, op).1.None? <==>
              && b.open.Some? && Matches(h, b.open.value, op)
              && !KeyRevoked(h, Slot(h, Aged(b.state, op.now, MAX_TTL)), op.key)
              && HasPlace(h, b.state, op.id, op.now) && op.writes
  {
    EveryRunKeeps(h, ops);
    var b := Run(Keeper(h), OpenLedger, ops).0;
    var u := Slot(h, Aged(b.state, op.now, MAX_TTL));
    SlotKeepsCount(h, Aged(b.state, op.now, MAX_TTL));
    NoIndex(u.devices, op.id);
    if b.open.Some? {
      ConsumeIsValid(h, b.state, op.key, op.binding, op.id, op.now);
    }
  }

  lemma AgedHasSameIds(s: State, now: int)
    ensures forall d :: d in Aged(s, now, MAX_TTL).devices ==> exists e :: e in s.devices && e.id == d.id
  {
    var t := Aged(s, now, MAX_TTL);
    forall d | d in t.devices
      ensures exists e :: e in s.devices && e.id == d.id
    {
      var i :| 0 <= i < |t.devices| && t.devices[i] == d;
      assert s.devices[i] in s.devices && s.devices[i].id == d.id;
    }
  }

  lemma AgedRevokesNothing(h: Hashing, s: State, now: int, key: string)
    ensures KeyRevoked(h, Aged(s, now, MAX_TTL), key) ==> KeyRevoked(h, s, key)
  {
    var t := Aged(s, now, MAX_TTL);
    if h.sha(key) !in t.evidence && KeyRevoked(h, t, key) {
      var i :| 0 <= i < |t.devices| && t.devices[i].status.Revoked? && t.devices[i].key == key;
      assert s.devices[i].status.Revoked? && s.devices[i].key == key;
    }
  }

  /**
   * So an owner's offer works: with room in the list, fewer than five records in use, a key that
   * was never revoked, a new identifier and a working write, the right capability in time pairs
   * the device.
   */
  lemma RightCapabilityPairs(h: Hashing, ops: seq<Op>, op: Op)
    requires var b := Run(Keeper(h), OpenLedger, ops).0;
             && b.open.Some? && Matches(h, b.open.value, op) && Reads(b.state, op.now) && op.writes
             && |b.state.devices| < MAX_RECORDS && ActiveCount(b.state.devices) < MAX_ACTIVE
             && !KeyRevoked(h, b.state, op.key) && forall d :: d in b.state.devices ==> d.id != op.id
    ensures var b := Run(Keeper(h), OpenLedger, ops).0;
            var (t, fault) := Next(h, b.state, op);
            && fault.None?
            && t.devices == Aged(b.state, op.now, MAX_TTL).devices + [NewDevice(h, op.id, op.key, op.binding, op.now)]
  {
    var s := Run(Keeper(h), OpenLedger, ops).0.state;
    PairsIff(h, ops, op);
    PlaceIsThere(h, s, op);
    if Next(h, s, op).1.None? {
      ConsumedAppends(h, s, op);
    }
  }

  lemma PlaceIsThere(h: Hashing, s: State, op: Op)
    requires op.OpConsume? && |s.devices| < MAX_RECORDS && ActiveCount(s.devices) < MAX_ACTIVE
    requires !KeyRevoked(h, s, op.key) && forall d :: d in s.devices ==> d.id != op.id
    ensures Slot(h, Aged(s, op.now, MAX_TTL)) == Aged(s, op.now, MAX_TTL)
    ensures HasPlace(h, s, op.id, op.now) && !KeyRevoked(h, Aged(s, op.now, MAX_TTL), op.key)
  {
    AgedHasSameIds(s, op.now);
    AgedRevokesNothing(h, s, op.now, op.key);
    ActiveExpired(s.devices, op.now, MAX_TTL);
  }

  lemma ConsumedAppends(h: Hashing, s: State, op: Op)
    requires op.OpConsume? && Next(h, s, op).1.None?
    ensures Next(h, s, op).0.devices ==
              Slot(h, Aged(s, op.now, MAX_TTL)).devices + [NewDevice(h, op.id, op.key, op.binding, op.now)]
  {
  }

  /**
   * At every point of every run, with such a clock: an offer is made if and only if its time, the room,
   * its identifier and the write allow it.
   */
  lemma OffersIff(h: Hashing, ops: seq<Op>, op: Op)
    requires op.OpCreate? && Reads(Run(Stepper(h), Empty, ops).0, op.now)
    ensures var s := Run(Stepper(h), Empty, ops).0;
            Next(h, s, op).1.None? <==>
              && 1 <= op.ttl <= MAX_TTL && |Slot(h, Aged(s, op.now, MAX_TTL)).devices| < MAX_RECORDS
              && !(s.offer.Some? && s.offer.value.id == op.id) && op.writes
  {
    EveryRunKeeps(h, ops);
    KeptRun(h, OpenLedger, ops);
    SlotIsValid(h, Run(Stepper(h), Empty, ops).0, op.now);
  }

  // ------------------------------------------------------------------ approval

  /** What an approval needs of a record: the proof, and that it is authorized, or pending and not timed out. */
  predicate Approvable(h: Hashing, d: Device, p: Proof, now: int) {
    Names(h, p, d.binding) && (d.status.Authorized? || (d.status.Pending? && now - d.created < MAX_TTL))
  }

  /**
   * With a clock not behind the records and a working write: an approval succeeds if and only if
   * the record of the identifier is approvable; then it is authorized with the key it had, and
   * every other record is as it was, but for those timed out.
   */
  lemma ApprovesIff(h: Hashing, s: State, id: string, p: Proof, now: int, later: int)
    requires Valid(s) && Counted(s) && Reads(s, now) && now <= later <= MAX_INT
    ensures var (t, r) := Approve(h, s, id, p, now, later, true);
            var i := Index(s.devices, id);
            && (r.Ok? <==> i < |s.devices| && Approvable(h, s.devices[i], p, now))
            && |t.devices| == |s.devices| && t.offer == s.offer
            && (r.Ok? ==> IsAuthorized(t, id, s.devices[i].key) && t.devices[i].binding == s.devices[i].binding)
            && (forall j {:trigger t.devices[j]} :: 0 <= j < |s.devices| && !(r.Ok? && j == i) ==>
                  t.devices[j] == Aged(s, now, MAX_TTL).devices[j])
  {
    ExpiredIsValid(s, now, MAX_TTL);
    var t := Refreshed(s, now, true).0;
    assert t == Aged(s, now, MAX_TTL) && Valid(t);
    SameIndex(s.devices, t.devices, id);
    var i := Index(s.devices, id);
    if i < |s.devices| && Stale(s.devices[i], now, MAX_TTL) {
      assert !IsActive(t.devices[i]);
    } else if i < |s.devices| && t.devices[i].status.Pending? {
      assert ValidDevice(s.devices[i]);
      var d := ApprovedRecord(t.devices[i], later);
      SetIsValid(t, i, d);
      SameIndex(t.devices, t.devices[i := d], id);
    }
  }

  lemma OneIndex(ds: seq<Device>, i: nat, j: nat)
    requires UniqueIds(ds) && i < |ds| && j < |ds| && ds[i].id == ds[j].id
    ensures i == j
  {
  }

  /**
   * With such a clock and a working write: a denial succeeds exactly unless the record is authorized
   * or revoked, and then no record of the identifier is pending or authorized.
   */
  lemma DeniesIff(s: State, id: string, now: int)
    requires Valid(s) && Counted(s) && Reads(s, now)
    ensures var (t, r) := Deny(s, id, now, true);
            && (r.Ok? <==> forall i :: 0 <= i < |s.devices| && s.devices[i].id == id ==>
              s.devices[i].status.Pending? || s.devices[i].status.Denied?)
            && (r.Ok? ==> forall i :: 0 <= i < |t.devices| && t.devices[i].id == id ==> t.devices[i].status.Denied?)
            && |t.devices| == |s.devices| && t.offer == s.offer
            && (forall i :: 0 <= i < |s.devices| && s.devices[i].id != id ==> t.devices[i] == s.devices[i])
  {
    DenyNotRefused(s, id, now, true);
    NoIndex(s.devices, id);
    var i := Index(s.devices, id);
    if i < |s.devices| {
      forall j | 0 <= j < |s.devices| && s.devices[j].id == id
        ensures j == i
      {
        OneIndex(s.devices, i, j);
      }
    }
  }

  /** With such a clock and a working write an expiry on request denies exactly the pending records of that age. */
  lemma ExpiresIff(s: State, maxAge: int, now: int)
    requires Valid(s) && Counted(s) && Reads(s, now) && 1 <= maxAge <= MAX_TTL
    ensures var (t, r) := ExpireAll(s, maxAge, now, true);
            && r.Ok? && |t.devices| == |s.devices|
            && forall i :: 0 <= i < |s.devices| ==>
                 if s.devices[i].status.Pending? && now - s.devices[i].created >= maxAge
                 then t.devices[i].status.Denied? && t.devices[i].id == s.devices[i].id && t.devices[i].key == s.devices[i].key
                 else t.devices[i] == s.devices[i]
  {
    ExpiredIsValid(s, now, maxAge);
  }

  /** With such a clock and a working write a revocation of a record that is there succeeds, and leaves it revoked. */
  lemma RevokesIff(s: State, id: string, now: int, i: nat)
    requires Valid(s) && Counted(s) && Reads(s, now) && i < |s.devices| && s.devices[i].id == id
    ensures var (t, r) := Revoke(s, id, now, true);
            && r.Ok? && r.value.Some? && |t.devices| == |s.devices|
            && t.devices[i].status.Revoked? && t.devices[i].key == s.devices[i].key && !t.devices[i].client
            && forall j :: 0 <= j < |s.devices| && j != i ==> t.devices[j] == s.devices[j]
  {
    RevokeNotRefused(s, id, now, true);
    var k := Index(s.devices, id);
    OneIndex(s.devices, i, k);
  }

  // ------------------------------------------------------------ who gives way

  /** The order of pruning relates any two records, one way at most, and splits at every third. */
  lemma {:induction false} LessSplits(a: string, b: string, c: string)
    requires Less(a, b)
    ensures !Less(b, a) && (Less(a, c) || Less(c, b))
    decreases |a|
  {
    if a != [] && a[0] == b[0] {
      if c != [] && c[0] == a[0] {
        LessSplits(a[1..], b[1..], c[1..]);
      } else {
        LessSplits(a[1..], b[1..], a[1..]);
      }
    }
  }

  lemma BeforeSplits(a: Device, b: Device, c: Device)
    requires Before(a, b)
    ensures !Before(b, a) && (Before(a, c) || Before(c, b))
  {
    if Less(a.id, b.id) {
      LessSplits(a.id, b.id, c.id);
    }
  }

  /** No record stands behind one that it comes before. */
  ghost predicate InOrder(cs: seq<Device>) {
    forall i, j {:trigger cs[i], cs[j]} :: 0 <= i < j < |cs| ==> !Before(cs[j], cs[i])
  }

  lemma {:induction false} InsertInOrder(d: Device, ds: seq<Device>)
    requires InOrder(ds)
    ensures InOrder(Insert(d, ds))
    decreases |ds|
  {
    var r := Insert(d, ds);
    if ds != [] {
      if Before(ds[0], d) {
        assert InOrder(ds[1..]);
        InsertInOrder(d, ds[1..]);
        BeforeSplits(ds[0], d, d);
        forall j | 0 < j < |r|
          ensures !Before(r[j], r[0])
        {
          InsertedFrom(d, ds[1..], r[j]);
        }
      } else {
        forall j | 0 < j < |r|
          ensures !Before(r[j], d)
        {
          if Before(r[j], d) {
            BeforeSplits(r[j], d, ds[0]);
          }
        }
      }
    }
  }

  lemma InsertedFrom(d: Device, ds: seq<Device>, e: Device)
    requires e in Insert(d, ds)
    ensures e == d || e in ds
  {
    assert e in multiset(Insert(d, ds));
    assert e in multiset(ds) + multiset{d};
  }

  lemma {:induction false} CandidatesInOrder(ds: seq<Device>)
    ensures InOrder(Candidates(ds))
  {
    if ds != [] {
      CandidatesInOrder(ds[1..]);
      InsertInOrder(ds[0], Candidates(ds[1..]));
    }
  }

  /** A record that a full list can do without. */
  predicate Dispensable(h: Hashing, s: State, d: Device) {
    d in s.devices && (d.status.Denied? || d.status.Revoked?) && Removable(h, s, d)
  }

  lemma {:induction false} FirstRemovable(h: Hashing, s: State, cs: seq<Device>) returns (k: nat)
    requires |s.devices| == MAX_RECORDS && forall i :: 0 <= i < |cs| ==> cs[i] in s.devices
    requires exists i :: 0 <= i < |cs| && Removable(h, s, cs[i])
    ensures k < |cs| && Removable(h, s, cs[k]) && PruneFrom(h, s, cs) == Pruned(h, s, cs[k])
    ensures forall i :: 0 <= i < k ==> !Removable(h, s, cs[i])
    decreases |cs|
  {
    if Removable(h, s, cs[0]) {
      k := 0;
    } else {
      var i :| 0 <= i < |cs| && Removable(h, s, cs[i]);
      assert cs[1..][i - 1] == cs[i];
      var l := FirstRemovable(h, s, cs[1..]);
      k := l + 1;
    }
  }

  /** One record goes before another: denied before revoked, then the longer unchanged, then by identifier. */
  predicate GoesFirst(a: Device, b: Device) {
    || (a.status.Denied? && !b.status.Denied?)
    || (a.status.Denied? == b.status.Denied? && (a.updated < b.updated || (a.updated == b.updated && Less(a.id, b.id))))
  }

  /**
   * A full list gives up exactly one record, if it can do without any: one that no other
   * dispensable record goes before; the digest of a revoked key stays.
   */
  lemma OldestGivesWay(h: Hashing, s: State) returns (d: Device)
    requires |s.devices| == MAX_RECORDS && exists e :: Dispensable(h, s, e)
    ensures Dispensable(h, s, d) && (forall e :: Dispensable(h, s, e) ==> !GoesFirst(e, d))
    ensures Slot(h, s).devices == Remove(s.devices, d) && (d.status.Revoked? ==> h.sha(d.key) in Slot(h, s).evidence)
  {
    var cs := Candidates(s.devices);
    CandidatesInOrder(s.devices);
    forall i | 0 <= i < |cs|
      ensures cs[i] in s.devices
    {
      assert cs[i] in cs;
    }
    var x :| Dispensable(h, s, x);
    assert x in cs;
    var k := FirstRemovable(h, s, cs);
    d := cs[k];
    assert d in cs;
    forall e | Dispensable(h, s, e)
      ensures !GoesFirst(e, d)
    {
      assert e in cs;
      var j :| 0 <= j < |cs| && cs[j] == e;
      if j == k && Before(e, d) {
        BeforeSplits(e, d, d);
      }
    }
  }
}
