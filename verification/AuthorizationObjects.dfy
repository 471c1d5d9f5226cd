/**
 * The authorization repository as an object over a persisted state: each method loads it, changes
 * it record by record, validates and saves it, and is tied to the transition of Authorization.
 */
module AuthorizationObjects {
  import opened Common
  import opened Spec = Authorization

  /** Validation in one pass over the evidence and one over the records. */
  method Validate(s: State) returns (ok: bool)
    ensures ok == Valid(s)
  {
    if !(1 <= s.version <= 2) || (s.version == 1 && s.evidence != []) || |s.evidence| > MAX_EVIDENCE || |s.devices| > MAX_RECORDS {
      return false;
    }
    ok := ValidateEvidence(s.evidence);
    if !ok {
      return;
    }
    ok := ValidateDevices(s.devices);
    if !ok {
      return;
    }
    if s.offer.Some? {
      var o := s.offer.value;
      ok := InRange(o.created) && InRange(o.expires) && InRange(o.consumedAt)
            && o.created < o.expires <= o.created + MAX_TTL
            && (o.status.Consumed? <==> o.consumedAt != 0);
    }
  }

  method ValidateEvidence(evidence: seq<string>) returns (ok: bool)
    ensures ok == forall i, j {:trigger evidence[i], evidence[j]} :: 0 <= i < j < |evidence| ==> evidence[i] != evidence[j]
  {
    var seen: set<string> := {};
    for k := 0 to |evidence|
      invariant forall i, j {:trigger evidence[i], evidence[j]} :: 0 <= i < j < k ==> evidence[i] != evidence[j]
      invariant forall x :: x in seen <==> x in evidence[..k]
    {
      if evidence[k] in seen {
        return false;
      }
      seen := seen + {evidence[k]};
      assert evidence[..k + 1] == evidence[..k] + [evidence[k]];
    }
    ok := true;
  }

  /** What is checked of the records together. */
  predicate ValidDevices(ds: seq<Device>) {
    UniqueIds(ds) && (forall i {:trigger ds[i]} :: 0 <= i < |ds| ==> ValidDevice(ds[i])) && ActiveCount(ds) <= MAX_ACTIVE
  }

  method ValidateDevices(ds: seq<Device>) returns (ok: bool)
    ensures ok == ValidDevices(ds)
  {
    var seen: set<string> := {};
    var active := 0;
    for k := 0 to |ds|
      invariant UniqueIds(ds[..k]) && active == ActiveCount(ds[..k])
      invariant forall i {:trigger ds[i]} :: 0 <= i < k ==> ValidDevice(ds[i])
      invariant forall x :: x in seen <==> exists i :: 0 <= i < k && ds[i].id == x
    {
      var d := ds[k];
      if d.id in seen || !ValidDevice(d) {
        return false;
      }
      seen := seen + {d.id};
      assert ds[..k + 1] == ds[..k] + [d];
      ActiveAppend(ds[..k], d);
      if d.status.Pending? || d.status.Authorized? {
        active := active + 1;
      }
    }
    assert ds[..|ds|] == ds;
    ok := active <= MAX_ACTIVE;
  }

  /** Walk the records and turn each pending one that is too old into a denied one; say if there was any. */
  method ExpirePendingInState(s: State, now: int, maxAge: int) returns (t: State, changed: bool)
    ensures t == Aged(s, now, maxAge) && changed == (t.devices != s.devices)
  {
    var devices := s.devices;
    changed := false;
    for i := 0 to |devices|
      invariant |devices| == |s.devices|
      invariant forall k {:trigger devices[k]} :: 0 <= k < i ==>
          devices[k] == if Stale(s.devices[k], now, maxAge) then Expire(s.devices[k], now) else s.devices[k]
      invariant forall k {:trigger devices[k]} :: i <= k < |devices| ==> devices[k] == s.devices[k]
      invariant changed <==> exists k :: 0 <= k < i && Stale(s.devices[k], now, maxAge)
    {
      var d := devices[i];
      if d.status.Pending? && now - d.created >= maxAge {
        devices := devices[i := d.(status := Denied, updated := now, epoch := d.epoch + 1)];
        changed := true;
      }
    }
    t := s.(devices := devices);
    if changed {
      var k :| 0 <= k < |devices| && Stale(s.devices[k], now, maxAge);
      assert devices[k].status.Denied?;
    }
    assert t.devices == ExpirePending(s.devices, now, maxAge);
    if !changed {
      assert t.devices == s.devices;
    }
  }

  /** Denied records give way first; a revoked one gives way once its digest is kept. */
  method MakeDeviceSlot(h: Hashing, s: State) returns (t: State)
    ensures t == Slot(h, s)
  {
    t := s;
    if |s.devices| < MAX_RECORDS {
      return;
    }
    var candidates := Candidates(s.devices);
    for i := 0 to |candidates|
      invariant PruneFrom(h, t, candidates[i..]) == PruneFrom(h, s, candidates)
    {
      var record := candidates[i];
      assert candidates[i..][0] == record && candidates[i..][1..] == candidates[i + 1..];
      ghost var before := t;
      if record.status.Revoked? {
        var digest := h.sha(record.key);
        if digest !in t.evidence {
          if |t.evidence| >= MAX_EVIDENCE {
            continue;
          }
          t := t.(evidence := t.evidence + [digest]);
        }
        t := t.(version := 2);
      }
      t := t.(devices := Remove(t.devices, record));
      assert t == Pruned(h, before, record);
      if |t.devices| < MAX_RECORDS {
        return;
      }
    }
  }

  /** How many records are active, and whether a key is known to be revoked. */
  method Survey(h: Hashing, s: State, key: string) returns (active: nat, revoked: bool)
    ensures active == ActiveCount(s.devices) && revoked == KeyRevoked(h, s, key)
  {
    active, revoked := 0, h.sha(key) in s.evidence;
    for i := 0 to |s.devices|
      invariant active == ActiveCount(s.devices[..i])
      invariant revoked <==> h.sha(key) in s.evidence || exists k :: 0 <= k < i && s.devices[k].status.Revoked? && s.devices[k].key == key
    {
      var d := s.devices[i];
      assert s.devices[..i + 1] == s.devices[..i] + [d];
      ActiveAppend(s.devices[..i], d);
      if d.status.Pending? || d.status.Authorized? {
        active := active + 1;
      }
      revoked := revoked || (d.status.Revoked? && d.key == key);
    }
    assert s.devices[..|s.devices|] == s.devices;
  }

  method FindDevice(ds: seq<Device>, id: string) returns (i: nat)
    ensures i == Index(ds, id)
  {
    i := 0;
    while i < |ds| && ds[i].id != id
      invariant i <= Index(ds, id)
    {
      IndexBeyond(ds, id, i);
      i := i + 1;
    }
    if i < |ds| {
      IndexHere(ds, id, i);
    }
  }

  lemma IndexBeyond(ds: seq<Device>, id: string, i: nat)
    requires i < |ds| && ds[i].id != id && i <= Index(ds, id)
    ensures i + 1 <= Index(ds, id)
  {
  }

  lemma IndexHere(ds: seq<Device>, id: string, i: nat)
    requires i < |ds| && ds[i].id == id && i <= Index(ds, id)
    ensures i == Index(ds, id)
  {
  }

  class AuthorizationRepository {
    const h: Hashing
    var store: State

    constructor (h: Hashing)
      ensures store == Empty && this.h == h
    {
      this.h, store := h, Empty;
    }

    /** Validate and write; an error leaves the file as it was. */
    method Save(t: State, writes: bool) returns (r: Outcome<()>)
      modifies this
      ensures (store, r) == Saved(old(store), t, writes, ())
    {
      var ok := Validate(t);
      if !ok {
        return Err(Refused);
      }
      if !writes {
        return Err(Unwritten);
      }
      store := t;
      r := Ok(());
    }

    method CreateOffer(ttl: int, id: string, capability: string, now: int, writes: bool) returns (r: Outcome<Offer>)
      modifies this
      ensures (store, r) == Spec.CreateOffer(h, old(store), ttl, id, capability, now, writes)
    {
      if !(1 <= ttl <= MAX_TTL) {
        return Err(InvalidTtl);
      }
      if !InRange(now) {
        return Err(TimeUnavailable);
      }
      var t, _ := ExpirePendingInState(store, now, MAX_TTL);
      t := MakeDeviceSlot(h, t);
      if |t.devices| >= MAX_RECORDS {
        return Err(HistoryFull);
      }
      if store.offer.Some? && store.offer.value.id == id {
        return Err(RandomFailed);
      }
      var o := Offer(id, h.sha(capability), now, now + ttl, Active, 0);
      var saved := Save(t.(offer := Some(o)), writes);
      r := if saved.Ok? then Ok(o) else Err(saved.error);
    }

    method ConsumeOffer(capability: string, key: string, binding: string, identityOk: bool, id: string, now: int, writes: bool)
      returns (r: Outcome<Device>)
      modifies this
      ensures (store, r) == Spec.ConsumeOffer(h, old(store), capability, key, binding, identityOk, id, now, writes)
    {
      if store.offer.None? {
        return Err(PairingRejected);
      }
      if !InRange(now) {
        return Err(TimeUnavailable);
      }
      var o := store.offer.value;
      var usable := o.status.Active? && now < o.expires;
      if !(h.sha(capability) == o.capability && identityOk && usable) {
        if o.status.Active? && now >= o.expires {
          var saved := Save(store.(offer := Some(o.(status := OfferStatus.Expired))), writes);
          if saved.Err? {
            return Err(saved.error);
          }
        }
        return Err(PairingRejected);
      }
      var t, _ := ExpirePendingInState(store, now, MAX_TTL);
      t := MakeDeviceSlot(h, t);
      var active, revoked := Survey(h, t, key);
      if active >= MAX_ACTIVE || revoked || |t.devices| >= MAX_RECORDS {
        return Err(PairingRejected);
      }
      var i := FindDevice(t.devices, id);
      if i < |t.devices| {
        return Err(RandomFailed);
      }
      var d := Device(id, key, h.sha(binding), Pending, now, now, 0, false);
      var saved := Save(t.(devices := t.devices + [d], offer := Some(o.(status := Consumed, consumedAt := now))), writes);
      r := if saved.Ok? then Ok(d) else Err(saved.error);
    }

    method Approve(id: string, p: Proof, now: int, later: int, writes: bool) returns (r: Outcome<Device>)
      modifies this
      ensures (store, r) == Spec.Approve(h, old(store), id, p, now, later, writes)
    {
      if !InRange(now) {
        return Err(TimeUnavailable);
      }
      var t, changed := ExpirePendingInState(store, now, MAX_TTL);
      if changed {
        var saved := Save(t, writes);
        if saved.Err? {
          return Err(saved.error);
        }
      }
      var i := FindDevice(store.devices, id);
      if i == |store.devices| {
        return Err(ApprovalRejected);
      }
      var d := store.devices[i];
      if !Proves(h, d, p) || !(d.status.Pending? || d.status.Authorized?) {
        return Err(ApprovalRejected);
      }
      if d.status.Authorized? {
        return Ok(d);
      }
      if !InRange(later) {
        return Err(TimeUnavailable);
      }
      d := d.(status := Authorized, updated := later, client := true);
      var saved := Save(store.(devices := store.devices[i := d]), writes);
      r := if saved.Ok? then Ok(d) else Err(saved.error);
    }

    method Deny(id: string, now: int, writes: bool) returns (r: Outcome<Option<Device>>)
      modifies this
      ensures (store, r) == Spec.Deny(old(store), id, now, writes)
    {
      var i := FindDevice(store.devices, id);
      if i == |store.devices| {
        return Ok(None);
      }
      var d := store.devices[i];
      if d.status.Denied? {
        return Ok(Some(d));
      }
      if !d.status.Pending? {
        return Err(TransitionRejected);
      }
      if !InRange(now) {
        return Err(TimeUnavailable);
      }
      d := d.(status := Denied, updated := now, epoch := d.epoch + 1);
      var saved := Save(store.(devices := store.devices[i := d]), writes);
      r := if saved.Ok? then Ok(Some(d)) else Err(saved.error);
    }

    method ExpireAll(maxAge: int, now: int, writes: bool) returns (r: Outcome<()>)
      modifies this
      ensures (store, r) == Spec.ExpireAll(old(store), maxAge, now, writes)
    {
      if !(1 <= maxAge <= MAX_TTL) {
        return Err(InvalidTimeout);
      }
      if !InRange(now) {
        return Err(TimeUnavailable);
      }
      var t, changed := ExpirePendingInState(store, now, maxAge);
      if !changed {
        return Ok(());
      }
      var saved := Save(t, writes);
      r := if saved.Ok? then Ok(()) else Err(saved.error);
    }

    method Revoke(id: string, now: int, writes: bool) returns (r: Outcome<Option<Device>>)
      modifies this
      ensures (store, r) == Spec.Revoke(old(store), id, now, writes)
    {
      var i := FindDevice(store.devices, id);
      if i == |store.devices| {
        return Ok(None);
      }
      var d := store.devices[i];
      if d.status.Revoked? {
        return Ok(Some(d));
      }
      if !InRange(now) {
        return Err(TimeUnavailable);
      }
      d := d.(status := Revoked, updated := now, epoch := d.epoch + 1, client := false);
      var saved := Save(store.(devices := store.devices[i := d]), writes);
      r := if saved.Ok? then Ok(Some(d)) else Err(saved.error);
    }
  }
}
