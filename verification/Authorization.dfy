/**
 * The local repository of pairing offers and device records: a bounded, persistent state in
 * which a revoked key is never forgotten.
 *
 * Identifiers, keys and digests are opaque strings of the right format; SHA-256 and the short
 * fingerprint of a digest are parameters. A save succeeds or fails as a whole.
 */
module Authorization {
  import opened Common
  import opened Machine

  const MAX_TTL := 600
  const MAX_RECORDS := 16
  const MAX_EVIDENCE := 512
  const MAX_ACTIVE := 5
  const MAX_INT := 0x7FFF_FFFF_FFFF_FFFF
  const MAX_EPOCH := 0x7FFF_FFFF

  datatype Hashing = Hashing(sha: string -> string, fingerprint: string -> string)

  datatype Status = Pending | Authorized | Revoked | Denied

  datatype Device = Device(id: string, key: string, binding: string, status: Status,
                           created: int, updated: int, epoch: int, client: bool)

  datatype OfferStatus = Active | Expired | Consumed

  datatype Offer = Offer(id: string, capability: string, created: int, expires: int, status: OfferStatus, consumedAt: int)

  /** The persisted state; version 2 has the compact evidence of revoked keys. */
  datatype State = State(version: nat, devices: seq<Device>, evidence: seq<string>, offer: Option<Offer>)

  const Empty := State(1, [], [], None)

  datatype Fault = InvalidTtl | HistoryFull | RandomFailed | PairingRejected | ApprovalRejected
                 | TransitionRejected | InvalidTimeout | TimeUnavailable | Refused | Unwritten

  // ------------------------------------------------------------- validation

  predicate InRange(n: int) { 0 <= n <= MAX_INT }

  predicate IsActive(d: Device) { d.status.Pending? || d.status.Authorized? }

  function ActiveCount(ds: seq<Device>): (n: nat) {
    if ds == [] then 0 else (if IsActive(ds[0]) then 1 else 0) + ActiveCount(ds[1..])
  }

  predicate ValidDevice(d: Device) {
    && InRange(d.created) && InRange(d.updated) && 0 <= d.epoch <= MAX_EPOCH
    && d.created <= d.updated
    && d.client == d.status.Authorized?
  }

  predicate ValidOffer(o: Offer) {
    && InRange(o.created) && InRange(o.expires) && InRange(o.consumedAt)
    && o.created < o.expires <= o.created + MAX_TTL
    && (o.status.Consumed? <==> o.consumedAt != 0)
  }

  predicate UniqueIds(ds: seq<Device>) {
    forall i, j {:trigger ds[i], ds[j]} :: 0 <= i < j < |ds| ==> ds[i].id != ds[j].id
  }

  predicate Valid(s: State) {
    && 1 <= s.version <= 2 && (s.version == 1 ==> s.evidence == [])
    && |s.evidence| <= MAX_EVIDENCE
    && (forall i, j {:trigger s.evidence[i], s.evidence[j]} :: 0 <= i < j < |s.evidence| ==> s.evidence[i] != s.evidence[j])
    && |s.devices| <= MAX_RECORDS && UniqueIds(s.devices)
    && (forall i {:trigger s.devices[i]} :: 0 <= i < |s.devices| ==> ValidDevice(s.devices[i]))
    && ActiveCount(s.devices) <= MAX_ACTIVE
    && (s.offer.Some? ==> ValidOffer(s.offer.value))
  }

  type Outcome<T> = Result<T, Fault>

  /** Validate and persist; a state that is refused, or not written, leaves the former one. */
  function Saved<T>(s: State, t: State, writes: bool, value: T): (r: (State, Outcome<T>)) {
    if !Valid(t) then (s, Err(Refused)) else if writes then (t, Ok(value)) else (s, Err(Unwritten))
  }

  // ----------------------------------------------------------------- expiry

  predicate Stale(d: Device, now: int, maxAge: int) {
    d.status.Pending? && now - d.created >= maxAge
  }

  function Expire(d: Device, now: int): Device {
    d.(status := Denied, updated := now, epoch := d.epoch + 1)
  }

  /** Deny every pending record that has timed out. */
  function ExpirePending(ds: seq<Device>, now: int, maxAge: int): (es: seq<Device>)
    ensures |es| == |ds|
    ensures forall i {:trigger es[i]} {:trigger ds[i]} :: 0 <= i < |ds| ==>
              es[i] == if Stale(ds[i], now, maxAge) then Expire(ds[i], now) else ds[i]
  {
    seq(|ds|, i requires 0 <= i < |ds| => if Stale(ds[i], now, maxAge) then Expire(ds[i], now) else ds[i])
  }

  function Aged(s: State, now: int, maxAge: int): State {
    s.(devices := ExpirePending(s.devices, now, maxAge))
  }

  // ---------------------------------------------------------------- pruning

  predicate Less(a: string, b: string) {
    if a == [] then b != []
    else b != [] && (a[0] < b[0] || (a[0] == b[0] && Less(a[1..], b[1..])))
  }

  /** The order of pruning: denied before revoked, then by last update, then by identifier. */
  predicate Before(a: Device, b: Device) {
    if a.status.Denied? != b.status.Denied? then a.status.Denied?
    else if a.updated != b.updated then a.updated < b.updated
    else Less(a.id, b.id)
  }

  function Insert(d: Device, ds: seq<Device>): (r: seq<Device>)
    ensures multiset(r) == multiset(ds) + multiset{d}
  {
    if ds == [] then [d]
    else if Before(ds[0], d) then
      assert ds == [ds[0]] + ds[1..];
      [ds[0]] + Insert(d, ds[1..])
    else [d] + ds
  }

  /** The denied and revoked records in the order of pruning. */
  function Candidates(ds: seq<Device>): (r: seq<Device>)
    ensures forall d :: d in r <==> d in ds && (d.status.Denied? || d.status.Revoked?)
  {
    if ds == [] then []
    else
      var rest := Candidates(ds[1..]);
      assert ds == [ds[0]] + ds[1..];
      if ds[0].status.Denied? || ds[0].status.Revoked? then
        var r := Insert(ds[0], rest);
        assert forall d :: d in r <==> d in multiset(r);
        assert forall d :: d in rest <==> d in multiset(rest);
        r
      else rest
  }

  function Remove(ds: seq<Device>, d: Device): (r: seq<Device>)
    ensures d in ds ==> |r| == |ds| - 1
    ensures d !in ds ==> r == ds
  {
    if ds == [] then [] else if ds[0] == d then ds[1..] else [ds[0]] + Remove(ds[1..], d)
  }

  /** A denied record goes; a revoked one goes only once its key digest is in the evidence. */
  predicate Removable(h: Hashing, s: State, d: Device) {
    d.status.Revoked? ==> h.sha(d.key) in s.evidence || |s.evidence| < MAX_EVIDENCE
  }

  function Pruned(h: Hashing, s: State, d: Device): State {
    if d.status.Revoked? then
      s.(version := 2, devices := Remove(s.devices, d),
         evidence := if h.sha(d.key) in s.evidence then s.evidence else s.evidence + [h.sha(d.key)])
    else s.(devices := Remove(s.devices, d))
  }

  function PruneFrom(h: Hashing, s: State, cs: seq<Device>): State
    decreases |cs|
  {
    if cs == [] then s
    else if !Removable(h, s, cs[0]) then PruneFrom(h, s, cs[1..])
    else
      var t := Pruned(h, s, cs[0]);
      if |t.devices| < MAX_RECORDS then t else PruneFrom(h, t, cs[1..])
  }

  /** Room for one more record, if history can give way without being forgotten. */
  function Slot(h: Hashing, s: State): State {
    if |s.devices| < MAX_RECORDS then s else PruneFrom(h, s, Candidates(s.devices))
  }

  // ------------------------------------------------------------ transitions

  function Index(ds: seq<Device>, id: string): (i: nat)
    ensures i <= |ds| && (i < |ds| ==> ds[i].id == id)
    ensures forall j :: 0 <= j < i ==> ds[j].id != id
  {
    if ds == [] then 0 else if ds[0].id == id then 0 else 1 + Index(ds[1..], id)
  }

  predicate UsableOffer(o: Offer, now: int) { o.status.Active? && now < o.expires }

  function CreateOffer(h: Hashing, s: State, ttl: int, id: string, capability: string, now: int, writes: bool)
    : (r: (State, Outcome<Offer>))
  {
    if !(1 <= ttl <= MAX_TTL) then (s, Err(InvalidTtl))
    else if !InRange(now) then (s, Err(TimeUnavailable))
    else
      var t := Slot(h, Aged(s, now, MAX_TTL));
      if |t.devices| >= MAX_RECORDS then (s, Err(HistoryFull))
      else if s.offer.Some? && s.offer.value.id == id then (s, Err(RandomFailed))
      else
        var o := Offer(id, h.sha(capability), now, now + ttl, Active, 0);
        Saved(s, t.(offer := Some(o)), writes, o)
  }

  /** Whether a key was ever revoked, as far as the state can tell. */
  predicate KeyRevoked(h: Hashing, s: State, key: string) {
    h.sha(key) in s.evidence || exists i :: 0 <= i < |s.devices| && s.devices[i].status.Revoked? && s.devices[i].key == key
  }

  function NewDevice(h: Hashing, id: string, key: string, binding: string, now: int): Device {
    Device(id, key, h.sha(binding), Pending, now, now, 0, false)
  }

  function ConsumeOffer(h: Hashing, s: State, capability: string, key: string, binding: string, identityOk: bool,
                        id: string, now: int, writes: bool): (r: (State, Outcome<Device>))
  {
    if s.offer.None? then (s, Err(PairingRejected))
    else if !InRange(now) then (s, Err(TimeUnavailable))
    else
      var o := s.offer.value;
      if !(h.sha(capability) == o.capability && identityOk && UsableOffer(o, now)) then
        if o.status.Active? && now >= o.expires then
          var (t, r) := Saved(s, s.(offer := Some(o.(status := OfferStatus.Expired))), writes, ());
          (t, Err(if r.Ok? then PairingRejected else r.error))
        else (s, Err(PairingRejected))
      else
        var t := Slot(h, Aged(s, now, MAX_TTL));
        if ActiveCount(t.devices) >= MAX_ACTIVE || KeyRevoked(h, t, key) || |t.devices| >= MAX_RECORDS then
          (s, Err(PairingRejected))
        else if Index(t.devices, id) < |t.devices| then (s, Err(RandomFailed))
        else
          var d := NewDevice(h, id, key, binding, now);
          Saved(s, t.(devices := t.devices + [d], offer := Some(o.(status := Consumed, consumedAt := now))), writes, d)
  }

  /** Expiry that is persisted before a transition looks at the records. */
  function Refreshed(s: State, now: int, writes: bool): (r: (State, Outcome<()>)) {
    var t := Aged(s, now, MAX_TTL);
    if t.devices == s.devices then (s, Ok(())) else Saved(s, t, writes, ())
  }

  function SetDevice(s: State, i: nat, d: Device): State
    requires i < |s.devices|
  {
    s.(devices := s.devices[i := d])
  }

  /** What an approval must show: the whole binding digest, or the fingerprint an operator compared. */
  datatype Proof = Digest(digest: string) | Fingerprint(short: string)

  predicate Proves(h: Hashing, d: Device, p: Proof) {
    match p
    case Digest(x) => x == d.binding
    case Fingerprint(f) => f == h.fingerprint(d.binding)
  }

  function Approve(h: Hashing, s: State, id: string, p: Proof, now: int, later: int, writes: bool): (r: (State, Outcome<Device>))
  {
    if !InRange(now) then (s, Err(TimeUnavailable))
    else
      var (t, saved) := Refreshed(s, now, writes);
      var i := Index(t.devices, id);
      if saved.Err? then (s, Err(saved.error))
      else if i == |t.devices| || !Proves(h, t.devices[i], p) || !IsActive(t.devices[i]) then (t, Err(ApprovalRejected))
      else if t.devices[i].status.Authorized? then (t, Ok(t.devices[i]))
      else if !InRange(later) then (t, Err(TimeUnavailable))
      else
        var d := ApprovedRecord(t.devices[i], later);
        Saved(t, SetDevice(t, i, d), writes, d)
  }

  function Deny(s: State, id: string, now: int, writes: bool): (r: (State, Outcome<Option<Device>>))
  {
    var i := Index(s.devices, id);
    if i == |s.devices| then (s, Ok(None))
    else if s.devices[i].status.Denied? then (s, Ok(Some(s.devices[i])))
    else if !s.devices[i].status.Pending? then (s, Err(TransitionRejected))
    else if !InRange(now) then (s, Err(TimeUnavailable))
    else var d := Expire(s.devices[i], now); Saved(s, SetDevice(s, i, d), writes, Some(d))
  }

  function RevokedRecord(d: Device, now: int): Device {
    d.(status := Revoked, updated := now, epoch := d.epoch + 1, client := false)
  }

  function Revoke(s: State, id: string, now: int, writes: bool): (r: (State, Outcome<Option<Device>>))
  {
    var i := Index(s.devices, id);
    if i == |s.devices| then (s, Ok(None))
    else if s.devices[i].status.Revoked? then (s, Ok(Some(s.devices[i])))
    else if !InRange(now) then (s, Err(TimeUnavailable))
    else var d := RevokedRecord(s.devices[i], now); Saved(s, SetDevice(s, i, d), writes, Some(d))
  }

  function ExpireAll(s: State, maxAge: int, now: int, writes: bool): (r: (State, Outcome<()>))
  {
    if !(1 <= maxAge <= MAX_TTL) then (s, Err(InvalidTimeout))
    else if !InRange(now) then (s, Err(TimeUnavailable))
    else
      var t := Aged(s, now, maxAge);
      if t.devices == s.devices then (s, Ok(())) else Saved(s, t, writes, ())
  }

  function CancelOffer(s: State, id: string, writes: bool): (r: (State, Outcome<bool>))
  {
    if s.offer.None? || s.offer.value.id != id || !s.offer.value.status.Active? then (s, Ok(false))
    else Saved(s, s.(offer := Some(s.offer.value.(status := OfferStatus.Expired))), writes, true)
  }

  predicate IsAuthorized(s: State, id: string, key: string) {
    var i := Index(s.devices, id);
    i < |s.devices| && s.devices[i].status.Authorized? && s.devices[i].client && s.devices[i].key == key
  }

  // ------------------------------------------------------------------- runs

  datatype Op =
    | OpCreate(ttl: int, id: string, capability: string, now: int, writes: bool)
    | OpConsume(capability: string, key: string, binding: string, identityOk: bool, id: string, now: int, writes: bool)
    | OpApprove(id: string, proof: Proof, now: int, later: int, writes: bool)
    | OpDeny(id: string, now: int, writes: bool)
    | OpRevoke(id: string, now: int, writes: bool)
    | OpExpire(maxAge: int, now: int, writes: bool)
    | OpCancel(id: string, writes: bool)

  /** Whether an operation went through, for those that can change something. */
  function Next(h: Hashing, s: State, op: Op): (r: (State, Option<Fault>)) {
    match op
    case OpCreate(ttl, id, cap, now, w) => var (t, r) := CreateOffer(h, s, ttl, id, cap, now, w); (t, FaultOf(r))
    case OpConsume(cap, key, binding, ok, id, now, w) =>
      var (t, r) := ConsumeOffer(h, s, cap, key, binding, ok, id, now, w); (t, FaultOf(r))
    case OpApprove(id, p, now, later, w) => var (t, r) := Approve(h, s, id, p, now, later, w); (t, FaultOf(r))
    case OpDeny(id, now, w) => var (t, r) := Deny(s, id, now, w); (t, FaultOf(r))
    case OpRevoke(id, now, w) => var (t, r) := Revoke(s, id, now, w); (t, FaultOf(r))
    case OpExpire(maxAge, now, w) => var (t, r) := ExpireAll(s, maxAge, now, w); (t, FaultOf(r))
    case OpCancel(id, w) => var (t, r) := CancelOffer(s, id, w); (t, FaultOf(r))
  }

  function FaultOf<T>(r: Outcome<T>): Option<Fault> {
    if r.Ok? then None else Some(r.error)
  }

  // ---------------------------------------- a revoked key is never forgotten

  /** A digest that the evidence holds, or that belongs to a revoked record. */
  ghost predicate DigestRevoked(h: Hashing, s: State, x: string) {
    x in s.evidence || exists i :: 0 <= i < |s.devices| && s.devices[i].status.Revoked? && h.sha(s.devices[i].key) == x
  }

  /** Everything the first state knows to be revoked, the second does too. */
  ghost predicate Remembers(h: Hashing, s: State, t: State) {
    && (forall k :: KeyRevoked(h, s, k) ==> KeyRevoked(h, t, k))
    && (forall x :: DigestRevoked(h, s, x) ==> DigestRevoked(h, t, x))
  }

  /** It is enough that evidence is kept and that every revoked record stays or leaves its digest. */
  lemma RemembersIf(h: Hashing, s: State, t: State)
    requires forall x :: x in s.evidence ==> x in t.evidence
    requires forall d :: d in s.devices && d.status.Revoked? ==>
               h.sha(d.key) in t.evidence || exists e :: e in t.devices && e.status.Revoked? && e.key == d.key
    ensures Remembers(h, s, t)
  {
    forall k | KeyRevoked(h, s, k)
      ensures KeyRevoked(h, t, k)
    {
      if h.sha(k) !in s.evidence {
        var i :| 0 <= i < |s.devices| && s.devices[i].status.Revoked? && s.devices[i].key == k;
        KeptOrNoted(h, s, t, i);
      }
    }
    forall x | DigestRevoked(h, s, x)
      ensures DigestRevoked(h, t, x)
    {
      if x !in s.evidence {
        var i :| 0 <= i < |s.devices| && s.devices[i].status.Revoked? && h.sha(s.devices[i].key) == x;
        KeptOrNoted(h, s, t, i);
      }
    }
  }

  lemma KeptOrNoted(h: Hashing, s: State, t: State, i: nat)
    requires i < |s.devices| && s.devices[i].status.Revoked?
    requires forall d :: d in s.devices && d.status.Revoked? ==>
               h.sha(d.key) in t.evidence || exists e :: e in t.devices && e.status.Revoked? && e.key == d.key
    ensures h.sha(s.devices[i].key) in t.evidence
            || exists j :: 0 <= j < |t.devices| && t.devices[j].status.Revoked? && t.devices[j].key == s.devices[i].key
  {
    var d := s.devices[i];
    assert d in s.devices;
    if h.sha(d.key) !in t.evidence {
      var e :| e in t.devices && e.status.Revoked? && e.key == d.key;
      var j :| 0 <= j < |t.devices| && t.devices[j] == e;
    }
  }

  lemma RemembersTransitive(h: Hashing, s: State, t: State, u: State)
    requires Remembers(h, s, t) && Remembers(h, t, u)
    ensures Remembers(h, s, u)
  {
  }

  lemma ExpiredRemembers(h: Hashing, s: State, now: int, maxAge: int)
    ensures Remembers(h, s, Aged(s, now, maxAge))
  {
    var t := Aged(s, now, maxAge);
    forall d | d in s.devices && d.status.Revoked?
      ensures d in t.devices
    {
      var i :| 0 <= i < |s.devices| && s.devices[i] == d;
      assert t.devices[i] == d;
    }
    RemembersIf(h, s, t);
  }

  lemma {:induction false} RemoveMembers(ds: seq<Device>, d: Device, e: Device)
    requires e in ds && e != d
    ensures e in Remove(ds, d)
  {
    if ds[0] == d {
      assert ds == [ds[0]] + ds[1..];
    } else if ds[0] != e {
      assert ds == [ds[0]] + ds[1..];
      RemoveMembers(ds[1..], d, e);
    }
  }

  lemma PrunedRemembers(h: Hashing, s: State, d: Device)
    requires Removable(h, s, d)
    ensures Remembers(h, s, Pruned(h, s, d))
  {
    var t := Pruned(h, s, d);
    forall e | e in s.devices && e.status.Revoked?
      ensures h.sha(e.key) in t.evidence || e in t.devices
    {
      if e != d {
        RemoveMembers(s.devices, d, e);
      }
    }
    RemembersIf(h, s, t);
  }

  lemma {:induction false} PruneRemembers(h: Hashing, s: State, cs: seq<Device>)
    ensures Remembers(h, s, PruneFrom(h, s, cs))
    decreases |cs|
  {
    if cs == [] {
    } else if !Removable(h, s, cs[0]) {
      PruneRemembers(h, s, cs[1..]);
    } else {
      var t := Pruned(h, s, cs[0]);
      PrunedRemembers(h, s, cs[0]);
      if |t.devices| >= MAX_RECORDS {
        PruneRemembers(h, t, cs[1..]);
        RemembersTransitive(h, s, t, PruneFrom(h, t, cs[1..]));
      }
    }
  }

  lemma SlotRemembers(h: Hashing, s: State, now: int)
    ensures Remembers(h, s, Slot(h, Aged(s, now, MAX_TTL)))
  {
    var t := Aged(s, now, MAX_TTL);
    ExpiredRemembers(h, s, now, MAX_TTL);
    if |t.devices| >= MAX_RECORDS {
      PruneRemembers(h, t, Candidates(t.devices));
      RemembersTransitive(h, s, t, Slot(h, t));
    }
  }

  /** Adding a record, or replacing one that is not revoked, forgets nothing. */
  lemma SetRemembers(h: Hashing, s: State, i: nat, d: Device)
    requires i < |s.devices| && !s.devices[i].status.Revoked?
    ensures Remembers(h, s, SetDevice(s, i, d))
  {
    var t := SetDevice(s, i, d);
    forall e | e in s.devices && e.status.Revoked?
      ensures e in t.devices
    {
      var j :| 0 <= j < |s.devices| && s.devices[j] == e;
      assert t.devices[j] == e;
    }
    RemembersIf(h, s, t);
  }

  lemma AppendRemembers(h: Hashing, s: State, d: Device, o: Option<Offer>)
    ensures Remembers(h, s, s.(devices := s.devices + [d], offer := o))
  {
    var t := s.(devices := s.devices + [d], offer := o);
    forall e | e in s.devices
      ensures e in t.devices
    {
    }
    RemembersIf(h, s, t);
  }

  lemma CreateRemembers(h: Hashing, s: State, ttl: int, id: string, cap: string, now: int, w: bool)
    ensures Remembers(h, s, CreateOffer(h, s, ttl, id, cap, now, w).0)
  {
    var t, u := CreateOffer(h, s, ttl, id, cap, now, w).0, Slot(h, Aged(s, now, MAX_TTL));
    RemembersIf(h, s, s);
    SlotRemembers(h, s, now);
    RemembersIf(h, u, u.(offer := t.offer));
    RemembersTransitive(h, s, u, u.(offer := t.offer));
  }

  lemma ConsumeRemembers(h: Hashing, s: State, cap: string, key: string, binding: string, ok: bool, id: string, now: int, w: bool)
    ensures Remembers(h, s, ConsumeOffer(h, s, cap, key, binding, ok, id, now, w).0)
  {
    var t, u := ConsumeOffer(h, s, cap, key, binding, ok, id, now, w).0, Slot(h, Aged(s, now, MAX_TTL));
    var d := NewDevice(h, id, key, binding, now);
    SlotRemembers(h, s, now);
    AppendRemembers(h, u, d, t.offer);
    RemembersIf(h, s, s);
    RemembersIf(h, s, s.(offer := t.offer));
    RemembersTransitive(h, s, u, u.(devices := u.devices + [d], offer := t.offer));
  }

  /** No operation, successful or not, forgets a revoked key or digest. */
  lemma NextRemembers(h: Hashing, s: State, op: Op)
    ensures Remembers(h, s, Next(h, s, op).0)
  {
    RemembersIf(h, s, s);
    match op
    case OpCreate(ttl, id, cap, now, w) => CreateRemembers(h, s, ttl, id, cap, now, w);
    case OpConsume(cap, key, binding, ok, id, now, w) => ConsumeRemembers(h, s, cap, key, binding, ok, id, now, w);
    case OpApprove(id, p, now, later, w) => ApproveRemembers(h, s, id, p, now, later, w);
    case OpDeny(id, now, w) => DenyRemembers(h, s, id, now, w);
    case OpRevoke(id, now, w) => RevokeRemembers(h, s, id, now, w);
    case OpExpire(maxAge, now, w) => ExpiredRemembers(h, s, now, maxAge);
    case OpCancel(id, w) => RemembersIf(h, s, CancelOffer(s, id, w).0);
  }

  lemma DenyRemembers(h: Hashing, s: State, id: string, now: int, w: bool)
    ensures Remembers(h, s, Deny(s, id, now, w).0)
  {
    RemembersIf(h, s, s);
    var i := Index(s.devices, id);
    if i < |s.devices| && s.devices[i].status.Pending? {
      SetRemembers(h, s, i, Expire(s.devices[i], now));
    }
  }

  lemma RevokeRemembers(h: Hashing, s: State, id: string, now: int, w: bool)
    ensures Remembers(h, s, Revoke(s, id, now, w).0)
  {
    RemembersIf(h, s, s);
    var i := Index(s.devices, id);
    if i < |s.devices| && !s.devices[i].status.Revoked? {
      SetRemembers(h, s, i, RevokedRecord(s.devices[i], now));
    }
  }

  /** The record an approval writes. */
  function ApprovedRecord(d: Device, later: int): Device {
    d.(status := Authorized, updated := later, client := true)
  }

  /** An approval leaves the state as it was, or refreshed, or with one pending record authorized. */
  lemma ApproveShape(h: Hashing, s: State, id: string, p: Proof, now: int, later: int, w: bool)
    ensures var t := Refreshed(s, now, w).0;
            var u := Approve(h, s, id, p, now, later, w).0;
            var i := Index(t.devices, id);
            u == s || u == t
            || (i < |t.devices| && t.devices[i].status.Pending? && Proves(h, t.devices[i], p)
                && u == SetDevice(t, i, ApprovedRecord(t.devices[i], later)) && Valid(u))
  {
  }

  lemma RefreshedRemembers(h: Hashing, s: State, now: int, w: bool)
    ensures Remembers(h, s, Refreshed(s, now, w).0)
  {
    ExpiredRemembers(h, s, now, MAX_TTL);
    RemembersIf(h, s, s);
  }

  lemma ApproveRemembers(h: Hashing, s: State, id: string, p: Proof, now: int, later: int, w: bool)
    ensures Remembers(h, s, Approve(h, s, id, p, now, later, w).0)
  {
    var t, u := Refreshed(s, now, w).0, Approve(h, s, id, p, now, later, w).0;
    RefreshedRemembers(h, s, now, w);
    RemembersIf(h, s, s);
    ApproveShape(h, s, id, p, now, later, w);
    var i := Index(t.devices, id);
    if i < |t.devices| && t.devices[i].status.Pending? {
      SetRemembers(h, t, i, ApprovedRecord(t.devices[i], later));
      RemembersTransitive(h, s, t, SetDevice(t, i, ApprovedRecord(t.devices[i], later)));
    }
  }

  function Stepper(h: Hashing): (State, Op) -> (State, Option<Fault>) {
    (s, op) => Next(h, s, op)
  }

  lemma {:induction false} RunRemembers(h: Hashing, s: State, ops: seq<Op>)
    ensures Remembers(h, s, Run(Stepper(h), s, ops).0)
    decreases |ops|
  {
    if ops == [] {
      RemembersIf(h, s, s);
    } else {
      var t := Next(h, s, ops[0]).0;
      NextRemembers(h, s, ops[0]);
      RunRemembers(h, t, ops[1..]);
      RemembersTransitive(h, s, t, Run(Stepper(h), t, ops[1..]).0);
    }
  }

  /** After a successful revocation its key is known to be revoked. */
  lemma RevokeIsNoted(h: Hashing, s: State, id: string, now: int, writes: bool)
    requires var (t, r) := Revoke(s, id, now, writes); r.Ok? && r.value.Some?
    ensures var (t, r) := Revoke(s, id, now, writes);
            KeyRevoked(h, t, r.value.value.key) && r.value.value.id == id && r.value.value.status.Revoked?
  {
    var i := Index(s.devices, id);
    var t := Revoke(s, id, now, writes).0;
    assert t.devices[i].status.Revoked?;
  }

  /**
   * Over every run: once a device has been revoked, no later pairing ever adds a record with
   * its key, however much history has been pruned in between.
   */
  lemma RevokedKeyNeverPairsAgain(h: Hashing, s: State, id: string, now: int, ops: seq<Op>,
                                  capability: string, binding: string, ok: bool, newId: string, later: int, writes: bool)
    requires var (t, r) := Revoke(s, id, now, true); r.Ok? && r.value.Some?
    ensures var (t, r) := Revoke(s, id, now, true);
            var u := Run(Stepper(h), t, ops).0;
            var (v, c) := ConsumeOffer(h, u, capability, r.value.value.key, binding, ok, newId, later, writes);
            c.Err? && v.devices == u.devices
  {
    var (t, r) := Revoke(s, id, now, true);
    var key := r.value.value.key;
    RevokeIsNoted(h, s, id, now, true);
    RunRemembers(h, t, ops);
    var u := Run(Stepper(h), t, ops).0;
    SlotRemembers(h, u, later);
    assert KeyRevoked(h, Slot(h, Aged(u, later, MAX_TTL)), key);
  }

  // ------------------------------------------------------- when no slot is left

  /** Pruning that removes nothing found only revoked records it may not compact. */
  lemma {:induction false} PruneFails(h: Hashing, s: State, cs: seq<Device>)
    requires |s.devices| == MAX_RECORDS
    requires forall i :: 0 <= i < |cs| ==> cs[i] in s.devices
    requires |PruneFrom(h, s, cs).devices| >= MAX_RECORDS
    ensures PruneFrom(h, s, cs) == s
    ensures forall i :: 0 <= i < |cs| ==> !Removable(h, s, cs[i])
    decreases |cs|
  {
    if cs != [] {
      if Removable(h, s, cs[0]) {
        assert |Remove(s.devices, cs[0])| == MAX_RECORDS - 1;
      } else {
        PruneFails(h, s, cs[1..]);
      }
    }
  }

  /**
   * A full list stays full only when it can give way to nothing: no denied record remains, the
   * evidence is full, and no revoked record has its digest there already; then nothing changes.
   */
  lemma SlotFailsOnlyWhenFull(h: Hashing, s: State)
    requires |s.devices| == MAX_RECORDS
    ensures |Slot(h, s).devices| >= MAX_RECORDS <==>
              forall d :: d in s.devices ==>
                !d.status.Denied? && (d.status.Revoked? ==> |s.evidence| >= MAX_EVIDENCE && h.sha(d.key) !in s.evidence)
    ensures |Slot(h, s).devices| >= MAX_RECORDS ==> Slot(h, s) == s
  {
    var cs := Candidates(s.devices);
    forall i | 0 <= i < |cs|
      ensures cs[i] in s.devices
    {
      assert cs[i] in cs;
    }
    if |Slot(h, s).devices| >= MAX_RECORDS {
      PruneFails(h, s, cs);
      forall d | d in s.devices && (d.status.Denied? || d.status.Revoked?)
        ensures !Removable(h, s, d)
      {
        assert d in cs;
        var i :| 0 <= i < |cs| && cs[i] == d;
      }
    } else if forall i :: 0 <= i < |cs| ==> !Removable(h, s, cs[i]) {
      NothingRemovable(h, s, cs);
    } else {
      var i :| 0 <= i < |cs| && Removable(h, s, cs[i]);
      assert cs[i] in cs;
    }
  }

  lemma {:induction false} NothingRemovable(h: Hashing, s: State, cs: seq<Device>)
    requires forall i :: 0 <= i < |cs| ==> !Removable(h, s, cs[i])
    ensures PruneFrom(h, s, cs) == s
    decreases |cs|
  {
    if cs != [] {
      NothingRemovable(h, s, cs[1..]);
    }
  }

  // ---------------------------------------------------------- life of a record

  /** The latest clock reading of an operation. */
  function EndOf(op: Op): int {
    match op
    case OpApprove(_, _, now, later, _) => Max(now, later)
    case OpCancel(_, _) => 0
    case _ => op.now
  }

  /** What one operation may do to one record, by a time. */
  predicate Move(a: Device, b: Device, time: int) {
    b == a
    || (&& b.updated <= time && b.id == a.id && b.key == a.key && b.binding == a.binding && b.created == a.created
        && (|| (a.status.Pending? && b.status.Denied? && b.epoch == a.epoch + 1 && b.client == a.client)
            || (a.status.Pending? && b.status.Authorized? && b.epoch == a.epoch && b.client)
            || (!a.status.Revoked? && b.status.Revoked? && b.epoch == a.epoch + 1 && !b.client)))
  }

  predicate Moved(ds: seq<Device>, e: Device, time: int) {
    exists i :: 0 <= i < |ds| && Move(ds[i], e, time)
  }

  ghost predicate AllMoved(s: State, t: State, time: int) {
    forall j {:trigger t.devices[j]} :: 0 <= j < |t.devices| ==> Moved(s.devices, t.devices[j], time)
  }

  /** A consumption has added this record: its identifier is new among those kept, its key was never revoked. */
  ghost predicate Joins(h: Hashing, s: State, t: State, j: nat, op: Op)
    requires j < |t.devices|
  {
    && op.OpConsume? && t.devices[j] == NewDevice(h, op.id, op.key, op.binding, op.now)
    && (forall k {:trigger t.devices[k]} :: 0 <= k < |t.devices| && k != j ==> t.devices[k].id != op.id)
    && (forall i {:trigger s.devices[i]} :: 0 <= i < |s.devices| && s.devices[i].id == op.id ==> !s.devices[i].status.Authorized?)
    && !KeyRevoked(h, s, op.key)
  }

  /** Every later record is an earlier one after at most one move, or the one that a consumption has added. */
  ghost predicate Evolves(h: Hashing, s: State, t: State, op: Op) {
    forall j {:trigger t.devices[j]} :: 0 <= j < |t.devices| ==>
      Moved(s.devices, t.devices[j], EndOf(op)) || Joins(h, s, t, j, op)
  }

  lemma {:induction false} RemoveSubset(ds: seq<Device>, d: Device, e: Device)
    requires e in Remove(ds, d)
    ensures e in ds
  {
    if ds != [] && ds[0] != d && e != ds[0] {
      RemoveSubset(ds[1..], d, e);
    }
  }

  lemma {:induction false} PruneSubset(h: Hashing, s: State, cs: seq<Device>, e: Device)
    requires e in PruneFrom(h, s, cs).devices
    ensures e in s.devices
    decreases |cs|
  {
    if cs != [] {
      var t := Pruned(h, s, cs[0]);
      if !Removable(h, s, cs[0]) {
        PruneSubset(h, s, cs[1..], e);
      } else if |t.devices| < MAX_RECORDS {
        RemoveSubset(s.devices, cs[0], e);
      } else {
        PruneSubset(h, t, cs[1..], e);
        RemoveSubset(s.devices, cs[0], e);
      }
    }
  }

  lemma SlotMoves(h: Hashing, s: State, now: int, e: Device)
    requires e in Slot(h, Aged(s, now, MAX_TTL)).devices
    ensures Moved(s.devices, e, now)
  {
    var t := Aged(s, now, MAX_TTL);
    if |t.devices| >= MAX_RECORDS {
      PruneSubset(h, t, Candidates(t.devices), e);
    }
    var i :| 0 <= i < |t.devices| && t.devices[i] == e;
    assert Move(s.devices[i], e, now);
  }

  lemma SetMoves(s: State, i: nat, d: Device, time: int)
    requires i < |s.devices| && Move(s.devices[i], d, time)
    ensures AllMoved(s, SetDevice(s, i, d), time)
  {
    var t := SetDevice(s, i, d);
    forall j | 0 <= j < |t.devices|
      ensures Moved(s.devices, t.devices[j], time)
    {
      assert Move(s.devices[j], t.devices[j], time);
    }
  }

  lemma SameMoves(s: State, t: State, time: int)
    requires t.devices == s.devices
    ensures AllMoved(s, t, time)
  {
    forall j | 0 <= j < |t.devices|
      ensures Moved(s.devices, t.devices[j], time)
    {
      assert Move(s.devices[j], t.devices[j], time);
    }
  }

  lemma ExpiredMoves(s: State, now: int, maxAge: int)
    ensures AllMoved(s, Aged(s, now, maxAge), now)
  {
    var t := Aged(s, now, maxAge);
    forall j | 0 <= j < |t.devices|
      ensures Moved(s.devices, t.devices[j], now)
    {
      assert Move(s.devices[j], t.devices[j], now);
    }
  }

  lemma ApproveEvolves(h: Hashing, s: State, id: string, p: Proof, now: int, later: int, w: bool)
    ensures AllMoved(s, Approve(h, s, id, p, now, later, w).0, Max(now, later))
  {
    var t, u := Refreshed(s, now, w).0, Approve(h, s, id, p, now, later, w).0;
    ApproveShape(h, s, id, p, now, later, w);
    var i := Index(t.devices, id);
    forall j | 0 <= j < |u.devices|
      ensures Moved(s.devices, u.devices[j], Max(now, later))
    {
      assert Move(s.devices[j], u.devices[j], Max(now, later));
    }
  }

  lemma ExpireEvolves(s: State, maxAge: int, now: int, w: bool)
    ensures AllMoved(s, ExpireAll(s, maxAge, now, w).0, now)
  {
    SameMoves(s, s, now);
    ExpiredMoves(s, now, maxAge);
  }

  lemma CancelEvolves(s: State, id: string, w: bool)
    ensures AllMoved(s, CancelOffer(s, id, w).0, 0)
  {
    SameMoves(s, CancelOffer(s, id, w).0, 0);
  }

  /** Moves alone, with no record added. */
  lemma MovesEvolve(h: Hashing, s: State, t: State, op: Op)
    requires AllMoved(s, t, EndOf(op))
    ensures Evolves(h, s, t, op)
  {
  }

  lemma NextEvolves(h: Hashing, s: State, op: Op)
    ensures Evolves(h, s, Next(h, s, op).0, op)
  {
    if op.OpConsume? {
      ConsumeEvolves(h, s, op.capability, op.key, op.binding, op.identityOk, op.id, op.now, op.writes);
    } else {
      NextMoves(h, s, op);
      MovesEvolve(h, s, Next(h, s, op).0, op);
    }
  }

  lemma NextMoves(h: Hashing, s: State, op: Op)
    requires !op.OpConsume?
    ensures AllMoved(s, Next(h, s, op).0, EndOf(op))
  {
    match op
    case OpCreate(ttl, id, cap, now, w) => CreateEvolves(h, s, ttl, id, cap, now, w);
    case OpApprove(id, p, now, later, w) => ApproveEvolves(h, s, id, p, now, later, w);
    case OpDeny(id, now, w) => DenyEvolves(s, id, now, w);
    case OpRevoke(id, now, w) => RevokeEvolves(s, id, now, w);
    case OpExpire(maxAge, now, w) => ExpireEvolves(s, maxAge, now, w);
    case OpCancel(id, w) => CancelEvolves(s, id, w);
  }

  lemma CreateEvolves(h: Hashing, s: State, ttl: int, id: string, cap: string, now: int, w: bool)
    ensures AllMoved(s, CreateOffer(h, s, ttl, id, cap, now, w).0, now)
  {
    var t := CreateOffer(h, s, ttl, id, cap, now, w).0;
    SameMoves(s, s, now);
    if t.devices == Slot(h, Aged(s, now, MAX_TTL)).devices {
      SlotEvolves(h, s, now, t);
    }
  }

  lemma DenyEvolves(s: State, id: string, now: int, w: bool)
    ensures AllMoved(s, Deny(s, id, now, w).0, now)
  {
    SameMoves(s, s, now);
    var i := Index(s.devices, id);
    if i < |s.devices| && s.devices[i].status.Pending? {
      SetMoves(s, i, Expire(s.devices[i], now), now);
    }
  }

  lemma RevokeEvolves(s: State, id: string, now: int, w: bool)
    ensures AllMoved(s, Revoke(s, id, now, w).0, now)
  {
    SameMoves(s, s, now);
    var i := Index(s.devices, id);
    if i < |s.devices| && !s.devices[i].status.Revoked? {
      SetMoves(s, i, RevokedRecord(s.devices[i], now), now);
    }
  }

  lemma SlotEvolves(h: Hashing, s: State, now: int, t: State)
    requires t.devices == Slot(h, Aged(s, now, MAX_TTL)).devices
    ensures AllMoved(s, t, now)
  {
    forall j | 0 <= j < |t.devices|
      ensures Moved(s.devices, t.devices[j], now)
    {
      SlotMoves(h, s, now, t.devices[j]);
    }
  }

  /** Pruning never touches a pending or authorized record. */
  lemma {:induction false} PruneKeepsActive(h: Hashing, s: State, cs: seq<Device>, e: Device)
    requires e in s.devices && IsActive(e) && forall i :: 0 <= i < |cs| ==> !IsActive(cs[i])
    ensures e in PruneFrom(h, s, cs).devices
    decreases |cs|
  {
    if cs != [] {
      var t := Pruned(h, s, cs[0]);
      if !Removable(h, s, cs[0]) {
        PruneKeepsActive(h, s, cs[1..], e);
      } else {
        RemoveMembers(s.devices, cs[0], e);
        if |t.devices| >= MAX_RECORDS {
          PruneKeepsActive(h, t, cs[1..], e);
        }
      }
    }
  }

  lemma SlotKeepsAuthorized(h: Hashing, s: State, now: int, i: nat)
    requires i < |s.devices| && s.devices[i].status.Authorized?
    ensures s.devices[i] in Slot(h, Aged(s, now, MAX_TTL)).devices
  {
    var t := Aged(s, now, MAX_TTL);
    assert t.devices[i] == s.devices[i];
    var cs := Candidates(t.devices);
    forall j | 0 <= j < |cs|
      ensures !IsActive(cs[j])
    {
      assert cs[j] in cs;
    }
    if |t.devices| >= MAX_RECORDS {
      PruneKeepsActive(h, t, cs, t.devices[i]);
    }
  }

  lemma ConsumeEvolves(h: Hashing, s: State, cap: string, key: string, binding: string, ok: bool, id: string, now: int, w: bool)
    ensures Evolves(h, s, ConsumeOffer(h, s, cap, key, binding, ok, id, now, w).0, OpConsume(cap, key, binding, ok, id, now, w))
  {
    var t, u := ConsumeOffer(h, s, cap, key, binding, ok, id, now, w).0, Slot(h, Aged(s, now, MAX_TTL));
    if t.devices == s.devices {
      SameMoves(s, t, now);
    } else {
      SlotEvolves(h, s, now, u);
      var d := NewDevice(h, id, key, binding, now);
      SlotRemembers(h, s, now);
      assert t.devices == u.devices + [d];
      forall i | 0 <= i < |s.devices| && s.devices[i].id == id
        ensures !s.devices[i].status.Authorized?
      {
        if s.devices[i].status.Authorized? {
          SlotKeepsAuthorized(h, s, now, i);
        }
      }
      assert Joins(h, s, t, |u.devices|, OpConsume(cap, key, binding, ok, id, now, w));
    }
  }

  /** Epochs tell the number of moves: none while pending or authorized. */
  ghost predicate Counted(s: State) {
    forall i {:trigger s.devices[i]} :: 0 <= i < |s.devices| ==> CountedDevice(s.devices[i])
  }

  ghost predicate CountedDevice(d: Device) {
    match d.status
    case Pending => d.epoch == 0
    case Authorized => d.epoch == 0
    case Denied => d.epoch == 1
    case Revoked => 1 <= d.epoch <= 2
  }

  lemma NextCounts(h: Hashing, s: State, op: Op)
    requires Counted(s)
    ensures Counted(Next(h, s, op).0)
  {
    var t := Next(h, s, op).0;
    NextEvolves(h, s, op);
    forall j | 0 <= j < |t.devices|
      ensures CountedDevice(t.devices[j])
    {
      assert Moved(s.devices, t.devices[j], EndOf(op)) || Joins(h, s, t, j, op);
    }
  }

  /**
   * In every run from the empty state an authorized record has epoch 0; so an open always finds
   * the epoch that every earlier open of the device found, and never a stale one.
   */
  lemma AuthorizedEpochIsZero(h: Hashing, ops: seq<Op>, i: nat)
    requires i < |Run(Stepper(h), Empty, ops).0.devices|
    requires Run(Stepper(h), Empty, ops).0.devices[i].status.Authorized?
    ensures Run(Stepper(h), Empty, ops).0.devices[i].epoch == 0
  {
    EveryRunCounts(h, ops);
  }

  lemma EveryRunCounts(h: Hashing, ops: seq<Op>)
    ensures Counted(Run(Stepper(h), Empty, ops).0)
  {
    var inv := (s: State) => Counted(s);
    forall s, op | inv(s)
      ensures inv(Stepper(h)(s, op).0)
    {
      NextCounts(h, s, op);
    }
    RunInvariant(Stepper(h), inv, Empty, ops);
  }

  // ------------------------------------------------------ offers and approvals

  /**
   * A state with the records that appeared under each earlier offer (the first entry is the time
   * before any), those that appeared under the current one, and the identifiers vouched for.
   */
  datatype Book = Book(state: State, earlier: seq<seq<Device>>, current: seq<Device>, vouched: set<string>)

  const OpenBook := Book(Empty, [], [], {})

  /** The records of a state that no move of an earlier record explains. */
  function NewRecords(ds: seq<Device>, es: seq<Device>, time: int): (r: seq<Device>) {
    if es == [] then []
    else (if Moved(ds, es[0], time) then [] else [es[0]]) + NewRecords(ds, es[1..], time)
  }

  /** A proof that names the binding of a record: its whole digest, or the short fingerprint of it. */
  predicate Names(h: Hashing, p: Proof, binding: string) {
    (p.Digest? && p.digest == binding) || (p.Fingerprint? && p.short == h.fingerprint(binding))
  }

  /** An approval of a pending record under 600 seconds old, with a proof that names its binding. */
  predicate Vouches(h: Hashing, s: State, op: Op) {
    op.OpApprove? &&
    var i := Index(s.devices, op.id);
    i < |s.devices| && s.devices[i].status.Pending? && Names(h, op.proof, s.devices[i].binding)
    && op.now - s.devices[i].created < MAX_TTL
  }

  function BookNext(h: Hashing, b: Book, op: Op): (r: (Book, Option<Fault>)) {
    var (t, fault) := Next(h, b.state, op);
    var current := b.current + NewRecords(b.state.devices, t.devices, EndOf(op));
    var vouched := if Vouches(h, b.state, op) && fault.None? then b.vouched + {op.id}
                   else if op.OpConsume? && fault.None? then b.vouched - {op.id} else b.vouched;
    (if op.OpCreate? && fault.None? then Book(t, b.earlier + [current], [], vouched) else Book(t, b.earlier, current, vouched),
     fault)
  }

  function Booker(h: Hashing): (Book, Op) -> (Book, Option<Fault>) {
    (b, op) => BookNext(h, b, op)
  }

  /** No offer has yielded two records, and the current one, while active, none. */
  ghost predicate OffersSound(b: Book) {
    && (forall i {:trigger b.earlier[i]} :: 0 <= i < |b.earlier| ==> |b.earlier[i]| <= 1)
    && |b.current| <= 1
    && (b.state.offer.Some? && b.state.offer.value.status.Active? ==> b.current == [])
    && (b.earlier == [] ==> b.current == [] && b.state.offer.None?)
  }

  lemma {:induction false} NewRecordsAppend(ds: seq<Device>, es: seq<Device>, e: Device, time: int)
    ensures NewRecords(ds, es + [e], time) == NewRecords(ds, es, time) + NewRecords(ds, [e], time)
  {
    if es == [] {
      assert es + [e] == [e];
    } else {
      assert (es + [e])[1..] == es[1..] + [e];
      NewRecordsAppend(ds, es[1..], e, time);
    }
  }

  lemma {:induction false} NoNewRecords(ds: seq<Device>, es: seq<Device>, time: int)
    requires forall j :: 0 <= j < |es| ==> Moved(ds, es[j], time)
    ensures NewRecords(ds, es, time) == []
  {
    if es != [] {
      assert forall j :: 0 <= j < |es[1..]| ==> es[1..][j] == es[j + 1];
      NoNewRecords(ds, es[1..], time);
    }
  }

  /** Only a successful consumption brings a new record, and only one. */
  lemma NextYields(h: Hashing, s: State, op: Op)
    ensures var (t, fault) := Next(h, s, op);
            var news := NewRecords(s.devices, t.devices, EndOf(op));
            |news| <= 1 && (news != [] ==> op.OpConsume? && fault.None?)
  {
    var (t, fault) := Next(h, s, op);
    NextEvolves(h, s, op);
    if forall j :: 0 <= j < |t.devices| ==> Moved(s.devices, t.devices[j], EndOf(op)) {
      NoNewRecords(s.devices, t.devices, EndOf(op));
    } else {
      ConsumeYields(h, s, op);
    }
  }

  lemma ConsumeYields(h: Hashing, s: State, op: Op)
    requires op.OpConsume?
    ensures var (t, fault) := Next(h, s, op);
            |NewRecords(s.devices, t.devices, op.now)| <= 1 && (t.devices != s.devices ==> fault.None?)
  {
    var t, u := Next(h, s, op).0, Slot(h, Aged(s, op.now, MAX_TTL));
    var d := NewDevice(h, op.id, op.key, op.binding, op.now);
    if t.devices == s.devices {
      SameMoves(s, t, op.now);
      NoNewRecords(s.devices, t.devices, op.now);
    } else {
      assert t.devices == u.devices + [d];
      SlotEvolves(h, s, op.now, u);
      NoNewRecords(s.devices, u.devices, op.now);
      NewRecordsAppend(s.devices, u.devices, d, op.now);
      assert |NewRecords(s.devices, [d], op.now)| <= 1 by {
        assert [d][1..] == [];
      }
    }
  }

  lemma CreateOffers(h: Hashing, s: State, ttl: int, id: string, capability: string, now: int, w: bool)
    ensures var (t, r) := CreateOffer(h, s, ttl, id, capability, now, w);
            if r.Ok? then t.offer.Some? && t.offer.value.created == now else t == s
  {
  }

  lemma ConsumeOffers(h: Hashing, s: State, capability: string, key: string, binding: string, ok: bool, id: string, now: int, w: bool)
    ensures var (t, r) := ConsumeOffer(h, s, capability, key, binding, ok, id, now, w);
            && t.offer.Some? == s.offer.Some?
            && (r.Ok? ==> s.offer.Some? && s.offer.value.status.Active? && t.offer.value.status.Consumed?)
            && (t.offer.Some? && t.offer.value.status.Active? ==> t.offer == s.offer)
            && (t.offer.Some? ==> t.offer.value.created == s.offer.value.created)
  {
  }

  lemma ApproveOffers(h: Hashing, s: State, id: string, p: Proof, now: int, later: int, w: bool)
    ensures Approve(h, s, id, p, now, later, w).0.offer == s.offer
  {
    ApproveShape(h, s, id, p, now, later, w);
  }

  /** What an operation does to the offer. */
  lemma NextOffer(h: Hashing, s: State, op: Op)
    ensures var (t, fault) := Next(h, s, op);
            && (op.OpCreate? && fault.None? ==> t.offer.Some?)
            && (op.OpConsume? && fault.None? ==>
                  && s.offer.Some? && s.offer.value.status.Active?
                  && t.offer.Some? && t.offer.value.status.Consumed?)
            && (!(op.OpCreate? && fault.None?) ==>
                  && t.offer.Some? == s.offer.Some?
                  && (t.offer.Some? && t.offer.value.status.Active? ==> s.offer.value.status.Active?))
  {
    match op
    case OpCreate(ttl, id, cap, now, w) => CreateOffers(h, s, ttl, id, cap, now, w);
    case OpConsume(cap, key, binding, ok, id, now, w) => ConsumeOffers(h, s, cap, key, binding, ok, id, now, w);
    case OpApprove(id, p, now, later, w) => ApproveOffers(h, s, id, p, now, later, w);
    case _ =>
  }

  lemma BookKeepsOffers(h: Hashing, b: Book, op: Op)
    requires OffersSound(b)
    ensures OffersSound(BookNext(h, b, op).0)
  {
    NextOffer(h, b.state, op);
    NextYields(h, b.state, op);
  }

  /** In every run each offer yields at most one device record, and before the first offer none appears. */
  lemma OfferYieldsAtMostOneRecord(h: Hashing, ops: seq<Op>)
    ensures var b := Run(Booker(h), OpenBook, ops).0;
            && (forall i :: 0 <= i < |b.earlier| ==> |b.earlier[i]| <= 1)
            && |b.current| <= 1
            && (b.earlier == [] ==> b.current == [])
  {
    var inv := (b: Book) => OffersSound(b);
    forall b, op | inv(b)
      ensures inv(Booker(h)(b, op).0)
    {
      BookKeepsOffers(h, b, op);
    }
    RunInvariant(Booker(h), inv, OpenBook, ops);
  }

  ghost predicate AllVouched(b: Book) {
    forall i {:trigger b.state.devices[i]} :: 0 <= i < |b.state.devices| && b.state.devices[i].status.Authorized? ==>
      b.state.devices[i].id in b.vouched
  }

  /** A record becomes authorized only by an approval that vouches for it. */
  lemma BecomesAuthorized(h: Hashing, s: State, op: Op, j: nat)
    requires j < |Next(h, s, op).0.devices| && Next(h, s, op).0.devices[j].status.Authorized?
    ensures var d := Next(h, s, op).0.devices[j];
            d in s.devices || (Vouches(h, s, op) && op.id == d.id && Next(h, s, op).1.None?)
  {
    var t := Next(h, s, op).0;
    var d := t.devices[j];
    if d !in s.devices {
      if op.OpApprove? {
        ApproveVouches(h, s, op.id, op.proof, op.now, op.later, op.writes, j);
      } else {
        NextAuthorizes(h, s, op, j);
      }
    }
  }

  lemma ApproveVouches(h: Hashing, s: State, id: string, p: Proof, now: int, later: int, w: bool, j: nat)
    requires var u := Approve(h, s, id, p, now, later, w).0; j < |u.devices| && u.devices[j].status.Authorized?
    requires Approve(h, s, id, p, now, later, w).0.devices[j] !in s.devices
    ensures Vouches(h, s, OpApprove(id, p, now, later, w)) && Approve(h, s, id, p, now, later, w).0.devices[j].id == id
    ensures Approve(h, s, id, p, now, later, w).1.Ok?
  {
    var t, u := Refreshed(s, now, w).0, Approve(h, s, id, p, now, later, w).0;
    ApproveShape(h, s, id, p, now, later, w);
    assert u.devices[j] != s.devices[j];
    var i := Index(t.devices, id);
    assert i == j;
    assert t.devices[i] == s.devices[i];
    SameIndex(s.devices, t.devices, id);
  }

  lemma SameIndex(ds: seq<Device>, es: seq<Device>, id: string)
    requires |ds| == |es| && forall i :: 0 <= i < |ds| ==> ds[i].id == es[i].id
    ensures Index(ds, id) == Index(es, id)
  {
  }

  lemma NextAuthorizes(h: Hashing, s: State, op: Op, j: nat)
    requires !op.OpApprove? && j < |Next(h, s, op).0.devices| && Next(h, s, op).0.devices[j].status.Authorized?
    ensures Next(h, s, op).0.devices[j] in s.devices
  {
    var t := Next(h, s, op).0;
    var d := t.devices[j];
    match op
    case OpCreate(_, _, _, now, _) => if d !in s.devices { SlotAuthorized(h, s, now, d); }
    case OpConsume(_, _, _, _, _, now, _) => if d !in s.devices { SlotAuthorized(h, s, now, d); }
    case _ =>
  }

  lemma SlotAuthorized(h: Hashing, s: State, now: int, d: Device)
    requires d in Slot(h, Aged(s, now, MAX_TTL)).devices && d.status.Authorized?
    ensures d in s.devices
  {
    var t := Aged(s, now, MAX_TTL);
    if |t.devices| >= MAX_RECORDS {
      PruneSubset(h, t, Candidates(t.devices), d);
    }
    var i :| 0 <= i < |t.devices| && t.devices[i] == d;
    assert s.devices[i] == d;
  }

  lemma BookKeepsVouched(h: Hashing, b: Book, op: Op)
    requires AllVouched(b)
    ensures AllVouched(BookNext(h, b, op).0)
  {
    var c := BookNext(h, b, op).0;
    forall j | 0 <= j < |c.state.devices| && c.state.devices[j].status.Authorized?
      ensures c.state.devices[j].id in c.vouched
    {
      BecomesAuthorized(h, b.state, op, j);
      var d := c.state.devices[j];
      if d in b.state.devices {
        assert d.id in b.vouched;
        if op.OpConsume? && Next(h, b.state, op).1.None? {
          NewIdIsNew(h, b.state, op, j);
        }
      }
    }
  }

  lemma NewIdIsNew(h: Hashing, s: State, op: Op, j: nat)
    requires op.OpConsume? && Next(h, s, op).1.None?
    requires j < |Next(h, s, op).0.devices| && Next(h, s, op).0.devices[j].status.Authorized?
    ensures Next(h, s, op).0.devices[j].id != op.id
  {
    var u := Slot(h, Aged(s, op.now, MAX_TTL));
    assert Next(h, s, op).0.devices == u.devices + [NewDevice(h, op.id, op.key, op.binding, op.now)];
  }

  /**
   * In every run from the empty state each authorized record was approved, while pending and under
   * 600 seconds old, with its own binding digest or the fingerprint of it.
   */
  lemma AuthorizedWasVouchedFor(h: Hashing, ops: seq<Op>)
    ensures AllVouched(Run(Booker(h), OpenBook, ops).0)
  {
    var inv := (b: Book) => AllVouched(b);
    forall b, op | inv(b)
      ensures inv(Booker(h)(b, op).0)
    {
      BookKeepsVouched(h, b, op);
    }
    RunInvariant(Booker(h), inv, OpenBook, ops);
  }

  // --------------------------------------------------------------- validity

  lemma {:induction false} ActiveSet(ds: seq<Device>, i: nat, d: Device)
    requires i < |ds| && (IsActive(d) ==> IsActive(ds[i]))
    ensures ActiveCount(ds[i := d]) <= ActiveCount(ds)
  {
    if i > 0 {
      assert ds[i := d][1..] == ds[1..][i - 1 := d];
      ActiveSet(ds[1..], i - 1, d);
    } else {
      assert ds[i := d][1..] == ds[1..];
    }
  }

  lemma {:induction false} ActiveExpired(ds: seq<Device>, now: int, maxAge: int)
    ensures ActiveCount(ExpirePending(ds, now, maxAge)) <= ActiveCount(ds)
  {
    if ds != [] {
      ActiveExpired(ds[1..], now, maxAge);
      assert ExpirePending(ds, now, maxAge)[1..] == ExpirePending(ds[1..], now, maxAge);
    }
  }

  lemma {:induction false} ActiveRemoved(ds: seq<Device>, d: Device)
    ensures ActiveCount(Remove(ds, d)) <= ActiveCount(ds)
  {
    if ds != [] && ds[0] != d {
      ActiveRemoved(ds[1..], d);
      assert Remove(ds, d)[1..] == Remove(ds[1..], d);
    }
  }

  lemma {:induction false} ActiveAppend(ds: seq<Device>, d: Device)
    ensures ActiveCount(ds + [d]) == ActiveCount(ds) + (if IsActive(d) then 1 else 0)
  {
    if ds == [] {
      assert ds + [d] == [d] && [d][1..] == [];
    } else {
      assert (ds + [d])[1..] == ds[1..] + [d];
      ActiveAppend(ds[1..], d);
    }
  }

  lemma {:induction false} RemoveUnique(ds: seq<Device>, d: Device)
    requires UniqueIds(ds)
    ensures UniqueIds(Remove(ds, d)) && |Remove(ds, d)| <= |ds|
    ensures forall i :: 0 <= i < |Remove(ds, d)| ==> Remove(ds, d)[i] in ds
  {
    if ds != [] {
      var r := Remove(ds, d);
      if ds[0] != d {
        assert UniqueIds(ds[1..]);
        RemoveUnique(ds[1..], d);
        forall i | 0 < i < |r|
          ensures r[i].id != ds[0].id && r[i] in ds
        {
          assert r[i] in ds[1..];
          var j :| 0 <= j < |ds[1..]| && ds[1..][j] == r[i];
          assert ds[j + 1] == r[i];
        }
      }
    }
  }

  lemma PrunedIsValid(h: Hashing, s: State, d: Device)
    requires Valid(s) && Removable(h, s, d)
    ensures Valid(Pruned(h, s, d))
  {
    RemoveUnique(s.devices, d);
    ActiveRemoved(s.devices, d);
    var t := Pruned(h, s, d);
    forall i | 0 <= i < |t.devices|
      ensures ValidDevice(t.devices[i])
    {
      var j :| 0 <= j < |s.devices| && s.devices[j] == t.devices[i];
    }
  }

  lemma {:induction false} PruneIsValid(h: Hashing, s: State, cs: seq<Device>)
    requires Valid(s)
    ensures Valid(PruneFrom(h, s, cs)) && PruneFrom(h, s, cs).offer == s.offer
    decreases |cs|
  {
    if cs != [] {
      if !Removable(h, s, cs[0]) {
        PruneIsValid(h, s, cs[1..]);
      } else {
        PrunedIsValid(h, s, cs[0]);
        PruneIsValid(h, Pruned(h, s, cs[0]), cs[1..]);
      }
    }
  }

  /** A clock reading that no record and no offer is ahead of, with room to count. */
  ghost predicate Reads(s: State, now: int) {
    && 1 <= now <= MAX_INT - MAX_TTL
    && (forall i {:trigger s.devices[i]} :: 0 <= i < |s.devices| ==> s.devices[i].updated <= now)
    && (s.offer.Some? ==> s.offer.value.created <= now)
  }

  lemma ExpiredIsValid(s: State, now: int, maxAge: int)
    requires Valid(s) && Counted(s) && Reads(s, now)
    ensures Valid(Aged(s, now, maxAge))
  {
    ActiveExpired(s.devices, now, maxAge);
    var t := Aged(s, now, maxAge);
    forall i | 0 <= i < |t.devices|
      ensures ValidDevice(t.devices[i]) && t.devices[i].id == s.devices[i].id
    {
      assert ValidDevice(s.devices[i]) && CountedDevice(s.devices[i]);
    }
  }

  lemma SlotIsValid(h: Hashing, s: State, now: int)
    requires Valid(s) && Counted(s) && Reads(s, now)
    ensures Valid(Slot(h, Aged(s, now, MAX_TTL)))
  {
    ExpiredIsValid(s, now, MAX_TTL);
    PruneIsValid(h, Aged(s, now, MAX_TTL), Candidates(Aged(s, now, MAX_TTL).devices));
  }

  lemma SetIsValid(s: State, i: nat, d: Device)
    requires Valid(s) && i < |s.devices| && d.id == s.devices[i].id && ValidDevice(d) && (IsActive(d) ==> IsActive(s.devices[i]))
    ensures Valid(SetDevice(s, i, d))
  {
    ActiveSet(s.devices, i, d);
  }

  /**
   * With a positive clock that never runs backwards, no transition is refused by validation,
   * whether its write works or fails.
   */
  lemma NeverRefused(h: Hashing, s: State, op: Op, now: int)
    requires Valid(s) && Counted(s) && Reads(s, now)
    requires op.OpCancel? || op.now == now
    requires op.OpApprove? ==> now <= op.later <= MAX_INT
    ensures Next(h, s, op).1 != Some(Refused)
  {
    match op
    case OpCreate(ttl, id, cap, _, w) => CreateNotRefused(h, s, ttl, id, cap, now, w);
    case OpConsume(cap, key, binding, ok, id, _, w) => ConsumeNotRefused(h, s, cap, key, binding, ok, id, now, w);
    case OpApprove(id, p, _, later, w) => ApproveIsValid(h, s, id, p, now, later, w);
    case OpDeny(id, _, w) => DenyNotRefused(s, id, now, w);
    case OpRevoke(id, _, w) => RevokeNotRefused(s, id, now, w);
    case OpExpire(maxAge, _, _) => ExpiredIsValid(s, now, maxAge);
    case OpCancel(id, _) =>
  }

  lemma CreateNotRefused(h: Hashing, s: State, ttl: int, id: string, cap: string, now: int, w: bool)
    requires Valid(s) && Counted(s) && Reads(s, now)
    ensures CreateOffer(h, s, ttl, id, cap, now, w).1 != Err(Refused)
  {
    SlotIsValid(h, s, now);
  }

  lemma ConsumeNotRefused(h: Hashing, s: State, cap: string, key: string, binding: string, ok: bool, id: string, now: int, w: bool)
    requires Valid(s) && Counted(s) && Reads(s, now)
    ensures ConsumeOffer(h, s, cap, key, binding, ok, id, now, w).1 != Err(Refused)
  {
    if s.offer.Some? {
      ConsumeIsValid(h, s, key, binding, id, now);
    }
  }

  lemma DenyNotRefused(s: State, id: string, now: int, w: bool)
    requires Valid(s) && Counted(s) && Reads(s, now)
    ensures Deny(s, id, now, w).1 != Err(Refused)
  {
    var i := Index(s.devices, id);
    if i < |s.devices| && s.devices[i].status.Pending? {
      assert ValidDevice(s.devices[i]) && CountedDevice(s.devices[i]);
      SetIsValid(s, i, Expire(s.devices[i], now));
    }
  }

  lemma RevokeNotRefused(s: State, id: string, now: int, w: bool)
    requires Valid(s) && Counted(s) && Reads(s, now)
    ensures Revoke(s, id, now, w).1 != Err(Refused)
  {
    var i := Index(s.devices, id);
    if i < |s.devices| && !s.devices[i].status.Revoked? {
      RevokeRefusedIff(s, id, now, w);
    }
  }

  lemma ConsumeIsValid(h: Hashing, s: State, key: string, binding: string, id: string, now: int)
    requires Valid(s) && Counted(s) && Reads(s, now) && s.offer.Some?
    ensures var t := Slot(h, Aged(s, now, MAX_TTL));
            ActiveCount(t.devices) < MAX_ACTIVE && |t.devices| < MAX_RECORDS && Index(t.devices, id) == |t.devices| ==>
              Valid(t.(devices := t.devices + [NewDevice(h, id, key, binding, now)],
                       offer := Some(s.offer.value.(status := Consumed, consumedAt := now))))
    ensures s.offer.value.status.Active? ==> Valid(s.(offer := Some(s.offer.value.(status := OfferStatus.Expired))))
  {
    SlotIsValid(h, s, now);
    var t := Slot(h, Aged(s, now, MAX_TTL));
    ActiveAppend(t.devices, NewDevice(h, id, key, binding, now));
  }

  lemma ApproveIsValid(h: Hashing, s: State, id: string, p: Proof, now: int, later: int, w: bool)
    requires Valid(s) && Counted(s) && Reads(s, now) && now <= later <= MAX_INT
    ensures Approve(h, s, id, p, now, later, w).1 != Err(Refused)
  {
    ExpiredIsValid(s, now, MAX_TTL);
    var t := Refreshed(s, now, w).0;
    var i := Index(t.devices, id);
    if i < |t.devices| && t.devices[i].status.Pending? {
      assert t.devices[i] == s.devices[i];
      SetIsValid(t, i, ApprovedRecord(t.devices[i], later));
    }
  }

  /** Without the clock's promise a revocation is refused exactly when the clock is behind the record. */
  lemma RevokeRefusedIff(s: State, id: string, now: int, writes: bool)
    requires Valid(s) && Counted(s) && InRange(now)
    requires var i := Index(s.devices, id); i < |s.devices| && !s.devices[i].status.Revoked?
    ensures Revoke(s, id, now, writes).1 == Err(Refused) <==> now < s.devices[Index(s.devices, id)].created
  {
    var i := Index(s.devices, id);
    assert ValidDevice(s.devices[i]) && CountedDevice(s.devices[i]);
    var d := RevokedRecord(s.devices[i], now);
    if s.devices[i].created <= now {
      SetIsValid(s, i, d);
    } else {
      assert SetDevice(s, i, d).devices[i] == d;
    }
  }

  // ------------------------------------------------------------- timed runs

  /** Operations whose clock readings start at a time and never go back. */
  predicate Timed(clock: int, ops: seq<Op>)
    decreases |ops|
  {
    ops == [] ||
    (&& (ops[0].OpCancel? || clock <= ops[0].now)
     && (ops[0].OpApprove? ==> ops[0].now <= ops[0].later)
     && EndOf(ops[0]) <= MAX_INT - MAX_TTL
     && Timed(Max(clock, EndOf(ops[0])), ops[1..]))
  }

  lemma NextIsValid(h: Hashing, s: State, op: Op)
    requires Valid(s)
    ensures Valid(Next(h, s, op).0)
  {
    if op.OpApprove? {
      ApproveShape(h, s, op.id, op.proof, op.now, op.later, op.writes);
    }
  }

  lemma NextReads(h: Hashing, s: State, op: Op, clock: int)
    requires Reads(s, clock) && EndOf(op) <= clock
    ensures Reads(Next(h, s, op).0, clock)
  {
    var t := Next(h, s, op).0;
    NextEvolves(h, s, op);
    forall j | 0 <= j < |t.devices|
      ensures t.devices[j].updated <= clock
    {
      assert Moved(s.devices, t.devices[j], EndOf(op)) || Joins(h, s, t, j, op);
    }
    OfferTime(h, s, op);
  }

  lemma OfferTime(h: Hashing, s: State, op: Op)
    ensures var t := Next(h, s, op).0;
            t.offer.Some? ==> (s.offer.Some? && t.offer.value.created == s.offer.value.created)
                              || (op.OpCreate? && t.offer.value.created == op.now)
  {
    match op
    case OpCreate(ttl, id, cap, now, w) => CreateOffers(h, s, ttl, id, cap, now, w);
    case OpConsume(cap, key, binding, ok, id, now, w) => ConsumeOffers(h, s, cap, key, binding, ok, id, now, w);
    case OpApprove(id, p, now, later, w) => ApproveOffers(h, s, id, p, now, later, w);
    case _ =>
  }

  lemma {:induction false} TimedRunFrom(h: Hashing, s: State, clock: int, ops: seq<Op>, k: nat)
    requires Valid(s) && Counted(s) && Reads(s, clock) && Timed(clock, ops) && k < |ops|
    ensures Run(Stepper(h), s, ops).1[k] != Some(Refused)
    decreases |ops|
  {
    var op := ops[0];
    var now := if op.OpCancel? then clock else op.now;
    var end := Max(clock, EndOf(op));
    var (t, fault) := Next(h, s, op);
    assert Run(Stepper(h), s, ops).1 == [fault] + Run(Stepper(h), t, ops[1..]).1;
    if k == 0 {
      NeverRefused(h, s, op, now);
    } else {
      NextIsValid(h, s, op);
      NextCounts(h, s, op);
      NextReads(h, s, op, end);
      TimedRunFrom(h, t, end, ops[1..], k - 1);
    }
  }

  /** Over every run with such a clock, whatever writes fail, validation never refuses anything. */
  lemma TimedRunIsNeverRefused(h: Hashing, ops: seq<Op>, k: nat)
    requires Timed(1, ops) && k < |ops|
    ensures Run(Stepper(h), Empty, ops).1[k] != Some(Refused)
  {
    TimedRunFrom(h, Empty, 1, ops, k);
  }
}
