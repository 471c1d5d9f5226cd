/**
 * Admission of controllers against concurrent revocation. Opens run one at a time under the
 * admission lock and suspend at several points; revocations, pairings and approvals of the
 * repository, lease releases and their cleanup interleave with them at every suspension. Each
 * step is one stretch without suspension.
 */
module Admission {
  import opened Common
  import opened Machine
  import Auth = Authorization
  import opened Rev = Revocation

  type Device = string

  /** A lease: fenced when released; settled once its cleanup has ended, well or not. */
  datatype Lease = Lease(device: Device, key: string, channel: string, epoch: int,
                         released: bool, settled: bool, succeeded: bool)

  /** Where the open that holds the lock is suspended. */
  datatype Phase =
    | AwaitStale(pending: set<nat>)      // releasing the leases of an older epoch
    | AwaitSupersede(former: nat)        // releasing the lease that this open replaces
    | AwaitRuntime                       // waiting for a new controller
    | AwaitCleanup(failed: nat)          // releasing a lease that could not be registered or attached
    | AwaitReject(pending: set<nat>)     // releasing every lease of the device before refusing it

  /** An open: the device it names, the static key of its channel, what it asks for, and the epoch found. */
  datatype Open = Open(device: Device, key: string, channel: string, recovery: bool, resumes: bool, epoch: int)

  datatype Holder = Holder(open: Open, phase: Phase)

  /**
   * A revocation past its repository update, waiting for the leases it found; the key of its
   * record, if there was one, and whether a later pairing has drawn its identifier anew.
   */
  datatype Revocation = Revocation(device: Device, key: Option<string>, pending: set<nat>, returned: bool, redrawn: bool)

  datatype Admitted = Admitted(device: Device, key: string, lease: nat)

  /** The history `unseen` holds the leases whose last check raised while their device was not authorized. */
  datatype State = State(
    repo: Auth.State,
    leases: seq<Lease>, registry: map<(Device, string), nat>,
    lock: Option<Holder>, revocations: seq<Revocation>, admissions: seq<Admitted>, unseen: set<nat>)

  /** The leases a device still owns: registered and not cleaned up with success. */
  function LeasesFor(s: State, d: Device): (ls: set<nat>) {
    set k | k in s.registry && k.0 == d && s.registry[k] < |s.leases| && !s.leases[s.registry[k]].succeeded :: s.registry[k]
  }

  predicate Registered(s: State, k: (Device, string)) {
    k in s.registry && s.registry[k] < |s.leases| && !s.leases[s.registry[k]].succeeded
  }

  predicate IsAuthorized(s: State, o: Open) {
    Auth.IsAuthorized(s.repo, o.device, o.key)
  }

  /** The epoch under which a device is authorized. */
  function EpochOf(s: State, d: Device): (e: Option<int>) {
    var i := Auth.Index(s.repo.devices, d);
    if i < |s.repo.devices| && s.repo.devices[i].status.Authorized? then Some(s.repo.devices[i].epoch) else None
  }

  predicate AllSettled(s: State, pending: set<nat>) {
    forall l :: l in pending ==> l < |s.leases| && s.leases[l].settled
  }

  predicate AllSucceeded(s: State, pending: set<nat>) {
    forall l :: l in pending ==> l < |s.leases| && s.leases[l].succeeded
  }

  // -------------------------------------------------------- parts of an open

  /**
   * What the last check meets: whether the two reads of the repository return rather than raise,
   * what the profile authorizer answers or None if it raises, and whether the channel is still unclaimed.
   */
  datatype LastCheck = LastCheck(answers: bool, epochAnswers: bool, profile: Option<bool>, marked: bool)

  /** An open that ends without releasing anything. */
  function Dropped(s: State): State {
    s.(lock := None)
  }

  function Rejecting(s: State, o: Open): State {
    s.(lock := Some(Holder(o, AwaitReject(LeasesFor(s, o.device)))))
  }

  /** The last check of an open: authorization, epoch and profile again, then admission without suspension. */
  function Concluded(s: State, o: Open, l: nat, c: LastCheck): State {
    if !c.answers then Dropped(s).(unseen := if IsAuthorized(s, o) then s.unseen else s.unseen + {l})
    else if !IsAuthorized(s, o) then Rejecting(s, o)
    else if !c.epochAnswers || EpochOf(s, o.device).None? then Dropped(s)
    else if EpochOf(s, o.device) != Some(o.epoch) then Rejecting(s, o)
    else if c.profile.None? then Dropped(s)
    else if !c.profile.value then Rejecting(s, o)
    else if !c.marked then Dropped(s)
    else s.(lock := None, admissions := s.admissions + [Admitted(o.device, o.key, l)])
  }

  /** A fresh open first releases the lease it supersedes, if there is one. */
  function FreshOpen(s: State, o: Open): State {
    var k := (o.device, o.channel);
    s.(lock := Some(Holder(o, if Registered(s, k) then AwaitSupersede(s.registry[k]) else AwaitRuntime)))
  }

  function Reattached(s: State, o: Open, attaches: bool, c: LastCheck): State {
    var k := (o.device, o.channel);
    if Registered(s, k) && !s.leases[s.registry[k]].released && attaches
    then Concluded(s, o, s.registry[k], c) else Dropped(s)
  }

  /** A fresh lease or the existing one, by what the open asks for. */
  function Chosen(s: State, o: Open, found: bool, attaches: bool, c: LastCheck): State {
    if (o.recovery && !found) || !(o.resumes || o.recovery) then FreshOpen(s, o) else Reattached(s, o, attaches, c)
  }

  /** An open that gets the lock; `willing` stands for everything else its first checks look at. */
  function Begun(s: State, device: Device, key: string, channel: string, recovery: bool, resumes: bool,
                 willing: bool, attaches: bool, c: LastCheck): State {
    var k := (device, channel);
    var epoch := EpochOf(s, device);
    if s.lock.Some? || !willing || epoch.None? || !Auth.IsAuthorized(s.repo, device, key) then s
    else
      var o := Open(device, key, channel, recovery, resumes, epoch.value);
      if Registered(s, k) && s.leases[s.registry[k]].epoch != epoch.value
      then s.(lock := Some(Holder(o, AwaitStale(LeasesFor(s, device)))))
      else Chosen(s, o, Registered(s, k), attaches, c)
  }

  function NewLease(o: Open): Lease {
    Lease(o.device, o.key, o.channel, o.epoch, false, false, false)
  }

  /** A controller has arrived: its lease is registered and attached, or released again. */
  function Arrived(s: State, o: Open, registers: bool, attaches: bool, c: LastCheck): State {
    var k := (o.device, o.channel);
    var l := |s.leases|;
    var t := s.(leases := s.leases + [NewLease(o)]);
    if !registers || Registered(s, k) then t.(lock := Some(Holder(o, AwaitCleanup(l))))
    else
      var u := t.(registry := t.registry[k := l]);
      if !attaches then u.(lock := Some(Holder(o, AwaitCleanup(l)))) else Concluded(u, o, l, c)
  }

  /** The continuation of the open that holds the lock, when what it waits for has happened. */
  function Continued(s: State, h: Holder, arrived: bool, registers: bool, attaches: bool, c: LastCheck): State {
    match h.phase
    case AwaitStale(p) =>
      if !AllSettled(s, p) then s
      else if !AllSucceeded(s, p) then Dropped(s) else Chosen(s, h.open, false, attaches, c)
    case AwaitSupersede(l) =>
      if !AllSettled(s, {l}) then s
      else if !AllSucceeded(s, {l}) then Dropped(s) else s.(lock := Some(h.(phase := AwaitRuntime)))
    case AwaitRuntime => if arrived then Arrived(s, h.open, registers, attaches, c) else Dropped(s)
    case AwaitCleanup(l) => if AllSettled(s, {l}) then Dropped(s) else s
    case AwaitReject(p) => if AllSettled(s, p) then Dropped(s) else s
  }

  // ------------------------------------------------------------------ steps

  datatype Op =
    | Begin(device: Device, key: string, channel: string, recovery: bool, resumes: bool, willing: bool, attaches: bool, check: LastCheck)
    | Continue(arrived: bool, registers: bool, attaches: bool, check: LastCheck)
    | Repo(op: Auth.Op)
    | RevokeReturns(r: nat)
    | Fence(l: nat)
    | Settle(l: nat, ok: bool)
    | Prune

  /** A successful pairing notes, for every revocation of the identifier it drew, that it was drawn anew. */
  function Noted(revs: seq<Revocation>, op: Auth.Op): (r: seq<Revocation>)
    ensures |r| == |revs|
    ensures forall i {:trigger r[i]} {:trigger revs[i]} :: 0 <= i < |revs| ==>
              r[i] == revs[i].(redrawn := revs[i].redrawn || Draws(op, revs[i].device))
  {
    seq(|revs|, i requires 0 <= i < |revs| => revs[i].(redrawn := revs[i].redrawn || Draws(op, revs[i].device)))
  }

  /** A revocation updates the repository and asks for the release of every lease of the device. */
  function RevokeBegins(s: State, repo: Auth.State, id: Device, found: Option<Auth.Device>): State {
    var key := if found.Some? then Some(found.value.key) else None;
    s.(repo := repo, revocations := s.revocations + [Revocation(id, key, LeasesFor(s, id), false, false)])
  }

  function RepoStep(h: Auth.Hashing, s: State, op: Auth.Op): State {
    if op.OpRevoke? then
      var (repo, r) := Auth.Revoke(s.repo, op.id, op.now, op.writes);
      if r.Err? then s else RevokeBegins(s, repo, op.id, r.value)
    else
      var (repo, fault) := Auth.Next(h, s.repo, op);
      s.(repo := repo, revocations := if fault.None? then Noted(s.revocations, op) else s.revocations)
  }

  function Step(h: Auth.Hashing, s: State, op: Op): (t: State) {
    match op
    case Begin(device, key, channel, recovery, resumes, willing, attaches, c) =>
      Begun(s, device, key, channel, recovery, resumes, willing, attaches, c)
    case Continue(arrived, registers, attaches, c) =>
      if s.lock.Some? then Continued(s, s.lock.value, arrived, registers, attaches, c) else s
    case Repo(o) => RepoStep(h, s, o)
    case RevokeReturns(r) =>
      if r < |s.revocations| && AllSettled(s, s.revocations[r].pending) && AllSucceeded(s, s.revocations[r].pending)
      then s.(revocations := s.revocations[r := s.revocations[r].(returned := true)]) else s
    case Fence(l) => if l < |s.leases| then s.(leases := s.leases[l := s.leases[l].(released := true)]) else s
    case Settle(l, ok) =>
      if l < |s.leases| && s.leases[l].released && !s.leases[l].settled
      then s.(leases := s.leases[l := s.leases[l].(settled := true, succeeded := ok)]) else s
    case Prune => s.(registry := map k | k in s.registry && Registered(s, k) :: s.registry[k])
  }

  function Stepper(h: Auth.Hashing): (State, Op) -> (State, ()) {
    (s, op) => (Step(h, s, op), ())
  }

  const Initial := State(Auth.Empty, [], map[], None, [], [], {})

  // -------------------------------------------------------------- invariant

  /** The lock holder will not let go before this lease is settled. */
  ghost predicate LockCovers(s: State, l: nat) {
    s.lock.Some? && (match s.lock.value.phase
                     case AwaitReject(p) => l in p
                     case AwaitCleanup(failed) => l == failed
                     case _ => false)
  }

  ghost predicate Sound(l: Lease) {
    (l.settled ==> l.released) && (l.succeeded ==> l.settled) && l.epoch == 0
  }

  /** An unreleased lease is still registered under its key, or the lock holder is about to release it. */
  ghost predicate Owned(s: State, l: nat)
    requires l < |s.leases|
  {
    !s.leases[l].released ==>
      (var k := (s.leases[l].device, s.leases[l].channel); k in s.registry && s.registry[k] == l) || LockCovers(s, l)
  }

  /**
   * A revocation covers a lease of its device, unless the lease belongs to another key and the
   * device identifier has been drawn anew since.
   */
  predicate Covers(r: Revocation, device: Device, key: string) {
    r.device == device && (r.key == Some(key) || !r.redrawn)
  }

  /**
   * A revocation that covers an unreleased lease waits for it, or the lock holder does, or its last
   * check did not see it.
   */
  ghost predicate Chased(s: State, l: nat, r: nat)
    requires l < |s.leases| && r < |s.revocations|
  {
    !s.leases[l].released && Covers(s.revocations[r], s.leases[l].device, s.leases[l].key) ==>
      l in s.revocations[r].pending || LockCovers(s, l) || l in s.unseen
  }

  /** What a revocation has settled in the repository. */
  ghost predicate Settled(h: Auth.Hashing, repo: Auth.State, r: Revocation) {
    (r.key.Some? ==> Barred(h, repo, r.device, r.key.value)) && (!r.redrawn ==> Retired(repo, r.device))
  }

  ghost predicate RepoInv(h: Auth.Hashing, s: State) {
    && Auth.Valid(s.repo) && Auth.Counted(s.repo)
    && (forall r {:trigger s.revocations[r]} :: 0 <= r < |s.revocations| ==> Settled(h, s.repo, s.revocations[r]))
  }

  ghost predicate LeaseInv(s: State) {
    && (forall r {:trigger s.revocations[r]} :: 0 <= r < |s.revocations| && s.revocations[r].returned ==>
          AllSettled(s, s.revocations[r].pending))
    && (forall l {:trigger s.leases[l]} :: 0 <= l < |s.leases| ==> Sound(s.leases[l]) && Owned(s, l))
    && (forall l, r {:trigger s.leases[l], s.revocations[r]} ::
          0 <= l < |s.leases| && 0 <= r < |s.revocations| ==> Chased(s, l, r))
  }

  /** The open that holds the lock found epoch 0, and so no stale lease. */
  ghost predicate LockInv(s: State) {
    s.lock.Some? ==> s.lock.value.open.epoch == 0 && !s.lock.value.phase.AwaitStale?
  }

  ghost predicate Inv(h: Auth.Hashing, s: State) {
    RepoInv(h, s) && LeaseInv(s) && LockInv(s)
  }

  /** No revocation covers a pair that is authorized. */
  lemma AuthorizedIsNotCovered(h: Auth.Hashing, s: State, d: Device, key: string, r: nat)
    requires RepoInv(h, s) && Auth.IsAuthorized(s.repo, d, key) && r < |s.revocations|
    ensures !Covers(s.revocations[r], d, key)
  {
    assert Settled(h, s.repo, s.revocations[r]);
  }

  lemma AuthorizedEpoch(s: State, d: Device)
    requires Auth.Counted(s.repo)
    ensures EpochOf(s, d).Some? ==> EpochOf(s, d).value == 0
  {
    var i := Auth.Index(s.repo.devices, d);
    if i < |s.repo.devices| {
      assert Auth.CountedDevice(s.repo.devices[i]);
    }
  }

  /** The leases found for a device include every unreleased one that is registered. */
  lemma FoundIfRegistered(s: State, l: nat)
    requires l < |s.leases| && Sound(s.leases[l]) && !s.leases[l].released
    requires var k := (s.leases[l].device, s.leases[l].channel); k in s.registry && s.registry[k] == l
    ensures l in LeasesFor(s, s.leases[l].device)
  {
    var k := (s.leases[l].device, s.leases[l].channel);
    assert k.0 == s.leases[l].device;
  }

  /** Changing only the lock, to a phase that covers what the former phase covered. */
  lemma LockKeeps(s: State, t: State)
    requires LeaseInv(s) && t == s.(lock := t.lock, admissions := t.admissions, unseen := t.unseen) && s.unseen <= t.unseen
    requires forall l {:trigger s.leases[l]} :: 0 <= l < |s.leases| && LockCovers(s, l) && !s.leases[l].released ==> LockCovers(t, l)
    ensures LeaseInv(t)
  {
    forall l | 0 <= l < |t.leases|
      ensures Owned(t, l)
    {
      assert Owned(s, l);
    }
    forall l, r | 0 <= l < |t.leases| && 0 <= r < |t.revocations|
      ensures Chased(t, l, r)
    {
      assert Chased(s, l, r);
    }
  }

  /**
   * A lease is added, registered or covered by the lock; no revocation covers it, or the lock does, or
   * it is noted as unseen.
   */
  lemma AddKeeps(h: Auth.Hashing, s: State, t: State, x: Lease)
    requires Inv(h, s) && s.lock.Some? && s.lock.value.phase == AwaitRuntime
    requires Sound(x) && !x.released
    requires t.leases == s.leases + [x] && t.revocations == s.revocations && t.repo == s.repo && s.unseen <= t.unseen
    requires var k := (x.device, x.channel);
             t.registry == s.registry || (t.registry == s.registry[k := |s.leases|] && !Registered(s, k))
    requires var k := (x.device, x.channel);
             LockCovers(t, |s.leases|)
             || (k in t.registry && t.registry[k] == |s.leases|
                 && (|s.leases| in t.unseen || Auth.IsAuthorized(s.repo, x.device, x.key)))
    ensures LeaseInv(t)
  {
    var n := |s.leases|;
    assert forall l :: 0 <= l < n ==> t.leases[l] == s.leases[l];
    forall l | 0 <= l < |t.leases|
      ensures Sound(t.leases[l]) && Owned(t, l)
    {
      if l < n {
        assert Owned(s, l) && Sound(s.leases[l]);
      }
    }
    forall l, r | 0 <= l < |t.leases| && 0 <= r < |t.revocations|
      ensures Chased(t, l, r)
    {
      if l < n {
        assert Chased(s, l, r);
      } else if Auth.IsAuthorized(s.repo, x.device, x.key) {
        AuthorizedIsNotCovered(h, s, x.device, x.key, r);
      }
    }
  }

  lemma ArrivedKeeps(h: Auth.Hashing, s: State, o: Open, registers: bool, attaches: bool, c: LastCheck)
    requires Inv(h, s) && s.lock == Some(Holder(o, AwaitRuntime))
    ensures Inv(h, Arrived(s, o, registers, attaches, c))
  {
    var t := Arrived(s, o, registers, attaches, c);
    var x := NewLease(o);
    var k := (o.device, o.channel);
    if registers && !Registered(s, k) {
      var u := s.(leases := s.leases + [x], registry := s.registry[k := |s.leases|]);
      FoundIfRegistered(u, |s.leases|);
      assert |s.leases| in LeasesFor(u, o.device);
    }
    AddKeeps(h, s, t, x);
  }

  /** An open that goes on without a new lease keeps the invariant. */
  lemma ChosenKeeps(h: Auth.Hashing, s: State, o: Open, found: bool, attaches: bool, c: LastCheck)
    requires RepoInv(h, s) && LeaseInv(s) && o.epoch == 0 && forall l :: !LockCovers(s, l)
    ensures Inv(h, Chosen(s, o, found, attaches, c))
  {
    LockKeeps(s, Chosen(s, o, found, attaches, c));
  }

  lemma ContinueKeeps(h: Auth.Hashing, s: State, arrived: bool, registers: bool, attaches: bool, c: LastCheck)
    requires Inv(h, s) && s.lock.Some?
    ensures Inv(h, Continued(s, s.lock.value, arrived, registers, attaches, c))
  {
    var holder := s.lock.value;
    var t := Continued(s, holder, arrived, registers, attaches, c);
    if holder.phase == AwaitRuntime && arrived {
      ArrivedKeeps(h, s, holder.open, registers, attaches, c);
    } else {
      forall l | 0 <= l < |s.leases| && LockCovers(s, l) && !s.leases[l].released
        ensures LockCovers(t, l)
      {
        assert Sound(s.leases[l]);
      }
      LockKeeps(s, t);
    }
  }

  lemma BeginKeeps(h: Auth.Hashing, s: State, device: Device, key: string, channel: string, recovery: bool, resumes: bool,
                   willing: bool, attaches: bool, c: LastCheck)
    requires Inv(h, s)
    ensures Inv(h, Begun(s, device, key, channel, recovery, resumes, willing, attaches, c))
  {
    AuthorizedEpoch(s, device);
    if s.lock.None? && EpochOf(s, device).Some? {
      var k := (device, channel);
      if Registered(s, k) {
        assert Sound(s.leases[s.registry[k]]);
      }
      ChosenKeeps(h, s, Open(device, key, channel, recovery, resumes, 0), Registered(s, k), attaches, c);
    }
  }

  /** A revocation begins: it finds every registered lease of the device. */
  lemma RevokeKeeps(h: Auth.Hashing, s: State, repo: Auth.State, id: Device, found: Option<Auth.Device>)
    requires LeaseInv(s)
    ensures LeaseInv(RevokeBegins(s, repo, id, found))
  {
    var t := RevokeBegins(s, repo, id, found);
    forall l | 0 <= l < |t.leases|
      ensures Sound(t.leases[l]) && Owned(t, l)
    {
      assert Owned(s, l);
    }
    forall l, r | 0 <= l < |t.leases| && 0 <= r < |t.revocations|
      ensures Chased(t, l, r)
    {
      assert Owned(s, l) && Sound(s.leases[l]);
      if r < |s.revocations| {
        assert t.revocations[r] == s.revocations[r];
        assert Chased(s, l, r);
      } else if !s.leases[l].released && s.leases[l].device == id && !LockCovers(s, l) {
        FoundIfRegistered(s, l);
      }
    }
    forall r | 0 <= r < |t.revocations| && t.revocations[r].returned
      ensures AllSettled(t, t.revocations[r].pending)
    {
      if r < |s.revocations| {
        assert t.revocations[r] == s.revocations[r];
      }
    }
  }

  /** What a revocation has settled stays so after any operation of the repository, noted if it drew the identifier. */
  lemma SettledStays(h: Auth.Hashing, repo: Auth.State, op: Auth.Op, r: Revocation)
    requires Settled(h, repo, r)
    ensures var (t, fault) := Auth.Next(h, repo, op);
            Settled(h, t, if fault.None? then r.(redrawn := r.redrawn || Draws(op, r.device)) else r)
  {
    var (t, fault) := Auth.Next(h, repo, op);
    if r.key.Some? {
      NextKeepsBarred(h, repo, op, r.device, r.key.value);
    }
    if !r.redrawn {
      if Draws(op, r.device) {
        Auth.ConsumeYields(h, repo, op);
      } else {
        NextKeepsRetired(h, repo, op, r.device);
      }
    }
  }

  lemma RepoKeepsRepo(h: Auth.Hashing, s: State, op: Auth.Op)
    requires RepoInv(h, s)
    ensures RepoInv(h, RepoStep(h, s, op))
  {
    var t := RepoStep(h, s, op);
    Auth.NextIsValid(h, s.repo, op);
    Auth.NextCounts(h, s.repo, op);
    forall r | 0 <= r < |t.revocations|
      ensures Settled(h, t.repo, t.revocations[r])
    {
      if r < |s.revocations| {
        SettledStays(h, s.repo, op, s.revocations[r]);
      } else {
        BegunIsSettled(h, s, op);
      }
    }
  }

  lemma BegunIsSettled(h: Auth.Hashing, s: State, op: Auth.Op)
    requires Auth.Valid(s.repo) && op.OpRevoke? && Auth.Revoke(s.repo, op.id, op.now, op.writes).1.Ok?
    ensures var t := RepoStep(h, s, op); Settled(h, t.repo, t.revocations[|s.revocations|])
  {
    RevokeRetires(s.repo, op.id, op.now, op.writes);
    RevokeShape(s.repo, op.id, op.now, op.writes);
    if Auth.Revoke(s.repo, op.id, op.now, op.writes).1.value.Some? {
      RevokeBars(h, s.repo, op.id, op.now, op.writes);
    }
  }

  lemma RepoKeeps(h: Auth.Hashing, s: State, op: Auth.Op)
    requires Inv(h, s)
    ensures Inv(h, RepoStep(h, s, op))
  {
    RepoKeepsRepo(h, s, op);
    if op.OpRevoke? {
      var (repo, r) := Auth.Revoke(s.repo, op.id, op.now, op.writes);
      if r.Ok? {
        RevokeKeeps(h, s, repo, op.id, r.value);
      }
    } else {
      var t := RepoStep(h, s, op);
      forall l | 0 <= l < |t.leases|
        ensures Owned(t, l)
      {
        assert Owned(s, l);
      }
      forall l, r | 0 <= l < |t.leases| && 0 <= r < |t.revocations|
        ensures Chased(t, l, r)
      {
        assert Chased(s, l, r);
      }
    }
  }

  /** Fencing and settling leases only moves them forward. */
  lemma LeaseKeeps(s: State, l: nat, x: Lease)
    requires LeaseInv(s) && l < |s.leases| && Sound(x)
    requires x.device == s.leases[l].device && x.channel == s.leases[l].channel
    requires x.released && (s.leases[l].settled ==> x.settled)
    ensures LeaseInv(s.(leases := s.leases[l := x]))
  {
    var t := s.(leases := s.leases[l := x]);
    forall m | 0 <= m < |t.leases|
      ensures Sound(t.leases[m]) && Owned(t, m)
    {
      assert Owned(s, m) && Sound(s.leases[m]);
    }
    forall m, r | 0 <= m < |t.leases| && 0 <= r < |t.revocations|
      ensures Chased(t, m, r)
    {
      assert Chased(s, m, r);
    }
  }

  lemma ReturnKeeps(h: Auth.Hashing, s: State, r: nat)
    requires LeaseInv(s)
    ensures LeaseInv(Step(h, s, RevokeReturns(r)))
  {
    var t := Step(h, s, RevokeReturns(r));
    forall l | 0 <= l < |t.leases|
      ensures Owned(t, l)
    {
      assert Owned(s, l);
    }
    forall l, q | 0 <= l < |t.leases| && 0 <= q < |t.revocations|
      ensures Chased(t, l, q)
    {
      assert Chased(s, l, q);
    }
  }

  lemma PruneKeeps(h: Auth.Hashing, s: State)
    requires LeaseInv(s)
    ensures LeaseInv(Step(h, s, Prune))
  {
    var t := Step(h, s, Prune);
    forall l | 0 <= l < |t.leases|
      ensures Owned(t, l)
    {
      assert Owned(s, l) && Sound(s.leases[l]);
    }
    forall l, r | 0 <= l < |t.leases| && 0 <= r < |t.revocations|
      ensures Chased(t, l, r)
    {
      assert Chased(s, l, r);
    }
  }

  lemma StepKeeps(h: Auth.Hashing, s: State, op: Op)
    requires Inv(h, s)
    ensures Inv(h, Step(h, s, op))
  {
    match op
    case Begin(device, key, channel, recovery, resumes, willing, attaches, c) =>
      BeginKeeps(h, s, device, key, channel, recovery, resumes, willing, attaches, c);
    case Continue(arrived, registers, attaches, c) =>
      if s.lock.Some? { ContinueKeeps(h, s, arrived, registers, attaches, c); }
    case Repo(o) => RepoKeeps(h, s, o);
    case RevokeReturns(r) => ReturnKeeps(h, s, r);
    case Fence(l) => if l < |s.leases| { LeaseKeeps(s, l, s.leases[l].(released := true)); }
    case Settle(l, ok) =>
      if l < |s.leases| && s.leases[l].released && !s.leases[l].settled {
        LeaseKeeps(s, l, s.leases[l].(settled := true, succeeded := ok));
      }
    case Prune => PruneKeeps(h, s);
  }

  lemma EveryRunKeeps(h: Auth.Hashing, ops: seq<Op>)
    ensures Inv(h, Run(Stepper(h), Initial, ops).0)
  {
    var inv := (s: State) => Inv(h, s);
    forall s, op | inv(s)
      ensures inv(Stepper(h)(s, op).0)
    {
      StepKeeps(h, s, op);
    }
    RunInvariant(Stepper(h), inv, Initial, ops);
  }

  /** In every run the open that holds the lock never waits for leases of an older epoch: there are none. */
  lemma StaleEpochIsNeverFound(h: Auth.Hashing, ops: seq<Op>)
    ensures var s := Run(Stepper(h), Initial, ops).0;
            s.lock.Some? ==> !s.lock.value.phase.AwaitStale?
  {
    EveryRunKeeps(h, ops);
  }

  // ------------------------------------------- release after a revocation

  /** Every lease that a revocation covers is released. */
  ghost predicate AllReleased(s: State, r: nat)
    requires r < |s.revocations|
  {
    forall l {:trigger s.leases[l]} :: 0 <= l < |s.leases| && Covers(s.revocations[r], s.leases[l].device, s.leases[l].key) ==>
      s.leases[l].released
  }

  /** Every lease that a revocation covers, but whose last check did not see it, is released. */
  ghost predicate NoStray(s: State, r: nat)
    requires r < |s.revocations|
  {
    forall l {:trigger s.leases[l]} ::
      0 <= l < |s.leases| && l in s.unseen && Covers(s.revocations[r], s.leases[l].device, s.leases[l].key) ==>
      s.leases[l].released
  }

  lemma NoStrayReleasesAll(h: Auth.Hashing, s: State, r: nat)
    requires Inv(h, s) && s.lock.None? && r < |s.revocations| && s.revocations[r].returned && NoStray(s, r)
    ensures AllReleased(s, r)
  {
    forall l | 0 <= l < |s.leases| && Covers(s.revocations[r], s.leases[l].device, s.leases[l].key)
      ensures s.leases[l].released
    {
      assert Chased(s, l, r) && Sound(s.leases[l]);
    }
  }

  /** Every last check of the operation, should it come to one, gets an answer from the repository. */
  predicate Answered(op: Op) {
    match op
    case Begin(_, _, _, _, _, _, _, c) => c.answers
    case Continue(_, _, _, c) => c.answers
    case _ => true
  }

  predicate AllAnswered(ops: seq<Op>) {
    forall k {:trigger ops[k]} :: 0 <= k < |ops| ==> Answered(ops[k])
  }

  /**
   * What no step takes back: revocations keep their place, device and key, what has returned has
   * returned, and leases keep their owner and stay released. Only a last check that raises adds to the unseen.
   */
  ghost predicate Onward(s: State, t: State) {
    && |s.revocations| <= |t.revocations| && |s.leases| <= |t.leases|
    && (forall r {:trigger t.revocations[r]} {:trigger s.revocations[r]} :: 0 <= r < |s.revocations| ==>
          && t.revocations[r].device == s.revocations[r].device && t.revocations[r].key == s.revocations[r].key
          && (s.revocations[r].returned ==> t.revocations[r].returned) && (s.revocations[r].redrawn ==> t.revocations[r].redrawn))
    && (forall l {:trigger t.leases[l]} {:trigger s.leases[l]} :: 0 <= l < |s.leases| ==>
          && t.leases[l].device == s.leases[l].device && t.leases[l].key == s.leases[l].key
          && (s.leases[l].released ==> t.leases[l].released))
  }

  lemma RepoOnward(h: Auth.Hashing, s: State, op: Auth.Op)
    ensures Onward(s, RepoStep(h, s, op)) && RepoStep(h, s, op).unseen == s.unseen
  {
  }

  lemma ContinueOnward(s: State, holder: Holder, arrived: bool, registers: bool, attaches: bool, c: LastCheck)
    ensures var t := Continued(s, holder, arrived, registers, attaches, c);
            Onward(s, t) && (c.answers ==> t.unseen == s.unseen)
  {
  }

  lemma StepOnward(h: Auth.Hashing, s: State, op: Op)
    ensures Onward(s, Step(h, s, op)) && (Answered(op) ==> Step(h, s, op).unseen == s.unseen)
  {
    match op
    case Begin(_, _, _, _, _, _, _, _) =>
    case Continue(arrived, registers, attaches, c) =>
      if s.lock.Some? { ContinueOnward(s, s.lock.value, arrived, registers, attaches, c); }
    case Repo(o) => RepoOnward(h, s, o);
    case _ =>
  }

  /** The leases whose last check raised are leases. */
  ghost predicate UnseenExist(s: State) {
    forall l :: l in s.unseen ==> l < |s.leases|
  }

  lemma AnsweredKeepsNoStray(h: Auth.Hashing, s: State, op: Op, r: nat)
    requires Answered(op) && UnseenExist(s) && r < |s.revocations| && NoStray(s, r)
    ensures var t := Step(h, s, op); UnseenExist(t) && r < |t.revocations| && NoStray(t, r)
  {
    StepOnward(h, s, op);
    var t := Step(h, s, op);
    forall l | 0 <= l < |t.leases| && l in t.unseen && Covers(t.revocations[r], t.leases[l].device, t.leases[l].key)
      ensures t.leases[l].released
    {
      assert Covers(s.revocations[r], s.leases[l].device, s.leases[l].key);
      assert s.leases[l].released;
    }
  }

  lemma StepKeepsUnseen(h: Auth.Hashing, s: State, op: Op)
    requires UnseenExist(s)
    ensures UnseenExist(Step(h, s, op))
  {
    StepOnward(h, s, op);
    match op
    case Begin(_, _, _, _, _, _, _, _) =>
    case Continue(_, _, _, _) =>
    case _ =>
  }

  lemma EveryRunsUnseenExist(h: Auth.Hashing, ops: seq<Op>)
    ensures UnseenExist(Run(Stepper(h), Initial, ops).0)
  {
    var inv := (s: State) => UnseenExist(s);
    forall s, op | inv(s)
      ensures inv(Stepper(h)(s, op).0)
    {
      StepKeepsUnseen(h, s, op);
    }
    RunInvariant(Stepper(h), inv, Initial, ops);
  }

  lemma {:induction false} AnsweredRunSeesAll(h: Auth.Hashing, s: State, ops: seq<Op>)
    requires AllAnswered(ops)
    ensures Run(Stepper(h), s, ops).0.unseen == s.unseen
    decreases |ops|
  {
    if ops != [] {
      StepOnward(h, s, ops[0]);
      assert forall k :: 0 <= k < |ops[1..]| ==> ops[1..][k] == ops[k + 1];
      AnsweredRunSeesAll(h, Step(h, s, ops[0]), ops[1..]);
    }
  }

  /**
   * In every interleaving in which the repository answers the last checks: once a revocation has
   * returned, every lease it covers is released whenever the admission lock is free.
   */
  lemma ReturnedRevocationReleasesAll(h: Auth.Hashing, ops: seq<Op>, r: nat)
    requires AllAnswered(ops)
    requires var s := Run(Stepper(h), Initial, ops).0;
             s.lock.None? && r < |s.revocations| && s.revocations[r].returned
    ensures AllReleased(Run(Stepper(h), Initial, ops).0, r)
  {
    EveryRunKeeps(h, ops);
    AnsweredRunSeesAll(h, Initial, ops);
    NoStrayReleasesAll(h, Run(Stepper(h), Initial, ops).0, r);
  }

  /** Without that premise, what stays unreleased is exactly what some last check did not see. */
  lemma OnlyUnseenEscape(h: Auth.Hashing, ops: seq<Op>, r: nat)
    requires var s := Run(Stepper(h), Initial, ops).0;
             s.lock.None? && r < |s.revocations| && s.revocations[r].returned
    ensures var s := Run(Stepper(h), Initial, ops).0; AllReleased(s, r) <==> NoStray(s, r)
  {
    EveryRunKeeps(h, ops);
    var s := Run(Stepper(h), Initial, ops).0;
    if NoStray(s, r) {
      NoStrayReleasesAll(h, s, r);
    }
  }

  /** A step is the last check of a fresh lease, for an open that the revocation covers. */
  ghost predicate ChecksLast(s: State, op: Op, r: nat)
    requires r < |s.revocations|
  {
    && s.lock.Some? && s.lock.value.phase == AwaitRuntime
    && op.Continue? && op.arrived && op.registers && op.attaches
    && var o := s.lock.value.open;
       !Registered(s, (o.device, o.channel)) && Covers(s.revocations[r], o.device, o.key)
  }

  /** A last check that raises leaves nothing behind for a revocation that does not cover its open. */
  lemma UncheckedKeepsNoStray(h: Auth.Hashing, s: State, op: Op, r: nat)
    requires Inv(h, s) && UnseenExist(s) && r < |s.revocations| && NoStray(s, r) && !Answered(op) && !ChecksLast(s, op, r)
    ensures var t := Step(h, s, op); r < |t.revocations| && NoStray(t, r)
  {
    var t := Step(h, s, op);
    StepOnward(h, s, op);
    forall l | 0 <= l < |t.leases| && l in t.unseen && Covers(t.revocations[r], t.leases[l].device, t.leases[l].key)
      ensures t.leases[l].released
    {
      if l in s.unseen {
        assert Covers(s.revocations[r], s.leases[l].device, s.leases[l].key);
      } else {
        UnseenByStep(h, s, op, l);
      }
    }
  }

  /** A lease becomes unseen only as the fresh lease of the open that holds the lock. */
  lemma UnseenByStep(h: Auth.Hashing, s: State, op: Op, l: nat)
    requires Inv(h, s) && l in Step(h, s, op).unseen && l !in s.unseen
    ensures s.lock.Some? && s.lock.value.phase == AwaitRuntime && op.Continue? && op.arrived && op.registers && op.attaches
    ensures !Registered(s, (s.lock.value.open.device, s.lock.value.open.channel))
    ensures l == |s.leases| && Step(h, s, op).leases == s.leases + [NewLease(s.lock.value.open)]
    ensures Step(h, s, op).revocations == s.revocations
  {
    match op
    case Begin(_, _, _, _, _, _, _, _) =>
    case Continue(_, _, _, _) =>
    case _ =>
  }

  /**
   * The revocation holds throughout: at every point of these steps at which the lock is free, every
   * lease it covers is released.
   */
  ghost predicate HoldsThroughout(h: Auth.Hashing, s: State, r: nat, after: seq<Op>)
    decreases |after|
  {
    && r < |s.revocations| && (s.lock.None? ==> AllReleased(s, r))
    && (after == [] || HoldsThroughout(h, Step(h, s, after[0]), r, after[1..]))
  }

  /** None of these steps is the last check of a covered open whose read of the repository raises. */
  ghost predicate SeenThroughout(h: Auth.Hashing, s: State, r: nat, after: seq<Op>)
    decreases |after|
  {
    after == []
    || (&& r < |s.revocations| && (ChecksLast(s, after[0], r) ==> after[0].check.answers)
        && SeenThroughout(h, Step(h, s, after[0]), r, after[1..]))
  }

  /** A last check of a covered open that raises frees the lock at once and leaves the fresh lease unreleased. */
  lemma RaisingCheckStrays(h: Auth.Hashing, s: State, op: Op, r: nat)
    requires Inv(h, s) && r < |s.revocations| && ChecksLast(s, op, r) && !op.check.answers
    ensures var t := Step(h, s, op); r < |t.revocations| && t.lock.None? && !AllReleased(t, r)
  {
    var t := Step(h, s, op);
    assert t.leases[|s.leases|] == NewLease(s.lock.value.open);
  }

  lemma OtherStepKeepsNoStray(h: Auth.Hashing, s: State, op: Op, r: nat)
    requires Inv(h, s) && UnseenExist(s) && r < |s.revocations| && NoStray(s, r)
    requires ChecksLast(s, op, r) ==> op.check.answers
    ensures var t := Step(h, s, op); r < |t.revocations| && NoStray(t, r)
  {
    if Answered(op) {
      AnsweredKeepsNoStray(h, s, op, r);
    } else {
      UncheckedKeepsNoStray(h, s, op, r);
    }
  }

  lemma {:induction false} HoldsIffSeen(h: Auth.Hashing, s: State, r: nat, after: seq<Op>)
    requires Inv(h, s) && UnseenExist(s) && r < |s.revocations| && s.revocations[r].returned && NoStray(s, r)
    ensures HoldsThroughout(h, s, r, after) <==> SeenThroughout(h, s, r, after)
    decreases |after|
  {
    if s.lock.None? {
      NoStrayReleasesAll(h, s, r);
    }
    if after != [] {
      var op := after[0];
      if ChecksLast(s, op, r) && !op.check.answers {
        RaisingCheckStrays(h, s, op, r);
      } else {
        StepKeeps(h, s, op);
        StepKeepsUnseen(h, s, op);
        StepOnward(h, s, op);
        OtherStepKeepsNoStray(h, s, op, r);
        HoldsIffSeen(h, Step(h, s, op), r, after[1..]);
      }
    }
  }

  /**
   * In every interleaving, from any point at which a revocation has returned and left nothing
   * behind, and for every continuation: every lease it covers is released at every later point at
   * which the lock is free, if and only if no step of the continuation is the last check of a
   * covered open whose read of the repository raises.
   */
  lemma RevocationHoldsIff(h: Auth.Hashing, ops: seq<Op>, after: seq<Op>, r: nat)
    requires var s := Run(Stepper(h), Initial, ops).0;
             r < |s.revocations| && s.revocations[r].returned && NoStray(s, r)
    ensures var s := Run(Stepper(h), Initial, ops).0;
            HoldsThroughout(h, s, r, after) <==> SeenThroughout(h, s, r, after)
  {
    EveryRunKeeps(h, ops);
    EveryRunsUnseenExist(h, ops);
    HoldsIffSeen(h, Run(Stepper(h), Initial, ops).0, r, after);
  }

  // ------------------------------------------- admission after a revocation

  /** The controllers given to a device with a key, in order. */
  function GivenTo(log: seq<Admitted>, d: Device, key: string): (ls: seq<nat>) {
    if log == [] then []
    else
      var last := log[|log| - 1];
      GivenTo(log[..|log| - 1], d, key) + (if last.device == d && last.key == key then [last.lease] else [])
  }

  /** Nobody is admitted, or one controller whose device is authorized with its key. */
  ghost predicate AdmitsAuthorized(s: State, t: State) {
    t.admissions == s.admissions
    || (&& t.repo == s.repo && |t.admissions| == |s.admissions| + 1 && t.admissions[..|s.admissions|] == s.admissions
        && Auth.IsAuthorized(s.repo, t.admissions[|s.admissions|].device, t.admissions[|s.admissions|].key))
  }

  lemma ChosenAdmits(s: State, o: Open, registered: bool, attaches: bool, c: LastCheck)
    ensures AdmitsAuthorized(s, Chosen(s, o, registered, attaches, c))
  {
  }

  lemma ArrivedAdmits(s: State, o: Open, registers: bool, attaches: bool, c: LastCheck)
    ensures AdmitsAuthorized(s, Arrived(s, o, registers, attaches, c))
  {
  }

  lemma StepAdmits(h: Auth.Hashing, s: State, op: Op)
    ensures AdmitsAuthorized(s, Step(h, s, op))
  {
    match op
    case Begin(device, key, channel, recovery, resumes, _, attaches, c) =>
      var epoch := EpochOf(s, device);
      if epoch.Some? {
        ChosenAdmits(s, Open(device, key, channel, recovery, resumes, epoch.value), Registered(s, (device, channel)), attaches, c);
      }
    case Continue(_, registers, attaches, c) =>
      if s.lock.Some? {
        ChosenAdmits(s, s.lock.value.open, false, attaches, c);
        ArrivedAdmits(s, s.lock.value.open, registers, attaches, c);
      }
    case _ =>
  }

  lemma StepGivesNothing(h: Auth.Hashing, s: State, op: Op, d: Device, key: string)
    requires !Auth.IsAuthorized(s.repo, d, key)
    ensures GivenTo(Step(h, s, op).admissions, d, key) == GivenTo(s.admissions, d, key)
  {
    StepAdmits(h, s, op);
  }

  /** What a step does to the repository. */
  lemma StepRepo(h: Auth.Hashing, s: State, op: Op)
    ensures Step(h, s, op).repo == if op.Repo? then Auth.Next(h, s.repo, op.op).0 else s.repo
  {
    match op
    case Begin(_, _, _, _, _, _, _, _) =>
    case Continue(_, _, _, _) =>
    case _ =>
  }

  lemma {:induction false} BarredIsGivenNothing(h: Auth.Hashing, s: State, ops: seq<Op>, d: Device, key: string)
    requires Barred(h, s.repo, d, key)
    ensures GivenTo(Run(Stepper(h), s, ops).0.admissions, d, key) == GivenTo(s.admissions, d, key)
    decreases |ops|
  {
    if ops != [] {
      StepGivesNothing(h, s, ops[0], d, key);
      StepRepo(h, s, ops[0]);
      if ops[0].Repo? {
        NextKeepsBarred(h, s.repo, ops[0].op, d, key);
      }
      BarredIsGivenNothing(h, Step(h, s, ops[0]), ops[1..], d, key);
    }
  }

  predicate DrawsNever(ops: seq<Op>, d: Device) {
    forall k {:trigger ops[k]} :: 0 <= k < |ops| ==> !(ops[k].Repo? && Draws(ops[k].op, d))
  }

  lemma {:induction false} RetiredIsGivenNothing(h: Auth.Hashing, s: State, ops: seq<Op>, d: Device, key: string)
    requires Retired(s.repo, d) && DrawsNever(ops, d)
    ensures GivenTo(Run(Stepper(h), s, ops).0.admissions, d, key) == GivenTo(s.admissions, d, key)
    decreases |ops|
  {
    if ops != [] {
      StepGivesNothing(h, s, ops[0], d, key);
      StepRepo(h, s, ops[0]);
      if ops[0].Repo? {
        NextKeepsRetired(h, s.repo, ops[0].op, d);
      }
      assert forall k :: 0 <= k < |ops[1..]| ==> ops[1..][k] == ops[k + 1];
      RetiredIsGivenNothing(h, Step(h, s, ops[0]), ops[1..], d, key);
    }
  }

  lemma AfterRevoke(h: Auth.Hashing, before: seq<Op>, id: Device, now: int, writes: bool, after: seq<Op>)
    requires Auth.Revoke(Run(Stepper(h), Initial, before).0.repo, id, now, writes).1.Ok?
    ensures var s := Run(Stepper(h), Initial, before).0;
            var (repo, r) := Auth.Revoke(s.repo, id, now, writes);
            Run(Stepper(h), Initial, before + [Repo(Auth.OpRevoke(id, now, writes))] + after).0
            == Run(Stepper(h), RevokeBegins(s, repo, id, r.value), after).0
  {
    var op := Repo(Auth.OpRevoke(id, now, writes));
    RunAppend(Stepper(h), Initial, before, [op]);
    RunOne(Stepper(h), Run(Stepper(h), Initial, before).0, op);
    RunAppend(Stepper(h), Initial, before + [op], after);
  }

  /**
   * In every interleaving: from the moment a revocation has updated the record of a device,
   * whatever opens were under way and whatever is paired or approved later, no open ever again
   * returns an admitted controller for the device with the key of that record.
   */
  lemma NoAdmissionAfterRevocation(h: Auth.Hashing, before: seq<Op>, id: Device, now: int, writes: bool, after: seq<Op>)
    requires var r := Auth.Revoke(Run(Stepper(h), Initial, before).0.repo, id, now, writes).1; r.Ok? && r.value.Some?
    ensures var s := Run(Stepper(h), Initial, before).0;
            var key := Auth.Revoke(s.repo, id, now, writes).1.value.value.key;
            var t := Run(Stepper(h), Initial, before + [Repo(Auth.OpRevoke(id, now, writes))] + after).0;
            GivenTo(t.admissions, id, key) == GivenTo(s.admissions, id, key)
  {
    var s := Run(Stepper(h), Initial, before).0;
    var (repo, r) := Auth.Revoke(s.repo, id, now, writes);
    EveryRunKeeps(h, before);
    RevokeBars(h, s.repo, id, now, writes);
    AfterRevoke(h, before, id, now, writes, after);
    BarredIsGivenNothing(h, RevokeBegins(s, repo, id, r.value), after, id, r.value.value.key);
  }

  /** The same for the device with any key at all, until a pairing draws its identifier anew. */
  lemma NoAdmissionUntilRedrawn(h: Auth.Hashing, before: seq<Op>, id: Device, now: int, writes: bool, after: seq<Op>, key: string)
    requires Auth.Revoke(Run(Stepper(h), Initial, before).0.repo, id, now, writes).1.Ok?
    requires DrawsNever(after, id)
    ensures var s := Run(Stepper(h), Initial, before).0;
            var t := Run(Stepper(h), Initial, before + [Repo(Auth.OpRevoke(id, now, writes))] + after).0;
            GivenTo(t.admissions, id, key) == GivenTo(s.admissions, id, key)
  {
    var s := Run(Stepper(h), Initial, before).0;
    var (repo, r) := Auth.Revoke(s.repo, id, now, writes);
    EveryRunKeeps(h, before);
    RevokeRetires(s.repo, id, now, writes);
    AfterRevoke(h, before, id, now, writes, after);
    RetiredIsGivenNothing(h, RevokeBegins(s, repo, id, r.value), after, id, key);
  }

  // ----------------------------------------------------------- a concrete run

  function RepoOnly(repo: Auth.State): State {
    State(repo, [], map[], None, [], [], {})
  }

  /** An open of device "a" that asks for a fresh lease, and the moment its controller arrives. */
  const AskFresh := Begin("a", "key", "", false, false, true, true, LastCheck(true, true, Some(true), true))
  const ArriveBlind := Continue(true, true, true, LastCheck(false, true, Some(true), true))
  const OpenOfA := Open("a", "key", "", false, false, 0)

  /** Device "a" is paired and approved; it opens; while the runtime works it is revoked; then the last read raises. */
  function StrayOps(h: Auth.Hashing): seq<Op> {
    [Repo(Auth.OpCreate(1, "first", "capability", 5, true)),
     Repo(Auth.OpConsume("capability", "key", "x", true, "a", 5, true)),
     Repo(Auth.OpApprove("a", Auth.Digest(h.sha("x")), 5, 5, true)),
     AskFresh, Repo(Auth.OpRevoke("a", 5, true)), RevokeReturns(0), ArriveBlind]
  }

  lemma OneRecord(h: Auth.Hashing, a: Auth.Device)
    requires a.id == "a" && Auth.ValidDevice(a)
    ensures Auth.Index([a], "a") == 0 && Auth.Valid(PairedOnce(h, a))
    ensures Auth.Aged(PairedOnce(h, a), 5, Auth.MAX_TTL).devices ==
              if Auth.Stale(a, 5, Auth.MAX_TTL) then [Auth.Expire(a, 5)] else [a]
  {
    assert [a][1..] == [];
  }

  lemma PairedIsApproved(h: Auth.Hashing, a: Auth.Device)
    requires a == Auth.NewDevice(h, "a", "key", "x", 5)
    ensures Auth.Approve(h, PairedOnce(h, a), "a", Auth.Digest(h.sha("x")), 5, 5, true) ==
              (PairedOnce(h, Auth.ApprovedRecord(a, 5)), Ok(Auth.ApprovedRecord(a, 5)))
  {
    var b := Auth.ApprovedRecord(a, 5);
    OneRecord(h, a);
    OneRecord(h, b);
    assert [a][0 := b] == [b];
  }

  lemma ApprovedIsRevoked(h: Auth.Hashing, b: Auth.Device)
    requires b == Auth.ApprovedRecord(Auth.NewDevice(h, "a", "key", "x", 5), 5)
    ensures Auth.Revoke(PairedOnce(h, b), "a", 5, true) == (PairedOnce(h, Auth.RevokedRecord(b, 5)), Ok(Some(Auth.RevokedRecord(b, 5))))
    ensures Auth.IsAuthorized(PairedOnce(h, b), "a", "key") && !Auth.IsAuthorized(PairedOnce(h, Auth.RevokedRecord(b, 5)), "a", "key")
  {
    var c := Auth.RevokedRecord(b, 5);
    OneRecord(h, b);
    OneRecord(h, c);
    assert [b][0 := c] == [c];
  }

  /** Without leases and revocations a step of the repository is nothing else. */
  lemma RepoOnlyStep(h: Auth.Hashing, s: Auth.State, op: Auth.Op)
    requires !op.OpRevoke?
    ensures Stepper(h)(RepoOnly(s), Repo(op)) == (RepoOnly(Auth.Next(h, s, op).0), ())
  {
    assert Noted([], op) == [];
  }

  lemma RunOfThree<S, I>(step: (S, I) -> (S, ()), ops: seq<I>, s0: S, s1: S, s2: S, s3: S)
    requires |ops| == 3 && step(s0, ops[0]) == (s1, ()) && step(s1, ops[1]) == (s2, ()) && step(s2, ops[2]) == (s3, ())
    ensures Run(step, s0, ops).0 == s3
  {
    RunOfStates(step, ops, [s0, s1, s2, s3], [(), (), ()]);
  }

  lemma PairedByHand(h: Auth.Hashing, p: seq<Auth.Op>, s: Auth.State)
    requires p == Pairing("first", "a", "x") && s == Auth.Next(h, Auth.Empty, p[0]).0
    ensures Auth.Next(h, s, p[1]).0 == PairedOnce(h, Auth.NewDevice(h, "a", "key", "x", 5))
  {
    FirstPairing(h);
    RunTwo(h, Auth.Empty, p[0], p[1]);
  }

  lemma StrayRepo(h: Auth.Hashing)
    ensures var a := Auth.NewDevice(h, "a", "key", "x", 5);
            var b := Auth.ApprovedRecord(a, 5);
            Run(Stepper(h), Initial, StrayOps(h)[..3]).0 == RepoOnly(PairedOnce(h, b))
  {
    var ops := StrayOps(h)[..3];
    var a := Auth.NewDevice(h, "a", "key", "x", 5);
    var p := Pairing("first", "a", "x");
    var s := Auth.Next(h, Auth.Empty, p[0]).0;
    PairedByHand(h, p, s);
    PairedIsApproved(h, a);
    RepoOnlyStep(h, Auth.Empty, p[0]);
    RepoOnlyStep(h, s, p[1]);
    RepoOnlyStep(h, PairedOnce(h, a), ops[2].op);
    RunOfThree(Stepper(h), ops, RepoOnly(Auth.Empty), RepoOnly(s),
      RepoOnly(PairedOnce(h, a)), RepoOnly(PairedOnce(h, Auth.ApprovedRecord(a, 5))));
  }

  /** The rest of the run, from an approved device on. */
  lemma StrayTail(h: Auth.Hashing, b: Auth.Device)
    requires b == Auth.ApprovedRecord(Auth.NewDevice(h, "a", "key", "x", 5), 5)
    ensures var t := Run(Stepper(h), RepoOnly(PairedOnce(h, b)), StrayOps(h)[3..]).0;
            && t.lock.None? && |t.revocations| == 1 && t.revocations[0].returned && t.revocations[0].key == Some("key")
            && |t.leases| == 1 && Covers(t.revocations[0], t.leases[0].device, t.leases[0].key) && !t.leases[0].released
  {
    var ops := StrayOps(h)[3..];
    var s0 := RepoOnly(PairedOnce(h, b));
    ApprovedIsRevoked(h, b);
    OneRecord(h, b);
    var s1 := s0.(lock := Some(Holder(OpenOfA, AwaitRuntime)));
    assert Step(h, s0, AskFresh) == s1;
    assert LeasesFor(s1, "a") == {};
    var s2 := s1.(repo := PairedOnce(h, Auth.RevokedRecord(b, 5)), revocations := [Revocation("a", Some("key"), {}, false, false)]);
    assert Step(h, s1, ops[1]) == s2;
    var s3 := s2.(revocations := [Revocation("a", Some("key"), {}, true, false)]);
    assert Step(h, s2, ops[2]) == s3;
    var s4 := Step(h, s3, ops[3]);
    assert s4.leases == [NewLease(OpenOfA)] && s4.lock.None?;
    RunOfStates(Stepper(h), ops, [s0, s1, s2, s3, s4], [(), (), (), ()]);
  }

  /**
   * A run from the start in which a revocation has returned, the admission lock is free, and a
   * lease of the revoked device with the revoked key is registered, attached and unreleased.
   */
  lemma RaisingReadLeavesALease(h: Auth.Hashing)
    ensures var t := Run(Stepper(h), Initial, StrayOps(h)).0;
            t.lock.None? && |t.revocations| == 1 && t.revocations[0].returned && !AllReleased(t, 0)
  {
    StrayRepo(h);
    var b := Auth.ApprovedRecord(Auth.NewDevice(h, "a", "key", "x", 5), 5);
    StrayTail(h, b);
    RunAppend(Stepper(h), Initial, StrayOps(h)[..3], StrayOps(h)[3..]);
    assert StrayOps(h)[..3] + StrayOps(h)[3..] == StrayOps(h);
  }
}
