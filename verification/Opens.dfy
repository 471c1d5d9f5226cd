/**
 * Which opens end with an admitted controller: exactly those that pass every check at the end, for
 * a fresh lease and for one that is resumed.
 */
module Opens {
  import opened Common
  import opened Machine
  import Auth = Authorization
  import opened Admission

  /** Everything that the last check asks about. */
  predicate Passes(s: State, device: Device, key: string, c: LastCheck) {
    Auth.IsAuthorized(s.repo, device, key) && c.answers && c.epochAnswers && c.profile == Some(true) && c.marked
  }

  lemma AuthorizedHasEpoch(s: State, device: Device, key: string)
    requires Auth.Counted(s.repo) && Auth.IsAuthorized(s.repo, device, key)
    ensures EpochOf(s, device) == Some(0)
  {
    AuthorizedEpoch(s, device);
  }

  /** The last check admits exactly when it passes; then the lock is free, and nothing else has changed. */
  lemma ConcludedIff(s: State, o: Open, l: nat, c: LastCheck)
    requires Auth.Counted(s.repo) && o.epoch == 0
    ensures if Passes(s, o.device, o.key, c)
            then Concluded(s, o, l, c) == s.(lock := None, admissions := s.admissions + [Admitted(o.device, o.key, l)])
            else Concluded(s, o, l, c).admissions == s.admissions
  {
    if Auth.IsAuthorized(s.repo, o.device, o.key) {
      AuthorizedHasEpoch(s, o.device, o.key);
    }
  }

  /** The controller is there and a place for its lease, and it attaches. */
  predicate Lands(s: State, o: Open, arrived: bool, registers: bool, attaches: bool) {
    arrived && registers && attaches && !Registered(s, (o.device, o.channel))
  }

  /**
   * In every run: the open that waits for its controller is admitted, when it goes on, if and only
   * if the controller has come, its lease is registered and attached, and every check passes; then
   * its fresh lease is registered, unreleased, and the lock is free.
   */
  lemma FreshIsAdmittedIff(h: Auth.Hashing, ops: seq<Op>, arrived: bool, registers: bool, attaches: bool, c: LastCheck)
    requires var s := Run(Stepper(h), Initial, ops).0; s.lock.Some? && s.lock.value.phase == AwaitRuntime
    ensures var s := Run(Stepper(h), Initial, ops).0;
            var o := s.lock.value.open;
            var t := Step(h, s, Continue(arrived, registers, attaches, c));
            if Lands(s, o, arrived, registers, attaches) && Passes(s, o.device, o.key, c)
            then && t.admissions == s.admissions + [Admitted(o.device, o.key, |s.leases|)] && t.lock.None?
                 && t.leases == s.leases + [NewLease(o)] && t.registry == s.registry[(o.device, o.channel) := |s.leases|]
            else t.admissions == s.admissions
  {
    EveryRunKeeps(h, ops);
    var s := Run(Stepper(h), Initial, ops).0;
    var o := s.lock.value.open;
    var l := |s.leases|;
    var u := s.(leases := s.leases + [NewLease(o)], registry := s.registry[(o.device, o.channel) := l]);
    ConcludedIff(u, o, l, c);
  }

  /** What an open has that can go on with the lease it finds. */
  predicate Finds(s: State, device: Device, channel: string) {
    Registered(s, (device, channel)) && !s.leases[s.registry[(device, channel)]].released
  }

  /**
   * In every run with the lock free: an open is admitted at once if and only if it asks to go on
   * with a lease, one that is not released is registered for it and lets it attach, and every check
   * passes; then it has that lease.
   */
  lemma ResumedIsAdmittedIff(h: Auth.Hashing, ops: seq<Op>, device: Device, key: string, channel: string,
                             recovery: bool, resumes: bool, willing: bool, attaches: bool, c: LastCheck)
    requires Run(Stepper(h), Initial, ops).0.lock.None?
    ensures var s := Run(Stepper(h), Initial, ops).0;
            var t := Step(h, s, Begin(device, key, channel, recovery, resumes, willing, attaches, c));
            if willing && (resumes || recovery) && Finds(s, device, channel) && attaches && Passes(s, device, key, c)
            then t == s.(admissions := s.admissions + [Admitted(device, key, s.registry[(device, channel)])])
            else t.admissions == s.admissions
  {
    EveryRunKeeps(h, ops);
    var s := Run(Stepper(h), Initial, ops).0;
    if Auth.IsAuthorized(s.repo, device, key) {
      AuthorizedHasEpoch(s, device, key);
      var o := Open(device, key, channel, recovery, resumes, 0);
      if Registered(s, (device, channel)) {
        assert Sound(s.leases[s.registry[(device, channel)]]);
        ConcludedIff(s, o, s.registry[(device, channel)], c);
      }
    }
  }

  /**
   * So an authorized device gets its controller: from every reachable state with the lock free and
   * no lease under its channel, a fresh open whose checks pass and whose controller comes is admitted.
   */
  lemma FreshOpenGoesThrough(h: Auth.Hashing, ops: seq<Op>, device: Device, key: string, channel: string, first: LastCheck, c: LastCheck)
    requires var s := Run(Stepper(h), Initial, ops).0;
             s.lock.None? && !Registered(s, (device, channel)) && Passes(s, device, key, c)
    ensures var s := Run(Stepper(h), Initial, ops).0;
            var t := Run(Stepper(h), s, [Begin(device, key, channel, false, false, true, true, first), Continue(true, true, true, c)]).0;
            && t.admissions == s.admissions + [Admitted(device, key, |s.leases|)] && t.lock.None?
            && |t.leases| == |s.leases| + 1 && !t.leases[|s.leases|].released && t.repo == s.repo
  {
    EveryRunKeeps(h, ops);
    var s := Run(Stepper(h), Initial, ops).0;
    var begin, go := Begin(device, key, channel, false, false, true, true, first), Continue(true, true, true, c);
    AuthorizedHasEpoch(s, device, key);
    var o := Open(device, key, channel, false, false, 0);
    var u := s.(lock := Some(Holder(o, AwaitRuntime)));
    assert Step(h, s, begin) == u;
    RunAppend(Stepper(h), Initial, ops, [begin]);
    RunOne(Stepper(h), s, begin);
    FreshIsAdmittedIff(h, ops + [begin], true, true, true, c);
    RunOfStates(Stepper(h), [begin, go], [s, u, Step(h, u, go)], [(), ()]);
  }

  /**
   * A fresh open of a channel whose lease is still there waits for the release of exactly that
   * lease; once it has been released with success the open goes on to its controller, and if the
   * release failed the open ends.
   */
  lemma FreshOpenSupersedes(h: Auth.Hashing, ops: seq<Op>, device: Device, key: string, channel: string, first: LastCheck)
    requires var s := Run(Stepper(h), Initial, ops).0;
             s.lock.None? && Registered(s, (device, channel)) && Auth.IsAuthorized(s.repo, device, key)
    ensures var s := Run(Stepper(h), Initial, ops).0;
            var l := s.registry[(device, channel)];
            var t := Step(h, s, Begin(device, key, channel, false, false, true, true, first));
            t == s.(lock := Some(Holder(Open(device, key, channel, false, false, 0), AwaitSupersede(l))))
  {
    EveryRunKeeps(h, ops);
    var s := Run(Stepper(h), Initial, ops).0;
    AuthorizedHasEpoch(s, device, key);
    assert Sound(s.leases[s.registry[(device, channel)]]);
  }

  lemma SupersededGoesOn(h: Auth.Hashing, s: State, l: nat, arrived: bool, registers: bool, attaches: bool, c: LastCheck)
    requires s.lock.Some? && s.lock.value.phase == AwaitSupersede(l) && l < |s.leases| && s.leases[l].settled
    ensures Step(h, s, Continue(arrived, registers, attaches, c)) ==
              if s.leases[l].succeeded then s.(lock := Some(s.lock.value.(phase := AwaitRuntime))) else s.(lock := None)
  {
  }

  /**
   * A lease whose release is begun and then ends is released and settled; whether it succeeded stays as
   * it was first said.
   */
  lemma ReleaseEnds(h: Auth.Hashing, s: State, l: nat, ok: bool)
    requires l < |s.leases|
    ensures var t := Step(h, Step(h, s, Fence(l)), Settle(l, ok));
            && |t.leases| == |s.leases| && t.leases[l].released && t.leases[l].settled
            && t.leases[l].succeeded == (if s.leases[l].settled then s.leases[l].succeeded else ok)
            && forall k :: 0 <= k < |s.leases| && k != l ==> t.leases[k] == s.leases[k]
  {
  }
}
