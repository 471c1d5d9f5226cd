/**
 * What the push bridge grants: exactly which ended registrations are answered with success, and
 * that a registration, a wake and an unregistration that nothing stands in the way of go through.
 */
module Grants {
  import opened Common
  import opened Machine
  import opened Push

  // ------------------------------------------------------------ what settles a future

  /** Dropping and cancelling for other handles leaves alone a future that no queued job holds. */
  lemma {:induction false} SilencingSpares(d: Desk, hs: seq<Handle>, f: nat)
    requires SettledOnce(d) && GrantsAreAcked(d) && !Done(d, f) && forall j :: j in d.queue ==> j.future != Some(f)
    ensures !Done(SilenceAll(d, hs), f)
    decreases |hs|
  {
    if hs != [] {
      FailDroppedIs(d, d.queue, hs[0]);
      WithoutMembers(d.queue, hs[0]);
      var t := Silence(d, hs[0]);
      assert t.settlements == FailDropped(d, d.queue, hs[0]).settlements && t.log == d.log;
      SilencingSpares(t, hs[1..], f);
    }
  }

  /** The future of the job at work is held by no queued job. */
  lemma WorkersFuture(d: Desk, f: nat)
    requires AllOwned(d) && d.worker.Busy? && d.worker.job.future == Some(f)
    ensures forall j :: j in d.queue ==> j.future != Some(f)
  {
    assert Owned(d, f);
    ClaimsJobs(d, f);
    ClaimedIsThere(d.queue, f);
  }

  lemma ConcludedSpares(s: State, job: Job, ok: bool, authorized: bool, saved: bool, f: nat)
    requires Inv(s) && s.desk.worker.Busy? && s.desk.worker.job == job && job.future == Some(f) && !Done(s.desk, f)
    ensures !Done(Concluded(s, job, ok, authorized, saved).0.desk, f)
  {
    WorkersFuture(s.desk, f);
    if job.handle in s.reg.rows {
      SilencingSpares(s.desk, Others(s.reg, job.handle), f);
    }
  }

  /** Whether the row of a handle is active once an acknowledged or failed registration has been dealt with. */
  lemma ConcludedActivates(s: State, job: Job, ok: bool, authorized: bool, saved: bool)
    requires Inv(s) && job.action.Register?
    ensures var (t, success, _) := Concluded(s, job, ok, authorized, saved);
            var newly := HasStatus(s.reg, job.handle, Pending) && IsCurrent(s.reg, job);
            && (HasStatus(t.reg, job.handle, Active) <==>
                  HasStatus(s.reg, job.handle, Active) || (newly && ok && InScope(s, authorized)))
            && (HasStatus(t.reg, job.handle, Active) ==>
                  success == (ok && (newly ==> saved)) && t.failed == (s.failed || (newly && !saved)) && t.desk.closed == s.desk.closed)
  {
    if HasStatus(s.reg, job.handle, Pending) && IsCurrent(s.reg, job) && ok && InScope(s, authorized) {
      ActivationActivates(s, job.handle, saved);
    }
  }

  lemma ActivationActivates(s: State, h: Handle, saved: bool)
    requires Inv(s) && h in s.reg.rows
    ensures var t := Activation(s, h, saved);
            HasStatus(t.reg, h, Active) && t.failed == (s.failed || !saved) && t.desk.closed == s.desk.closed
  {
    OthersAre(s.reg, h);
    SilenceAllFrame(s.desk, Others(s.reg, h));
    DebtAllIs(WithStatus(s.reg, h, Active), Others(s.reg, h));
  }

  /** What letting go of a job does to its future. */
  lemma ReleasedSettles(c: (State, bool, seq<Handle>), job: Job, still: bool, f: nat)
    requires job.future == Some(f) && !Done(c.0.desk, f)
    ensures var t := Released(c, job, still);
            Done(t.desk, f) && (Good(t.desk, f) <==> c.1 && HasStatus(c.0.reg, job.handle, Active) && InScope(c.0, still))
  {
    var d := c.0.desk.(worker := Idle);
    EnqueueAllIs(d, c.0.reg, c.2);
    var e := EnqueueAll(d, c.0.reg, c.2);
    assert Done(e, f) == Done(c.0.desk, f);
    var t := Released(c, job, still).desk;
    assert t.settlements[|e.settlements|].future == f;
  }

  /** The POST has begun and was answered with success. */
  predicate Acknowledged(s: State, answer: bool) {
    s.desk.worker.Busy? && s.desk.worker.phase.Posting? && answer
  }

  /** What a register POST that ends, in a state s, needs for its future to be granted. */
  predicate Grantable(s: State, answer: bool, authorized: bool, still: bool, saved: bool)
    requires s.desk.worker.Busy?
  {
    var job := s.desk.worker.job;
    && Acknowledged(s, answer)
    && (|| HasStatus(s.reg, job.handle, Active)
        || (HasStatus(s.reg, job.handle, Pending) && IsCurrent(s.reg, job) && authorized && saved))
    && !s.desk.closed && !s.failed && still
  }

  lemma GrantsIff(s: State, answer: bool, authorized: bool, still: bool, saved: bool, f: nat)
    requires Inv(s) && s.desk.worker.Busy? && s.desk.worker.job.action.Register? && s.desk.worker.job.future == Some(f) && !Done(s.desk, f)
    ensures var t := Step(s, Finish(answer, authorized, still, saved));
            Done(t.desk, f) && (Good(t.desk, f) <==> Grantable(s, answer, authorized, still, saved))
  {
    var job, ok := s.desk.worker.job, Acknowledged(s, answer);
    var s1 := s.(desk := Noted(s.desk, ok));
    NotedKeeps(s.desk, ok);
    assert Done(s1.desk, f) == Done(s.desk, f);
    ConcludedSpares(s1, job, ok, authorized, saved, f);
    ConcludedActivates(s1, job, ok, authorized, saved);
    ReleasedSettles(Concluded(s1, job, ok, authorized, saved), job, still, f);
  }

  lemma ActivatesIff(s: State, answer: bool, authorized: bool, still: bool, saved: bool)
    requires Inv(s) && s.desk.worker.Busy? && s.desk.worker.job.action.Register?
    ensures var (t, job) := (Step(s, Finish(answer, authorized, still, saved)), s.desk.worker.job);
            HasStatus(t.reg, job.handle, Active) <==>
              || HasStatus(s.reg, job.handle, Active)
              || (HasStatus(s.reg, job.handle, Pending) && IsCurrent(s.reg, job) && Acknowledged(s, answer) && InScope(s, authorized))
  {
    var ok := Acknowledged(s, answer);
    NotedKeeps(s.desk, ok);
    FinishedFrame(s, answer, authorized, still, saved);
    ConcludedActivates(s.(desk := Noted(s.desk, ok)), s.desk.worker.job, ok, authorized, saved);
  }

  /**
   * In every run: the end of a register POST settles its future, if nothing has settled it before,
   * and settles it well if and only if the POST was acknowledged; its row was active already, or
   * was pending, of the generation of the job, in scope, and saved as active; and the bridge is
   * open, has not failed, and the device is still authorized.
   */
  lemma GrantedIff(ops: seq<Op>, answer: bool, authorized: bool, still: bool, saved: bool, f: nat)
    requires var s := After(Empty, ops);
             s.desk.worker.Busy? && s.desk.worker.job.action.Register? && s.desk.worker.job.future == Some(f) && !Done(s.desk, f)
    ensures var s := After(Empty, ops);
            var t := Step(s, Finish(answer, authorized, still, saved));
            Done(t.desk, f) && (Good(t.desk, f) <==> Grantable(s, answer, authorized, still, saved))
  {
    EmptyIsSound();
    RunKeeps(Empty, ops);
    GrantsIff(After(Empty, ops), answer, authorized, still, saved, f);
  }

  /**
   * And its row is active after it if and only if it was before, or was pending and current and was
   * acknowledged in scope.
   */
  lemma ActiveIff(ops: seq<Op>, answer: bool, authorized: bool, still: bool, saved: bool)
    requires var s := After(Empty, ops); s.desk.worker.Busy? && s.desk.worker.job.action.Register?
    ensures var s := After(Empty, ops);
            var (t, job) := (Step(s, Finish(answer, authorized, still, saved)), s.desk.worker.job);
            HasStatus(t.reg, job.handle, Active) <==>
              || HasStatus(s.reg, job.handle, Active)
              || (HasStatus(s.reg, job.handle, Pending) && IsCurrent(s.reg, job) && Acknowledged(s, answer) && InScope(s, authorized))
  {
    EmptyIsSound();
    RunKeeps(Empty, ops);
    ActivatesIff(After(Empty, ops), answer, authorized, still, saved);
  }

  // ------------------------------------------------------------ going through

  /** A registration that finds an open, unfailed bridge with room and nothing queued: it enters, is posted and answered. */
  function Registering(i: nat, new_: Handle): seq<Op> {
    [Enter(i, None, new_, true), Take(true), Begin, Finish(true, true, true, true)]
  }

  /** The bridge serves: it is open, has not failed, and its worker is not at work. */
  predicate Serves(s: State) {
    !s.desk.closed && !s.failed && (s.desk.worker.Absent? || s.desk.worker.Idle?)
  }

  lemma RunFour(s: State, ops: seq<Op>)
    requires |ops| == 4
    ensures After(s, ops) == Step(Step(Step(Step(s, ops[0]), ops[1]), ops[2]), ops[3])
  {
    var s1 := Step(s, ops[0]);
    var s2 := Step(s1, ops[1]);
    var s3 := Step(s2, ops[2]);
    RunOfStates(Stepper(), ops, [s, s1, s2, s3, Step(s3, ops[3])], [(), (), (), ()]);
  }

  /** The state in which a registration has entered with nothing else queued. */
  function Entering(s: State, i: nat, new_: Handle): State
    requires i < |s.waiting|
  {
    var job := Job(Register, new_, Some(s.desk.futures), 0);
    State(Added(s.reg, new_, s.waiting[i].device, s.waiting[i].epoch),
          Desk([job], Idle, false, s.desk.futures + 1, s.desk.settlements, s.desk.log, s.desk.mark), false,
          s.waiting[..i] + s.waiting[i + 1..], Some(Ticket(new_, s.desk.futures)))
  }

  lemma RegistrationEnters(s: State, i: nat, new_: Handle)
    requires Serves(s) && s.desk.queue == [] && Enters(s, i, None, new_) && |s.reg.rows| < MAX_ROWS
    ensures Step(s, Enter(i, None, new_, true)) == Entering(s, i, new_)
  {
  }

  /** After entering and being taken up, the POST of a registration is at work. */
  lemma RegistrationIsPosted(s: State, i: nat, new_: Handle) returns (t: State)
    requires Inv(s) && Serves(s) && s.desk.queue == [] && Enters(s, i, None, new_) && |s.reg.rows| < MAX_ROWS
    ensures t == Step(Step(Step(s, Enter(i, None, new_, true)), Take(true)), Begin) && Inv(t)
    ensures var job := Job(Register, new_, Some(s.desk.futures), 0);
            && t.desk.worker == Busy(job, Posting) && !t.desk.closed && !t.failed
            && HasStatus(t.reg, new_, Pending) && IsCurrent(t.reg, job) && !Done(t.desk, s.desk.futures)
  {
    var t1, t2 := Entering(s, i, new_), AtWork(s, i, new_, Scheduled);
    RegistrationEnters(s, i, new_);
    EntryIsTaken(s, i, new_);
    t := Step(t2, Begin);
    StepKeeps(s, Enter(i, None, new_, true));
    StepKeeps(t1, Take(true));
    StepKeeps(t2, Begin);
    assert Owned(s.desk, s.desk.futures);
    assert Done(t.desk, s.desk.futures) == Done(s.desk, s.desk.futures);
  }

  /** The same state with the POST at work. */
  function AtWork(s: State, i: nat, new_: Handle, phase: Phase): State
    requires i < |s.waiting|
  {
    var t := Entering(s, i, new_);
    t.(desk := t.desk.(queue := [], worker := Busy(t.desk.queue[0], phase)))
  }

  lemma EntryIsTaken(s: State, i: nat, new_: Handle)
    requires i < |s.waiting|
    ensures Step(Entering(s, i, new_), Take(true)) == AtWork(s, i, new_, Scheduled)
    ensures var t := AtWork(s, i, new_, Posting);
            Step(AtWork(s, i, new_, Scheduled), Begin) == t.(desk := t.desk.(log := s.desk.log + [Posted(Register, new_)]))
  {
  }

  /**
   * From every reachable state in which the bridge serves with nothing queued: a registration that
   * passed its checks and gets the lock, and whose POST is answered with success, ends with its
   * row active and its future granted.
   */
  lemma RegistrationGoesThrough(ops: seq<Op>, i: nat, new_: Handle)
    requires var s := After(Empty, ops);
             Serves(s) && s.desk.queue == [] && Enters(s, i, None, new_) && |s.reg.rows| < MAX_ROWS
    ensures var s := After(Empty, ops);
            var t := After(s, Registering(i, new_));
            HasStatus(t.reg, new_, Active) && Good(t.desk, s.desk.futures)
  {
    EmptyIsSound();
    RunKeeps(Empty, ops);
    var s := After(Empty, ops);
    var s3 := RegistrationIsPosted(s, i, new_);
    GrantsIff(s3, true, true, true, true, s.desk.futures);
    ActivatesIff(s3, true, true, true, true);
    RunFour(s, Registering(i, new_));
  }

  lemma RunThree(s: State, ops: seq<Op>)
    requires |ops| == 3
    ensures After(s, ops) == Step(Step(Step(s, ops[0]), ops[1]), ops[2])
  {
    var s1 := Step(s, ops[0]);
    var s2 := Step(s1, ops[1]);
    RunOfStates(Stepper(), ops, [s, s1, s2, Step(s2, ops[2])], [(), (), ()]);
  }

  /** The dispatch that holds the lock lets go of it as soon as its future is settled, and not before. */
  lemma LockIsFreedIff(s: State, authorized: bool, saved: bool)
    requires s.lock.Some?
    ensures var t := Step(s, Resume(authorized, saved));
            t.lock.None? == Done(s.desk, s.lock.value.future) && t.reg == s.reg && t.desk == s.desk
  {
  }

  /** An active handle in scope is woken: the POST goes out. */
  lemma WakeIsPosted(s: State, h: Handle)
    requires Serves(s) && s.desk.queue == [] && HasStatus(s.reg, h, Active) && h in s.reg.generation
    ensures After(s, [WakeUp(h, true), Take(true), Begin]).desk.log == s.desk.log + [Posted(Wake, h)]
  {
    var ops := [WakeUp(h, true), Take(true), Begin];
    RunThree(s, ops);
    var job := Job(Wake, h, None, GenerationOf(s.reg, h));
    assert Step(s, ops[0]).desk.queue == [job];
  }

  /** A debt is paid: the unregistration goes out, and when it is acknowledged the row is gone. */
  lemma DebtIsPaid(s: State, h: Handle)
    requires Serves(s) && s.desk.worker.Idle? && s.desk.queue == [] && HasStatus(s.reg, h, Debt) && h in s.reg.generation
    ensures var t := After(s, [Retry(h), Take(true), Begin, Finish(true, true, true, true)]);
            t.desk.log == s.desk.log + [Posted(Unregister, h), Acked(Unregister, h)] && h !in t.reg.rows
  {
    var ops := [Retry(h), Take(true), Begin, Finish(true, true, true, true)];
    RunFour(s, ops);
    var job := UnregisterJob(s.reg, h);
    var s1 := Step(s, ops[0]);
    assert s1.desk.queue == [job];
    var s3 := Step(Step(s1, ops[1]), ops[2]);
    assert s3.desk.worker == Busy(job, Posting) && s3.reg == s.reg;
    FinishedFrame(s3, true, true, true, true);
    assert s3.desk.log + [Acked(Unregister, h)] == s.desk.log + [Posted(Unregister, h), Acked(Unregister, h)];
  }

  // -------------------------------------------------------------- nobody overtakes

  /** The position of the job that holds a future; the length of the queue if there is none. */
  function Place(q: seq<Job>, f: nat): (k: nat)
    ensures k <= |q| && (k < |q| ==> q[k].future == Some(f))
    ensures forall i :: 0 <= i < k ==> q[i].future != Some(f)
    decreases |q|
  {
    if q == [] then 0 else if q[0].future == Some(f) then 0 else 1 + Place(q[1..], f)
  }

  /** What has happened to a future: it is settled, or its job is at work, or no more than n jobs are ahead of it. */
  ghost predicate Within(d: Desk, f: nat, n: int) {
    Done(d, f) || (d.worker.Busy? && d.worker.job.future == Some(f)) || (Place(d.queue, f) < |d.queue| && Place(d.queue, f) <= n)
  }

  lemma {:induction false} PlaceWithout(q: seq<Job>, h: Handle, f: nat)
    requires Place(q, f) < |q| && q[Place(q, f)].handle != h
    ensures Place(Without(q, h), f) < |Without(q, h)| && Place(Without(q, h), f) <= Place(q, f)
    decreases |q|
  {
    if q[0].future != Some(f) {
      PlaceWithout(q[1..], h, f);
      assert q[0].handle == h ==> Without(q, h) == Without(q[1..], h);
      if q[0].handle != h {
        assert Without(q, h)[1..] == Without(q[1..], h);
      }
    }
  }

  lemma PlaceAppend(q: seq<Job>, more: seq<Job>, f: nat)
    requires Place(q, f) < |q|
    ensures Place(q + more, f) == Place(q, f)
  {
    var k := Place(q, f);
    assert (q + more)[k] == q[k];
    forall i | 0 <= i < k
      ensures (q + more)[i].future != Some(f)
    {
      assert (q + more)[i] == q[i];
    }
  }

  lemma SilencePlaces(d: Desk, h: Handle, f: nat, n: int)
    requires SettledOnce(d) && GrantsAreAcked(d) && Within(d, f, n)
    ensures Within(Silence(d, h), f, n)
  {
    FailDroppedIs(d, d.queue, h);
    var t := Silence(d, h);
    assert t.settlements == FailDropped(d, d.queue, h).settlements;
    var k := Place(d.queue, f);
    if !Done(t, f) && !(d.worker.Busy? && d.worker.job.future == Some(f)) {
      assert d.queue[k] in d.queue;
      PlaceWithout(d.queue, h, f);
    }
  }

  lemma {:induction false} SilenceAllPlaces(d: Desk, hs: seq<Handle>, f: nat, n: int)
    requires SettledOnce(d) && GrantsAreAcked(d) && Within(d, f, n)
    ensures Within(SilenceAll(d, hs), f, n)
    decreases |hs|
  {
    if hs != [] {
      FailDroppedIs(d, d.queue, hs[0]);
      SilencePlaces(d, hs[0], f, n);
      SilenceAllPlaces(Silence(d, hs[0]), hs[1..], f, n);
    }
  }

  lemma EnqueueAllPlaces(d: Desk, g: Registry, hs: seq<Handle>, f: nat, n: int)
    requires Within(d, f, n)
    ensures Within(EnqueueAll(d, g, hs), f, n)
  {
    EnqueueAllIs(d, g, hs);
    var t := EnqueueAll(d, g, hs);
    assert t.queue == d.queue + t.queue[|d.queue|..];
    if Place(d.queue, f) < |d.queue| {
      PlaceAppend(d.queue, t.queue[|d.queue|..], f);
    }
    assert Done(t, f) == Done(d, f);
  }

  lemma EnqueuePlaces(d: Desk, j: Job, f: nat, n: int)
    requires Within(d, f, n)
    ensures Within(Enqueue(d, j), f, n)
  {
    if Place(d.queue, f) < |d.queue| {
      PlaceAppend(d.queue, [j], f);
    }
    assert Done(Enqueue(d, j), f) == Done(d, f);
  }

  lemma RevokedPlaces(s: State, device: string, epoch: Option<int>, saved: bool, f: nat, n: int)
    requires Inv(s) && Within(s.desk, f, n)
    ensures Within(Revoked(s, device, epoch, saved).desk, f, n)
  {
    var hs := Selected(s.reg, s.reg.order, device, epoch, None);
    if hs != [] {
      var g, d := DebtAll(s.reg, hs), SilenceAll(s.desk, hs);
      SilenceAllPlaces(s.desk, hs, f, n);
      EnqueueAllPlaces(d, g, hs, f, n);
    }
  }

  lemma ConcludedPlaces(s: State, job: Job, ok: bool, authorized: bool, saved: bool, f: nat, n: int)
    requires Inv(s) && Within(s.desk, f, n)
    ensures Within(Concluded(s, job, ok, authorized, saved).0.desk, f, n)
  {
    var h := job.handle;
    if h in s.reg.rows {
      SilenceAllPlaces(s.desk, Others(s.reg, h), f, n);
      EnqueuePlaces(s.desk, UnregisterJob(MakeDebt(s.reg, h), h), f, n);
    }
  }

  lemma FinishedPlaces(s: State, answer: bool, authorized: bool, still: bool, saved: bool, f: nat, n: int)
    requires Inv(s) && s.desk.worker.Busy? && Within(s.desk, f, n)
    ensures Within(Finished(s, answer, authorized, still, saved).desk, f, n)
  {
    var job, ok := s.desk.worker.job, answer && s.desk.worker.phase.Posting?;
    var s1 := s.(desk := Noted(s.desk, ok));
    NotedKeeps(s.desk, ok);
    assert Done(s1.desk, f) == Done(s.desk, f);
    ConcludedPlaces(s1, job, ok, authorized, saved, f, n);
    ConcludedFrame(s1, job, ok, authorized, saved);
    ReleasedPlaces(Concluded(s1, job, ok, authorized, saved), job, still, f, n);
  }

  lemma ReleasedPlaces(c: (State, bool, seq<Handle>), job: Job, still: bool, f: nat, n: int)
    requires c.0.desk.worker.Busy? && c.0.desk.worker.job == job && Within(c.0.desk, f, n)
    ensures Within(Released(c, job, still).desk, f, n)
  {
    if job.future == Some(f) && !Done(c.0.desk, f) {
      ReleasedSettles(c, job, still, f);
    } else {
      var d := c.0.desk.(worker := Idle);
      assert Done(d, f) == Done(c.0.desk, f);
      EnqueueAllPlaces(d, c.0.reg, c.2, f, n);
      var e := EnqueueAll(d, c.0.reg, c.2);
      if job.future.Some? && Done(e, f) {
        SettleDone(e, job.future.value, job.handle, false, f);
        SettleDone(e, job.future.value, job.handle, true, f);
      }
    }
  }

  lemma ClosedPlaces(s: State, f: nat, n: int)
    requires Inv(s) && Within(s.desk, f, n)
    ensures Within(Closed(s.desk), f, n)
  {
    var d := s.desk.(closed := true, mark := s.desk.futures);
    SettleQueueIs(d, s.desk.queue);
    var t := SettleQueue(d, s.desk.queue);
    assert Done(d, f) == Done(s.desk, f) && Done(Closed(s.desk), f) == Done(t, f);
    var k := Place(s.desk.queue, f);
    if k < |s.desk.queue| {
      assert s.desk.queue[k] in s.desk.queue;
    }
  }

  lemma TakenPlaces(s: State, authorized: bool, f: nat, n: int)
    requires Inv(s) && s.desk.worker.Idle? && Within(s.desk, f, n)
    ensures Within(Taken(s, authorized), f, n - 1)
  {
    var d := s.desk;
    if d.queue != [] {
      var job := d.queue[0];
      var t := d.(queue := d.queue[1..]);
      assert Done(t, f) == Done(d, f) && job in d.queue;
      assert Done(t.(worker := Exited), f) == Done(d, f);
      if job.future.Some? {
        SettleDone(t, job.future.value, job.handle, false, f);
      }
    }
  }

  /** Entering adds at most one job, at the end, and settles nothing. */
  lemma EnterQueues(s: State, i: nat, reuse: Option<Handle>, new_: Handle, saved: bool) returns (more: seq<Job>)
    ensures Grows(s.desk, Step(s, Enter(i, reuse, new_, saved)).desk, more)
  {
    if Enters(s, i, reuse, new_) {
      more := RegisteredQueues(s, i, reuse, new_, saved);
    } else {
      more := [];
    }
  }

  ghost predicate Grows(d: Desk, t: Desk, more: seq<Job>) {
    t.queue == d.queue + more && t.settlements == d.settlements && (d.worker.Busy? ==> t.worker == d.worker)
  }

  lemma RegisteredQueues(s: State, i: nat, reuse: Option<Handle>, new_: Handle, saved: bool) returns (more: seq<Job>)
    requires i < |s.waiting|
    ensures Grows(s.desk, Registered(s, i, reuse, new_, saved).desk, more)
  {
    var s1 := s.(waiting := s.waiting[..i] + s.waiting[i + 1..], desk := Start(s.desk));
    more := [];
    if reuse.Some? {
      more := AskedQueues(s1, reuse.value, saved);
    } else if saved && |s1.desk.queue| < QUEUE_SIZE && |s1.reg.rows| < MAX_ROWS {
      more := AskedQueues(Save(s1.(reg := Added(s1.reg, new_, s.waiting[i].device, s.waiting[i].epoch)), true), new_, true);
    }
  }

  lemma AskedQueues(s: State, h: Handle, saved: bool) returns (more: seq<Job>)
    ensures Grows(s.desk, Asked(s, h, saved).desk, more)
  {
    more := if |s.desk.queue| >= QUEUE_SIZE then [] else [Job(Register, h, Some(s.desk.futures), GenerationOf(s.reg, h))];
  }

  lemma EnterPlaces(s: State, i: nat, reuse: Option<Handle>, new_: Handle, saved: bool, f: nat, n: int)
    requires Within(s.desk, f, n)
    ensures Within(Step(s, Enter(i, reuse, new_, saved)).desk, f, n)
  {
    var more := EnterQueues(s, i, reuse, new_, saved);
    if Place(s.desk.queue, f) < |s.desk.queue| {
      PlaceAppend(s.desk.queue, more, f);
    }
  }

  lemma OtherPlaces(s: State, op: Op, f: nat, n: int)
    requires Within(s.desk, f, n) && (op.Admit? || op.Leave? || op.Resume? || op.Abandon? || op.WakeUp? || op.Retry? || op.Begin?)
    ensures Within(Step(s, op).desk, f, n)
  {
    match op
    case WakeUp(h, _) => EnqueuePlaces(s.desk, Job(Wake, h, None, GenerationOf(s.reg, h)), f, n);
    case Retry(h) => EnqueuePlaces(s.desk, UnregisterJob(s.reg, h), f, n);
    case Abandon =>
      if s.lock.Some? {
        SettleDone(s.desk, s.lock.value.future, s.lock.value.handle, false, f);
      }
    case Begin => assert Done(Began(s.desk), f) == Done(s.desk, f);
    case _ =>
  }

  /** A step in which the worker, not at work, takes the next job. */
  predicate Fetches(s: State, op: Op) {
    op.Take? && s.desk.worker.Idle?
  }

  /**
   * Whatever happens, no job comes in front of one that was queued before it, and every fetch brings it
   * one place forward.
   */
  lemma NobodyOvertakes(s: State, op: Op, f: nat, n: int)
    requires Inv(s) && Within(s.desk, f, n)
    ensures Within(Step(s, op).desk, f, if Fetches(s, op) then n - 1 else n)
  {
    match op
    case Revoke(d, e, saved) => RevokedPlaces(s, d, e, saved, f, n);
    case Finish(answer, authorized, still, saved) =>
      if s.desk.worker.Busy? {
        FinishedPlaces(s, answer, authorized, still, saved, f, n);
      }
    case CloseDown => ClosedPlaces(s, f, n);
    case Take(authorized) =>
      if s.desk.worker.Idle? {
        TakenPlaces(s, authorized, f, n);
      }
    case Enter(i, reuse, new_, saved) => EnterPlaces(s, i, reuse, new_, saved, f, n);
    case _ => OtherPlaces(s, op, f, n);
  }

  /** How often the worker fetches a job in a run. */
  function Fetched(s: State, ops: seq<Op>): (n: nat)
    decreases |ops|
  {
    if ops == [] then 0 else (if Fetches(s, ops[0]) then 1 else 0) + Fetched(Step(s, ops[0]), ops[1..])
  }

  lemma {:induction false} WithinAfter(s: State, ops: seq<Op>, f: nat, n: int)
    requires Inv(s) && Within(s.desk, f, n)
    ensures Within(After(s, ops).desk, f, n - Fetched(s, ops))
    decreases |ops|
  {
    if ops != [] {
      StepKeeps(s, ops[0]);
      NobodyOvertakes(s, ops[0], f, n);
      WithinAfter(Step(s, ops[0]), ops[1..], f, if Fetches(s, ops[0]) then n - 1 else n);
    }
  }

  /**
   * In every run: a registration that waits in the queue is at work or answered as soon as the
   * worker has fetched as many jobs as were ahead of it and one more, whatever else is queued,
   * dropped, revoked or closed meanwhile.
   */
  lemma EveryRegistrationIsReached(before: seq<Op>, f: nat, later: seq<Op>)
    requires var s := After(Empty, before);
             Place(s.desk.queue, f) < |s.desk.queue| && Fetched(s, later) > Place(s.desk.queue, f)
    ensures var t := After(After(Empty, before), later);
            Done(t.desk, f) || (t.desk.worker.Busy? && t.desk.worker.job.future == Some(f))
  {
    EmptyIsSound();
    RunKeeps(Empty, before);
    var s := After(Empty, before);
    WithinAfter(s, later, f, Place(s.desk.queue, f));
  }

  // -------------------------------------------------------------- debts are called in

  /** With room for all of them, queuing unregistrations queues one for each, in order. */
  lemma {:induction false} AllAreQueued(d: Desk, g: Registry, hs: seq<Handle>)
    requires |d.queue| + |hs| <= QUEUE_SIZE
    ensures EnqueueAll(d, g, hs).queue == d.queue + seq(|hs|, i requires 0 <= i < |hs| => UnregisterJob(g, hs[i]))
    decreases |hs|
  {
    if hs != [] {
      AllAreQueued(Enqueue(d, UnregisterJob(g, hs[0])), g, hs[1..]);
      assert seq(|hs|, i requires 0 <= i < |hs| => UnregisterJob(g, hs[i]))
          == [UnregisterJob(g, hs[0])] + seq(|hs| - 1, i requires 0 <= i < |hs| - 1 => UnregisterJob(g, hs[1..][i]));
    }
  }

  /** An unregistration of the handle is queued. */
  ghost predicate Called(d: Desk, h: Handle) {
    exists j :: j in d.queue && j.action.Unregister? && j.handle == h
  }

  lemma QueuedIsCalled(d: Desk, g: Registry, hs: seq<Handle>, h: Handle)
    requires |d.queue| + |hs| <= QUEUE_SIZE && h in hs
    ensures Called(EnqueueAll(d, g, hs), h)
  {
    AllAreQueued(d, g, hs);
    var i :| 0 <= i < |hs| && hs[i] == h;
    assert EnqueueAll(d, g, hs).queue[|d.queue| + i] == UnregisterJob(g, h);
  }

  lemma {:induction false} SilencingShortens(d: Desk, hs: seq<Handle>)
    ensures |SilenceAll(d, hs).queue| <= |d.queue|
    decreases |hs|
  {
    if hs != [] {
      SilencingShortens(Silence(d, hs[0]), hs[1..]);
    }
  }

  /** A revocation that is saved and finds room puts every row that it selects into debt and calls the debt in. */
  lemma RevokedAreCalled(s: State, device: string, epoch: Option<int>, h: Handle)
    requires Inv(s) && h in s.reg.rows && Selects(s.reg.rows[h], device, epoch)
    requires |s.desk.queue| + |Selected(s.reg, s.reg.order, device, epoch, None)| <= QUEUE_SIZE
    ensures var t := Step(s, Revoke(device, epoch, true)); HasStatus(t.reg, h, Debt) && Called(t.desk, h)
  {
    RevokedOwes(s, device, epoch, h);
    RevokedQueue(s, device, epoch, h);
  }

  lemma RevokedOwes(s: State, device: string, epoch: Option<int>, h: Handle)
    requires Inv(s) && h in s.reg.rows && Selects(s.reg.rows[h], device, epoch)
    ensures h in Selected(s.reg, s.reg.order, device, epoch, None) && HasStatus(Revoked(s, device, epoch, true).reg, h, Debt)
  {
    var hs := Selected(s.reg, s.reg.order, device, epoch, None);
    SelectedIs(s.reg, s.reg.order, device, epoch, None);
    DebtAllIs(s.reg, hs);
  }

  lemma RevokedQueue(s: State, device: string, epoch: Option<int>, h: Handle)
    requires var hs := Selected(s.reg, s.reg.order, device, epoch, None); h in hs && |s.desk.queue| + |hs| <= QUEUE_SIZE
    ensures Called(Revoked(s, device, epoch, true).desk, h)
  {
    var hs := Selected(s.reg, s.reg.order, device, epoch, None);
    SilencingShortens(s.desk, hs);
    QueuedIsCalled(SilenceAll(s.desk, hs), DebtAll(s.reg, hs), hs, h);
  }

  /** A new registration that becomes active, with room, puts the other rows of its device into debt and calls them in. */
  lemma OthersAreCalled(s: State, still: bool, saved: bool, h: Handle)
    requires Inv(s) && s.desk.worker.Busy? && s.desk.worker.job.action.Register? && s.desk.worker.phase.Posting?
    requires var job := s.desk.worker.job;
             && HasStatus(s.reg, job.handle, Pending) && IsCurrent(s.reg, job) && InScope(s, true)
             && h in Others(s.reg, job.handle) && |s.desk.queue| + |Others(s.reg, job.handle)| <= QUEUE_SIZE
    ensures var t := Step(s, Finish(true, true, still, saved)); HasStatus(t.reg, h, Debt) && Called(t.desk, h)
  {
    var job := s.desk.worker.job;
    var s1 := s.(desk := Noted(s.desk, true));
    var hs := Others(s.reg, job.handle);
    ActivationIs(s1, job.handle, saved, h);
    var t := Activation(s1, job.handle, saved);
    assert Concluded(s1, job, true, true, saved) == (t, saved, hs);
    QueuedIsCalled(t.desk.(worker := Idle), t.reg, hs, h);
    ReleasedQueue((t, saved, hs), job, still);
  }

  lemma ActivationIs(s: State, k: Handle, saved: bool, h: Handle)
    requires RegistrySound(s.reg) && k in s.reg.rows && h in Others(s.reg, k)
    ensures var t := Activation(s, k, saved); HasStatus(t.reg, h, Debt) && |t.desk.queue| <= |s.desk.queue|
  {
    OthersAre(s.reg, k);
    DebtAllIs(WithStatus(s.reg, k, Active), Others(s.reg, k));
    SilencingShortens(s.desk, Others(s.reg, k));
  }

  lemma ReleasedQueue(c: (State, bool, seq<Handle>), job: Job, still: bool)
    ensures var t := Released(c, job, still);
            t.reg == c.0.reg && t.desk.queue == EnqueueAll(c.0.desk.(worker := Idle), c.0.reg, c.2).queue
  {
  }

  /** A pending registration that is not acknowledged in scope, saved and with room, goes into debt, which is called in. */
  lemma RefusedIsCalled(s: State, answer: bool, authorized: bool, still: bool)
    requires s.desk.worker.Busy? && s.desk.worker.job.action.Register? && |s.desk.queue| < QUEUE_SIZE
    requires var job := s.desk.worker.job;
             && HasStatus(s.reg, job.handle, Pending) && IsCurrent(s.reg, job)
             && !(Acknowledged(s, answer) && InScope(s, authorized))
    ensures var t := Step(s, Finish(answer, authorized, still, true));
            HasStatus(t.reg, s.desk.worker.job.handle, Debt) && Called(t.desk, s.desk.worker.job.handle)
  {
    var job, ok := s.desk.worker.job, Acknowledged(s, answer);
    var s1 := s.(desk := Noted(s.desk, ok));
    var c := Concluded(s1, job, ok, authorized, true);
    var j := UnregisterJob(MakeDebt(s1.reg, job.handle), job.handle);
    ReleasedQueue(c, job, still);
    var t := Released(c, job, still);
    assert t.desk.queue == s.desk.queue + [j];
    assert j in t.desk.queue;
  }

  // ---------------------------------------------------------------- what is posted

  /** Putting a handle into debt makes every job for it stale that was current until then. */
  lemma DebtMakesStale(g: Registry, job: Job)
    requires IsCurrent(g, job)
    ensures !IsCurrent(MakeDebt(g, job.handle), job)
  {
  }

  /** What the row of a job must say for its action, on a bridge in this state. */
  predicate Due(s: State, action: Action, row: Row, authorized: bool) {
    match action
    case Unregister => row.status.Debt?
    case Register => !row.status.Debt? && !s.desk.closed && !s.failed && authorized
    case _ => row.status.Active? && !s.desk.closed && !s.failed && authorized
  }

  /**
   * A job that the worker fetches is taken up if and only if its row is still there, of the
   * generation of the job, and in a state that its action asks for; the future of one that is not
   * taken up is settled, and not well.
   */
  lemma TakenUpIff(s: State, authorized: bool)
    requires Inv(s) && s.desk.worker.Idle? && s.desk.queue != [] && !s.desk.queue[0].action.Close?
    ensures var job := s.desk.queue[0];
            var t := Step(s, Take(authorized));
            var due := job.handle in s.reg.rows && job.handle in s.reg.generation && s.reg.generation[job.handle] == job.generation
                       && Due(s, job.action, s.reg.rows[job.handle], authorized);
            && t.desk.queue == s.desk.queue[1..] && t.reg == s.reg
            && t.desk.worker == (if due then Busy(job, Scheduled) else Idle)
            && (!due && job.future.Some? ==>
              Done(t.desk, job.future.value) && (Good(t.desk, job.future.value) ==> Good(s.desk, job.future.value)))
  {
    var job := s.desk.queue[0];
    var d := s.desk.(queue := s.desk.queue[1..]);
    if job.future.Some? {
      SettleDone(d, job.future.value, job.handle, false, job.future.value);
    }
  }

  /** A dispatch reuses a row only of its own device and authorization epoch, and never one in debt. */
  lemma ReusesOwnRow(s: State, i: nat, h: Handle, new_: Handle, saved: bool)
    requires s.lock.None? && Step(s, Enter(i, Some(h), new_, saved)) != s
    ensures i < |s.waiting| && h in s.reg.rows
    ensures var row := s.reg.rows[h];
            row.device == s.waiting[i].device && row.epoch == s.waiting[i].epoch && !row.status.Debt?
  {
  }

  /** A dispatch that is cancelled gives up the lock, and its future is settled, well only if it was before. */
  lemma AbandonSettles(s: State)
    requires s.lock.Some?
    ensures var t := Step(s, Abandon);
            var f := s.lock.value.future;
            t.lock.None? && Done(t.desk, f) && (Good(t.desk, f) ==> Good(s.desk, f))
  {
    SettleDone(s.desk, s.lock.value.future, s.lock.value.handle, false, s.lock.value.future);
  }
}
