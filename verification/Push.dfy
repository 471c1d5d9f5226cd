/**
 * The push bridge: registrations that are pending, active or in debt, one worker that posts
 * jobs from a bounded queue, and revocation that may arrive between any two of its steps.
 * A step is one stretch of the program without suspension.
 */
module Push {
  import opened Common
  import opened Machine

  const MAX_ROWS := 64
  const QUEUE_SIZE := 64

  type Handle = string

  datatype Status = Pending | Active | Debt

  datatype Row = Row(device: string, epoch: int, status: Status)

  datatype Action = Register | Unregister | Wake | Close

  datatype Job = Job(action: Action, handle: Handle, future: Option<nat>, generation: nat)

  /** A POST that has been created but not begun can still be cancelled before it begins. */
  datatype Phase = Scheduled | Cancelled | Posting

  datatype Worker = Absent | Idle | Busy(job: Job, phase: Phase) | Exited

  /** What reaches the network: a POST that begins, and a POST that is answered with success. */
  datatype Event = Posted(action: Action, handle: Handle) | Acked(action: Action, handle: Handle)

  datatype Settlement = Settlement(future: nat, handle: Handle, good: bool)

  /** The device and authorization epoch on whose behalf a dispatch runs. */
  datatype Scope = Scope(device: string, epoch: int)

  datatype Ticket = Ticket(handle: Handle, future: nat)

  /** The rows in insertion order, their generations, and every handle ever issued. */
  datatype Registry = Registry(rows: map<Handle, Row>, order: seq<Handle>, generation: map<Handle, nat>, issued: set<Handle>)

  /**
   * The queue and its worker. The number of futures, their settlements, the log of POSTs and
   * the mark (how many futures there were at the last close) record the history.
   */
  datatype Desk = Desk(queue: seq<Job>, worker: Worker, closed: bool, futures: nat,
                       settlements: seq<Settlement>, log: seq<Event>, mark: nat)

  /** `waiting` holds the dispatches that have passed their checks and wait for the registration lock. */
  datatype State = State(reg: Registry, desk: Desk, failed: bool, waiting: seq<Scope>, lock: Option<Ticket>)

  const Empty := State(Registry(map[], [], map[], {}), Desk([], Absent, false, 0, [], [], 0), false, [], None)

  // ---------------------------------------------------------------- the desk

  predicate Done(d: Desk, f: nat) {
    exists i :: 0 <= i < |d.settlements| && d.settlements[i].future == f
  }

  predicate Good(d: Desk, f: nat) {
    exists i :: 0 <= i < |d.settlements| && d.settlements[i].future == f && d.settlements[i].good
  }

  function Settle(d: Desk, f: Option<nat>, h: Handle, good: bool): Desk {
    if f.Some? && !Done(d, f.value) then d.(settlements := d.settlements + [Settlement(f.value, h, good)]) else d
  }

  function Start(d: Desk): Desk {
    if d.worker.Absent? && !d.closed then d.(worker := Idle) else d
  }

  function Enqueue(d: Desk, j: Job): Desk {
    var t := Start(d);
    if |t.queue| >= QUEUE_SIZE then t else t.(queue := t.queue + [j])
  }

  function UnregisterJob(g: Registry, h: Handle): Job {
    Job(Unregister, h, None, GenerationOf(g, h))
  }

  function EnqueueAll(d: Desk, g: Registry, hs: seq<Handle>): Desk
    decreases |hs|
  {
    if hs == [] then d else EnqueueAll(Enqueue(d, UnregisterJob(g, hs[0])), g, hs[1..])
  }

  /** The jobs of a queue that are not for a handle. */
  function Without(q: seq<Job>, h: Handle): (r: seq<Job>)
    ensures |r| <= |q|
    decreases |q|
  {
    if q == [] then []
    else (if q[0].handle == h then [] else [q[0]]) + Without(q[1..], h)
  }

  function FailDropped(d: Desk, q: seq<Job>, h: Handle): Desk
    decreases |q|
  {
    if q == [] then d
    else FailDropped(if q[0].handle == h then Settle(d, q[0].future, h, false) else d, q[1..], h)
  }

  function Drop(d: Desk, h: Handle): Desk {
    FailDropped(d, d.queue, h).(queue := Without(d.queue, h))
  }

  function CancelPost(d: Desk, h: Handle): Desk {
    if d.worker.Busy? && d.worker.job.handle == h && d.worker.phase.Scheduled?
    then d.(worker := d.worker.(phase := Cancelled)) else d
  }

  function Silence(d: Desk, h: Handle): Desk {
    CancelPost(Drop(d, h), h)
  }

  function SilenceAll(d: Desk, hs: seq<Handle>): Desk
    decreases |hs|
  {
    if hs == [] then d else SilenceAll(Silence(d, hs[0]), hs[1..])
  }

  function SettleQueue(d: Desk, q: seq<Job>): Desk
    decreases |q|
  {
    if q == [] then d else SettleQueue(Settle(d, q[0].future, q[0].handle, false), q[1..])
  }

  const Sentinel := Job(Close, "", None, 0)

  function Closed(d: Desk): Desk {
    var t := SettleQueue(d.(closed := true, mark := d.futures), d.queue);
    var u := if t.worker.Busy? then CancelPost(t, t.worker.job.handle) else t;
    u.(queue := if Alive(u) then [Sentinel] else [])
  }

  predicate Alive(d: Desk) {
    d.worker.Idle? || d.worker.Busy?
  }

  function Began(d: Desk): Desk {
    if d.worker.Busy? && d.worker.phase.Scheduled?
    then d.(worker := d.worker.(phase := Posting), log := d.log + [Posted(d.worker.job.action, d.worker.job.handle)])
    else d
  }

  // ------------------------------------------------------------ the registry

  predicate HasStatus(g: Registry, h: Handle, st: Status) {
    h in g.rows && g.rows[h].status == st
  }

  function GenerationOf(g: Registry, h: Handle): nat {
    if h in g.generation then g.generation[h] else 0
  }

  function WithStatus(g: Registry, h: Handle, st: Status): Registry
    requires h in g.rows
  {
    g.(rows := g.rows[h := g.rows[h].(status := st)])
  }

  function MakeDebt(g: Registry, h: Handle): Registry {
    if h !in g.rows then g else WithStatus(g, h, Debt).(generation := g.generation[h := GenerationOf(g, h) + 1])
  }

  function DebtAll(g: Registry, hs: seq<Handle>): Registry
    decreases |hs|
  {
    if hs == [] then g else DebtAll(MakeDebt(g, hs[0]), hs[1..])
  }

  function Added(g: Registry, h: Handle, device: string, epoch: int): Registry {
    Registry(g.rows[h := Row(device, epoch, Pending)], g.order + [h], g.generation[h := 0], g.issued + {h})
  }

  function Removed(g: Registry, h: Handle): Registry {
    g.(rows := g.rows - {h}, generation := g.generation - {h}, order := Delete(g.order, h))
  }

  function Delete(hs: seq<Handle>, h: Handle): (r: seq<Handle>)
    ensures forall x :: x in r <==> x in hs && x != h
    decreases |hs|
  {
    if hs == [] then [] else (if hs[0] == h then [] else [hs[0]]) + Delete(hs[1..], h)
  }

  predicate Selects(r: Row, device: string, epoch: Option<int>) {
    r.device == device && (epoch.Some? ==> r.epoch == epoch.value)
  }

  function Selected(g: Registry, hs: seq<Handle>, device: string, epoch: Option<int>, except: Option<Handle>): (r: seq<Handle>)
    decreases |hs|
  {
    if hs == [] then []
    else
      (if hs[0] in g.rows && Selects(g.rows[hs[0]], device, epoch) && except != Some(hs[0]) then [hs[0]] else [])
      + Selected(g, hs[1..], device, epoch, except)
  }

  /** The rows of the same device that a newly active handle retires. */
  function Others(g: Registry, h: Handle): (r: seq<Handle>)
    requires h in g.rows
  {
    Selected(g, g.order, g.rows[h].device, None, Some(h))
  }

  function Activated(g: Registry, h: Handle): Registry
    requires h in g.rows
  {
    DebtAll(WithStatus(g, h, Active), Others(g, h))
  }

  predicate CanReuse(g: Registry, h: Handle, who: Scope) {
    h in g.rows && g.rows[h].device == who.device && g.rows[h].epoch == who.epoch && g.rows[h].status != Debt
  }

  // ------------------------------------------------------------- operations

  function Save(s: State, saved: bool): State {
    s.(failed := s.failed || !saved)
  }

  /** The scope check; every row of a bridge that began empty carries the bridge's own origin and route. */
  predicate InScope(s: State, authorized: bool) {
    !s.desk.closed && !s.failed && authorized
  }

  function Revoked(s: State, device: string, epoch: Option<int>, saved: bool): State {
    var hs := Selected(s.reg, s.reg.order, device, epoch, None);
    if hs == [] then s
    else
      var g, d := DebtAll(s.reg, hs), SilenceAll(s.desk, hs);
      Save(s.(reg := g, desk := if saved then EnqueueAll(d, g, hs) else d), saved)
  }

  /** The register job and its future; a pending row that finds the queue full goes into debt. */
  function Asked(s: State, h: Handle, saved: bool): State {
    if |s.desk.queue| >= QUEUE_SIZE then
      if HasStatus(s.reg, h, Pending) then Save(s.(reg := MakeDebt(s.reg, h)), saved) else s
    else
      var f := s.desk.futures;
      s.(desk := Asking(s.desk, h, GenerationOf(s.reg, h)), lock := Some(Ticket(h, f)))
  }

  function Asking(d: Desk, h: Handle, generation: nat): Desk {
    Enqueue(d, Job(Register, h, Some(d.futures), generation)).(futures := d.futures + 1)
  }

  /** A registration enters the critical section, for a row it can reuse or a new one. */
  function Registered(s: State, i: nat, reuse: Option<Handle>, new_: Handle, saved: bool): State
    requires i < |s.waiting|
  {
    var who := s.waiting[i];
    var s1 := s.(waiting := s.waiting[..i] + s.waiting[i + 1..], desk := Start(s.desk));
    if reuse.Some? then Asked(s1, reuse.value, saved)
    else if |s1.desk.queue| >= QUEUE_SIZE || |s1.reg.rows| >= MAX_ROWS then s1
    else
      var t := Save(s1.(reg := Added(s1.reg, new_, who.device, who.epoch)), saved);
      if saved then Asked(t, new_, true) else t
  }

  predicate IsCurrent(g: Registry, job: Job) {
    job.handle in g.rows && job.handle in g.generation && g.generation[job.handle] == job.generation
  }

  /** Whether the worker goes on to post a job that it has taken. */
  predicate Proceeds(s: State, job: Job, authorized: bool) {
    && IsCurrent(s.reg, job)
    && match job.action
       case Unregister => s.reg.rows[job.handle].status == Debt
       case Register => s.reg.rows[job.handle].status != Debt && InScope(s, authorized)
       case _ => s.reg.rows[job.handle].status == Active && InScope(s, authorized)
  }

  function Taken(s: State, authorized: bool): Desk {
    var d := s.desk;
    if !d.worker.Idle? || d.queue == [] then d
    else
      var job := d.queue[0];
      var t := d.(queue := d.queue[1..]);
      if job.action.Close? then t.(worker := Exited)
      else if Proceeds(s, job, authorized) then t.(worker := Busy(job, Scheduled))
      else Settle(t, job.future, job.handle, false)
  }

  /** An acknowledged registration: its row becomes active and retires the others of its device. */
  function Activation(s: State, h: Handle, saved: bool): State
    requires h in s.reg.rows
  {
    Save(s.(reg := Activated(s.reg, h), desk := SilenceAll(s.desk, Others(s.reg, h))), saved)
  }

  /** A pending row whose registration did not succeed goes into debt. */
  function Refusal(s: State, h: Handle, saved: bool): State {
    var g := MakeDebt(s.reg, h);
    if saved then s.(reg := g, desk := Enqueue(s.desk, UnregisterJob(g, h))) else Save(s.(reg := g), false)
  }

  /** What the bridge makes of an answered POST: the new state, whether it counts as a success, whom it retires. */
  function Concluded(s: State, job: Job, ok: bool, authorized: bool, saved: bool): (State, bool, seq<Handle>) {
    var h := job.handle;
    if !IsCurrent(s.reg, job) then (s, ok, [])
    else if job.action.Unregister? && ok then (Save(s.(reg := Removed(s.reg, h)), saved), saved, [])
    else if job.action.Register? && s.reg.rows[h].status == Pending then
      if ok && InScope(s, authorized) then
        (Activation(s, h, saved), saved, Others(s.reg, h))
      else (Refusal(s, h, saved), ok && saved, [])
    else (s, ok, [])
  }

  function Noted(d: Desk, ok: bool): Desk
    requires d.worker.Busy?
  {
    if ok then d.(log := d.log + [Acked(d.worker.job.action, d.worker.job.handle)]) else d
  }

  /** The worker lets go of its job: the retired handles are queued and the future is settled. */
  function Released(c: (State, bool, seq<Handle>), job: Job, still: bool): State {
    var t := c.0;
    var granted := c.1 && HasStatus(t.reg, job.handle, Active) && InScope(t, still);
    t.(desk := Settle(EnqueueAll(t.desk.(worker := Idle), t.reg, c.2), job.future, job.handle, granted))
  }

  /** The POST has ended, in any way; only one that began can have succeeded. */
  function Finished(s: State, answer: bool, authorized: bool, still: bool, saved: bool): State {
    if !s.desk.worker.Busy? then s
    else
      var job, ok := s.desk.worker.job, answer && s.desk.worker.phase.Posting?;
      Released(Concluded(s.(desk := Noted(s.desk, ok)), job, ok, authorized, saved), job, still)
  }

  /** The dispatch that holds the lock goes on once its future is settled; a changed preview is saved. */
  function Resumed(s: State, authorized: bool, saved: bool): State {
    if s.lock.None? || !Done(s.desk, s.lock.value.future) then s
    else if Good(s.desk, s.lock.value.future) && HasStatus(s.reg, s.lock.value.handle, Active) && InScope(s, authorized)
    then Save(s.(lock := None), saved)
    else s.(lock := None)
  }

  function Abandoned(s: State): State {
    if s.lock.None? then s
    else s.(desk := Settle(s.desk, Some(s.lock.value.future), s.lock.value.handle, false), lock := None)
  }

  // ------------------------------------------------------------------ steps

  datatype Op =
    | Admit(who: Scope, authorized: bool)
    | Leave(i: nat)
    | Enter(i: nat, reuse: Option<Handle>, new_: Handle, saved: bool)
    | Resume(authorized: bool, saved: bool)
    | Abandon
    | Revoke(device: string, only: Option<int>, saved: bool)
    | WakeUp(handle: Handle, authorized: bool)
    | Retry(handle: Handle)
    | Take(authorized: bool)
    | Begin
    | Finish(answer: bool, authorized: bool, still: bool, saved: bool)
    | CloseDown

  predicate Enters(s: State, i: nat, reuse: Option<Handle>, new_: Handle) {
    && s.lock.None? && i < |s.waiting|
    && (if reuse.Some? then CanReuse(s.reg, reuse.value, s.waiting[i]) else new_ !in s.reg.issued && new_ != "")
  }

  function Step(s: State, op: Op): State {
    match op
    case Admit(who, authorized) => if InScope(s, authorized) then s.(waiting := s.waiting + [who]) else s
    case Leave(i) => if i < |s.waiting| then s.(waiting := s.waiting[..i] + s.waiting[i + 1..]) else s
    case Enter(i, reuse, n, saved) => if Enters(s, i, reuse, n) then Registered(s, i, reuse, n, saved) else s
    case Resume(authorized, saved) => Resumed(s, authorized, saved)
    case Abandon => Abandoned(s)
    case Revoke(d, e, saved) => Revoked(s, d, e, saved)
    case WakeUp(h, authorized) =>
      if HasStatus(s.reg, h, Active) && InScope(s, authorized)
      then s.(desk := Enqueue(s.desk, Job(Wake, h, None, GenerationOf(s.reg, h)))) else s
    case Retry(h) =>
      if s.desk.worker.Idle? && HasStatus(s.reg, h, Debt) then s.(desk := Enqueue(s.desk, UnregisterJob(s.reg, h))) else s
    case Take(authorized) => s.(desk := Taken(s, authorized))
    case Begin => s.(desk := Began(s.desk))
    case Finish(answer, authorized, still, saved) => Finished(s, answer, authorized, still, saved)
    case CloseDown => s.(desk := Closed(s.desk))
  }

  function Stepper(): (State, Op) -> (State, ()) {
    (s, op) => (Step(s, op), ())
  }

  function After(s: State, ops: seq<Op>): State {
    Run(Stepper(), s, ops).0
  }

  // ------------------------------------------------- the invariant of the desk

  function Jobs(d: Desk): (js: seq<Job>) {
    (if d.worker.Busy? then [d.worker.job] else []) + d.queue
  }

  /** How many of some jobs hold a future. */
  function Claims(js: seq<Job>, f: nat): (n: nat)
    decreases |js|
  {
    if js == [] then 0 else (if js[0].future == Some(f) then 1 else 0) + Claims(js[1..], f)
  }

  /** A future that is not settled has exactly one job; no future ever has two. */
  ghost predicate Owned(d: Desk, f: nat) {
    && Claims(Jobs(d), f) <= 1
    && (f >= d.futures ==> Claims(Jobs(d), f) == 0 && !Done(d, f))
    && (f < d.futures && !Done(d, f) ==> Claims(Jobs(d), f) == 1)
  }

  ghost predicate AllOwned(d: Desk) {
    forall f: nat :: Owned(d, f)
  }

  ghost predicate SettledOnce(d: Desk) {
    forall i, j {:trigger d.settlements[i], d.settlements[j]} ::
      0 <= i < j < |d.settlements| ==> d.settlements[i].future != d.settlements[j].future
  }

  /** A registration that was granted was acknowledged by the push service. */
  ghost predicate GrantsAreAcked(d: Desk) {
    forall i {:trigger d.settlements[i]} :: 0 <= i < |d.settlements| && d.settlements[i].good ==>
      Acked(Register, d.settlements[i].handle) in d.log
  }

  ghost predicate WellFormed(j: Job) {
    && (j.future.Some? ==> j.action.Register?)
    && (j.action.Close? ==> j == Sentinel)
    && (j.action.Close? || j.handle != "")
  }

  ghost predicate Orderly(d: Desk) {
    && (forall j :: j in d.queue ==> WellFormed(j))
    && (d.worker.Busy? ==> WellFormed(d.worker.job) && !d.worker.job.action.Close?)
    && (!d.closed ==> !d.worker.Exited? && forall j :: j in d.queue ==> !j.action.Close?)
    && |d.queue| <= QUEUE_SIZE
  }

  /** Once closed, a live worker finds the sentinel next, and what is queued behind it came later. */
  ghost predicate ClosedBehind(d: Desk) {
    && d.mark <= d.futures
    && (d.closed && Alive(d) ==> d.queue != [] && d.queue[0] == Sentinel)
    && (d.closed ==> forall j :: j in d.queue && j.future.Some? ==> d.mark <= j.future.value)
  }

  ghost predicate DeskSound(d: Desk) {
    AllOwned(d) && SettledOnce(d) && GrantsAreAcked(d) && Orderly(d) && ClosedBehind(d)
  }

  lemma {:induction false} ClaimsAppend(a: seq<Job>, b: seq<Job>, f: nat)
    ensures Claims(a + b, f) == Claims(a, f) + Claims(b, f)
    decreases |a|
  {
    if a == [] {
      assert a + b == b;
    } else {
      assert (a + b)[1..] == a[1..] + b;
      ClaimsAppend(a[1..], b, f);
    }
  }

  lemma ClaimsJobs(d: Desk, f: nat)
    ensures Claims(Jobs(d), f) == (if d.worker.Busy? && d.worker.job.future == Some(f) then 1 else 0) + Claims(d.queue, f)
  {
    ClaimsAppend(if d.worker.Busy? then [d.worker.job] else [], d.queue, f);
  }

  lemma {:induction false} ClaimedIsThere(js: seq<Job>, f: nat)
    ensures Claims(js, f) > 0 <==> exists j :: j in js && j.future == Some(f)
    decreases |js|
  {
    if js != [] {
      ClaimedIsThere(js[1..], f);
      assert forall j :: j in js <==> j == js[0] || j in js[1..];
    }
  }

  lemma SettleDone(d: Desk, f: nat, h: Handle, good: bool, x: nat)
    ensures Done(Settle(d, Some(f), h, good), x) <==> Done(d, x) || x == f
  {
    var t := Settle(d, Some(f), h, good);
    if t != d {
      assert t.settlements[|d.settlements|].future == f;
      if Done(d, x) {
        var i :| 0 <= i < |d.settlements| && d.settlements[i].future == x;
        assert t.settlements[i] == d.settlements[i];
      }
    }
  }

  lemma SettleKeeps(d: Desk, f: Option<nat>, h: Handle, good: bool)
    requires SettledOnce(d) && GrantsAreAcked(d)
    requires good ==> Acked(Register, h) in d.log
    ensures var t := Settle(d, f, h, good); SettledOnce(t) && GrantsAreAcked(t)
  {
    var t := Settle(d, f, h, good);
    if t != d {
      forall i, j | 0 <= i < j < |t.settlements| ensures t.settlements[i].future != t.settlements[j].future {
        if j == |d.settlements| {
          assert t.settlements[i] == d.settlements[i];
        }
      }
    }
  }

  lemma {:induction false} WithoutMembers(q: seq<Job>, h: Handle)
    ensures forall j :: j in Without(q, h) <==> j in q && j.handle != h
    ensures q != [] && q[0].handle != h ==> Without(q, h) != [] && Without(q, h)[0] == q[0]
    decreases |q|
  {
    if q != [] {
      WithoutMembers(q[1..], h);
      assert forall j :: j in q <==> j == q[0] || j in q[1..];
    }
  }

  lemma {:induction false} WithoutClaims(q: seq<Job>, h: Handle, f: nat)
    ensures Claims(Without(q, h), f) <= Claims(q, f)
    ensures Claims(Without(q, h), f) < Claims(q, f) <==> exists j :: j in q && j.handle == h && j.future == Some(f)
    decreases |q|
  {
    if q != [] {
      WithoutClaims(q[1..], h, f);
      assert forall j :: j in q <==> j == q[0] || j in q[1..];
      var head := if q[0].handle == h then [] else [q[0]];
      ClaimsAppend(head, Without(q[1..], h), f);
      if head != [] {
        assert head[1..] == [];
      }
    }
  }

  /** Dropping settles exactly the futures of the dropped jobs, and nothing else of the desk changes. */
  lemma {:induction false} FailDroppedIs(d: Desk, q: seq<Job>, h: Handle)
    requires SettledOnce(d) && GrantsAreAcked(d)
    ensures var t := FailDropped(d, q, h); SettledOnce(t) && GrantsAreAcked(t) && t == d.(settlements := t.settlements)
    ensures forall f: nat :: Done(FailDropped(d, q, h), f) <==> Done(d, f) || exists j :: j in q && j.handle == h && j.future == Some(f)
    decreases |q|
  {
    if q != [] {
      var m := if q[0].handle == h then Settle(d, q[0].future, h, false) else d;
      SettleKeeps(d, q[0].future, h, false);
      FailDroppedIs(m, q[1..], h);
      forall f: nat ensures Done(FailDropped(d, q, h), f) <==> Done(d, f) || exists j :: j in q && j.handle == h && j.future == Some(f) {
        if q[0].future.Some? {
          SettleDone(d, q[0].future.value, h, false, f);
        }
        assert forall j :: j in q <==> j == q[0] || j in q[1..];
      }
    }
  }

  /** No POST for these handles is left, except one that has begun. */
  ghost predicate Quiet(d: Desk, hs: seq<Handle>) {
    && (d.worker.Busy? && d.worker.job.handle in hs ==> !d.worker.phase.Scheduled?)
    && forall j :: j in d.queue ==> j.handle !in hs
  }

  /** Silencing touches the queue, the settlements and the phase of a POST that has not begun. */
  ghost predicate Confined(d: Desk, t: Desk) {
    && t == d.(queue := t.queue, settlements := t.settlements, worker := t.worker)
    && (t.worker == d.worker || (d.worker.Busy? && t.worker == d.worker.(phase := Cancelled) && d.worker.phase.Scheduled?))
    && (forall j :: j in t.queue ==> j in d.queue)
  }

  lemma DropKeeps(d: Desk, h: Handle)
    requires DeskSound(d) && h != ""
    ensures var t := Drop(d, h); DeskSound(t) && t == d.(settlements := t.settlements, queue := t.queue)
    ensures forall j :: j in Drop(d, h).queue <==> j in d.queue && j.handle != h
  {
    var t := Drop(d, h);
    FailDroppedIs(d, d.queue, h);
    WithoutMembers(d.queue, h);
    forall f: nat ensures Owned(t, f) {
      assert Owned(d, f);
      assert Done(t, f) == Done(FailDropped(d, d.queue, h), f);
      WithoutClaims(d.queue, h, f);
      ClaimsJobs(d, f);
      ClaimsJobs(t, f);
      ClaimedIsThere(d.queue, f);
    }
  }

  lemma SilenceKeeps(d: Desk, h: Handle)
    requires DeskSound(d) && h != ""
    ensures var t := Silence(d, h); DeskSound(t) && Quiet(t, [h]) && Confined(d, t)
  {
    DropKeeps(d, h);
    var m, t := Drop(d, h), Silence(d, h);
    forall f: nat ensures Owned(t, f) {
      assert Owned(m, f) && Done(m, f) == Done(t, f) && Jobs(m) == Jobs(t);
    }
  }

  lemma {:induction false} SilenceAllKeeps(d: Desk, hs: seq<Handle>)
    requires DeskSound(d) && "" !in hs
    ensures var t := SilenceAll(d, hs); DeskSound(t) && Quiet(t, hs) && Confined(d, t)
    decreases |hs|
  {
    if hs != [] {
      SilenceKeeps(d, hs[0]);
      SilenceAllKeeps(Silence(d, hs[0]), hs[1..]);
      SilencesCompose(d, Silence(d, hs[0]), SilenceAll(d, hs), hs);
    }
  }

  lemma SilencesCompose(d: Desk, m: Desk, t: Desk, hs: seq<Handle>)
    requires hs != [] && Quiet(m, [hs[0]]) && Confined(d, m) && Quiet(t, hs[1..]) && Confined(m, t)
    ensures Quiet(t, hs) && Confined(d, t)
  {
    assert forall x :: x in hs <==> x == hs[0] || x in hs[1..];
  }

  /** A job with no future, or with the next new one, can always be queued or refused. */
  lemma EnqueueKeeps(d: Desk, j: Job)
    requires DeskSound(d) && WellFormed(j) && !j.action.Close? && j.future.None?
    ensures DeskSound(Enqueue(d, j))
  {
    var t := Enqueue(d, j);
    forall f: nat ensures Owned(t, f) {
      assert Owned(d, f) && Done(d, f) == Done(t, f);
      ClaimsJobs(d, f);
      ClaimsJobs(t, f);
      ClaimsAppend(d.queue, [j], f);
    }
  }

  lemma AskingKeeps(d: Desk, h: Handle, generation: nat)
    requires DeskSound(d) && h != "" && |d.queue| < QUEUE_SIZE
    ensures DeskSound(Asking(d, h, generation))
  {
    var t := Asking(d, h, generation);
    var j := Job(Register, h, Some(d.futures), generation);
    assert t.queue == d.queue + [j];
    forall f: nat ensures Owned(t, f) {
      assert Owned(d, f) && Done(d, f) == Done(t, f);
      ClaimsJobs(d, f);
      ClaimsJobs(t, f);
      ClaimsAppend(d.queue, [j], f);
    }
  }

  lemma StartKeeps(d: Desk)
    requires DeskSound(d)
    ensures DeskSound(Start(d))
  {
    var t := Start(d);
    forall f: nat ensures Owned(t, f) {
      assert Owned(d, f) && Done(d, f) == Done(t, f) && Jobs(d) == Jobs(t);
    }
  }

  lemma {:induction false} EnqueueAllKeeps(d: Desk, g: Registry, hs: seq<Handle>)
    requires DeskSound(d) && "" !in hs
    ensures var t := EnqueueAll(d, g, hs); DeskSound(t)
    decreases |hs|
  {
    if hs != [] {
      EnqueueKeeps(d, UnregisterJob(g, hs[0]));
      EnqueueAllKeeps(Enqueue(d, UnregisterJob(g, hs[0])), g, hs[1..]);
    }
  }

  /** Queuing unregistrations touches nothing but the queue, and starts a worker that is missing. */
  lemma {:induction false} EnqueueAllIs(d: Desk, g: Registry, hs: seq<Handle>)
    ensures var t := EnqueueAll(d, g, hs);
            && t == d.(queue := t.queue, worker := t.worker)
            && d.queue <= t.queue
            && t.worker == (if hs == [] then d.worker else Start(d).worker)
            && forall i :: |d.queue| <= i < |t.queue| ==> t.queue[i].action.Unregister? && t.queue[i].handle in hs
    decreases |hs|
  {
    if hs != [] {
      EnqueueAllIs(Enqueue(d, UnregisterJob(g, hs[0])), g, hs[1..]);
    }
  }

  /** Whether the worker has let go of its job makes no difference to what is queued. */
  lemma {:induction false} EnqueueAllIdle(d: Desk, g: Registry, hs: seq<Handle>)
    requires d.worker.Busy?
    ensures EnqueueAll(d.(worker := Idle), g, hs) == EnqueueAll(d, g, hs).(worker := Idle)
    decreases |hs|
  {
    if hs != [] {
      EnqueueAllIdle(Enqueue(d, UnregisterJob(g, hs[0])), g, hs[1..]);
    }
  }

  /** The worker lets go of its job and settles its future. */
  lemma LetGoKeeps(d: Desk, good: bool)
    requires DeskSound(d) && d.worker.Busy?
    requires good && d.worker.job.future.Some? ==> Acked(Register, d.worker.job.handle) in d.log
    ensures DeskSound(Settle(d.(worker := Idle), d.worker.job.future, d.worker.job.handle, good))
  {
    var job := d.worker.job;
    var m := d.(worker := Idle);
    var t := Settle(m, job.future, job.handle, good);
    if job.future.Some? {
      SettleKeeps(m, job.future, job.handle, good);
    }
    forall f: nat ensures Owned(t, f) {
      assert Owned(d, f) && Done(d, f) == Done(m, f);
      ClaimsJobs(d, f);
      ClaimsJobs(t, f);
      if job.future.Some? {
        SettleDone(m, job.future.value, job.handle, good, f);
      }
    }
  }

  lemma NotedKeeps(d: Desk, ok: bool)
    requires DeskSound(d) && d.worker.Busy?
    ensures DeskSound(Noted(d, ok))
  {
    var t := Noted(d, ok);
    forall f: nat ensures Owned(t, f) {
      assert Owned(d, f) && Done(d, f) == Done(t, f) && Jobs(d) == Jobs(t);
    }
  }

  lemma BeganKeeps(d: Desk)
    requires DeskSound(d)
    ensures DeskSound(Began(d))
  {
    var t := Began(d);
    forall f: nat ensures Owned(t, f) {
      assert Owned(d, f) && Done(d, f) == Done(t, f) && Jobs(d) == Jobs(t);
    }
  }

  lemma TakenKeeps(s: State, authorized: bool)
    requires DeskSound(s.desk)
    ensures DeskSound(Taken(s, authorized))
  {
    var d, t := s.desk, Taken(s, authorized);
    if d.worker.Idle? && d.queue != [] {
      var job := d.queue[0];
      if job.action.Close? {
        forall f: nat ensures Owned(t, f) {
          assert Owned(d, f) && Done(d, f) == Done(t, f);
          ClaimsJobs(d, f);
          ClaimsJobs(t, f);
        }
      } else {
        var b := d.(queue := d.queue[1..], worker := Busy(job, Scheduled));
        assert Jobs(b) == Jobs(d);
        forall f: nat ensures Owned(b, f) {
          assert Owned(d, f) && Done(d, f) == Done(b, f);
        }
        LetGoKeeps(b, false);
        assert b.(worker := Idle) == d.(queue := d.queue[1..]);
      }
    }
  }

  lemma {:induction false} SettleQueueIs(d: Desk, q: seq<Job>)
    requires SettledOnce(d) && GrantsAreAcked(d)
    ensures var t := SettleQueue(d, q); SettledOnce(t) && GrantsAreAcked(t) && t == d.(settlements := t.settlements)
    ensures forall f: nat :: Done(SettleQueue(d, q), f) <==> Done(d, f) || exists j :: j in q && j.future == Some(f)
    decreases |q|
  {
    if q != [] {
      var m := Settle(d, q[0].future, q[0].handle, false);
      SettleKeeps(d, q[0].future, q[0].handle, false);
      SettleQueueIs(m, q[1..]);
      forall f: nat ensures Done(SettleQueue(d, q), f) <==> Done(d, f) || exists j :: j in q && j.future == Some(f) {
        if q[0].future.Some? {
          SettleDone(d, q[0].future.value, q[0].handle, false, f);
        }
        assert forall j :: j in q <==> j == q[0] || j in q[1..];
      }
    }
  }

  lemma ClosedKeeps(d: Desk)
    requires DeskSound(d)
    ensures DeskSound(Closed(d))
  {
    var m := d.(closed := true, mark := d.futures);
    SettleQueueIs(m, d.queue);
    var t := Closed(d);
    forall f: nat ensures Owned(t, f) {
      assert Owned(d, f) && Done(d, f) == Done(m, f);
      assert Done(t, f) == Done(SettleQueue(m, d.queue), f);
      ClaimsJobs(d, f);
      ClaimsJobs(t, f);
      ClaimedIsThere(d.queue, f);
    }
  }

  lemma AbandonKeeps(d: Desk, f: nat, h: Handle)
    requires DeskSound(d) && f < d.futures
    ensures DeskSound(Settle(d, Some(f), h, false))
  {
    var t := Settle(d, Some(f), h, false);
    SettleKeeps(d, Some(f), h, false);
    forall x: nat ensures Owned(t, x) {
      SettleDone(d, f, h, false, x);
      assert Owned(d, x) && Jobs(d) == Jobs(t);
    }
  }

  // --------------------------------------------- the invariant of the registry

  ghost predicate RegistrySound(g: Registry) {
    && g.generation.Keys == g.rows.Keys
    && (forall h :: h in g.order <==> h in g.rows)
    && g.rows.Keys <= g.issued && "" !in g.issued
    && |g.rows| <= MAX_ROWS
    && OneActive(g)
  }

  ghost predicate OneActive(g: Registry) {
    forall h, k :: HasStatus(g, h, Active) && HasStatus(g, k, Active) && g.rows[h].device == g.rows[k].device ==> h == k
  }

  lemma SameSize<K, V>(a: map<K, V>, b: map<K, V>)
    requires a.Keys == b.Keys
    ensures |a| == |b|
  {
    assert |a| == |a.Keys|;
  }

  /** The rows that change are exactly the listed ones, and they go into debt. */
  lemma {:induction false} DebtAllIs(g: Registry, hs: seq<Handle>)
    requires g.generation.Keys == g.rows.Keys
    ensures var t := DebtAll(g, hs);
            && t.rows.Keys == t.generation.Keys == g.rows.Keys && t.order == g.order && t.issued == g.issued
            && forall h :: h in g.rows ==> t.rows[h] == if h in hs then g.rows[h].(status := Debt) else g.rows[h]
    decreases |hs|
  {
    if hs != [] {
      DebtAllIs(MakeDebt(g, hs[0]), hs[1..]);
      assert forall x :: x in hs <==> x == hs[0] || x in hs[1..];
    }
  }

  lemma DebtAllKeeps(g: Registry, hs: seq<Handle>)
    requires RegistrySound(g)
    ensures RegistrySound(DebtAll(g, hs))
  {
    DebtAllIs(g, hs);
    SameSize(g.rows, DebtAll(g, hs).rows);
  }

  lemma MakeDebtKeeps(g: Registry, h: Handle)
    requires RegistrySound(g)
    ensures RegistrySound(MakeDebt(g, h))
  {
    assert DebtAll(g, [h]) == MakeDebt(g, h);
    DebtAllKeeps(g, [h]);
  }

  lemma {:induction false} SelectedIs(g: Registry, hs: seq<Handle>, device: string, epoch: Option<int>, except: Option<Handle>)
    ensures forall h :: h in Selected(g, hs, device, epoch, except) <==>
                          h in hs && h in g.rows && Selects(g.rows[h], device, epoch) && except != Some(h)
    decreases |hs|
  {
    if hs != [] {
      SelectedIs(g, hs[1..], device, epoch, except);
      assert forall x :: x in hs <==> x == hs[0] || x in hs[1..];
    }
  }

  lemma ActivatedKeeps(g: Registry, h: Handle)
    requires RegistrySound(g) && h in g.rows
    ensures RegistrySound(Activated(g, h))
  {
    var m, t := WithStatus(g, h, Active), Activated(g, h);
    DebtAllIs(m, Others(g, h));
    SameSize(g.rows, t.rows);
    OthersAre(g, h);
    forall x, y | HasStatus(t, x, Active) && HasStatus(t, y, Active) && t.rows[x].device == t.rows[y].device ensures x == y {
      assert x !in Others(g, h) && y !in Others(g, h);
      assert x != h ==> HasStatus(g, x, Active);
      assert y != h ==> HasStatus(g, y, Active);
    }
  }

  lemma OthersAre(g: Registry, h: Handle)
    requires RegistrySound(g) && h in g.rows
    ensures forall x :: x in Others(g, h) <==> x in g.rows && x != h && g.rows[x].device == g.rows[h].device
  {
    SelectedIs(g, g.order, g.rows[h].device, None, Some(h));
  }

  lemma RemovedKeeps(g: Registry, h: Handle)
    requires RegistrySound(g)
    ensures RegistrySound(Removed(g, h))
  {
    var t := Removed(g, h);
    assert t.rows.Keys == g.rows.Keys - {h};
    assert |t.rows| == |t.rows.Keys| <= |g.rows.Keys|;
    assert forall x :: HasStatus(t, x, Active) ==> HasStatus(g, x, Active) && t.rows[x] == g.rows[x];
  }

  lemma AddedKeeps(g: Registry, h: Handle, device: string, epoch: int)
    requires RegistrySound(g) && h !in g.issued && h != "" && |g.rows| < MAX_ROWS
    ensures RegistrySound(Added(g, h, device, epoch))
  {
    var t := Added(g, h, device, epoch);
    assert t.rows.Keys == g.rows.Keys + {h};
    assert |t.rows| == |t.rows.Keys| <= |g.rows.Keys| + 1;
    assert forall x :: HasStatus(t, x, Active) ==> HasStatus(g, x, Active) && t.rows[x] == g.rows[x];
  }
  // ------------------------------------------------------ every step keeps both

  ghost predicate Inv(s: State) {
    && DeskSound(s.desk) && RegistrySound(s.reg)
    && (s.desk.worker.Absent? && !s.desk.closed ==> s.reg.rows == map[])
    && (s.lock.Some? ==> s.lock.value.future < s.desk.futures)
  }

  lemma RevokedKeeps(s: State, device: string, epoch: Option<int>, saved: bool)
    requires Inv(s)
    ensures Inv(Revoked(s, device, epoch, saved))
  {
    var hs := Selected(s.reg, s.reg.order, device, epoch, None);
    SelectedIs(s.reg, s.reg.order, device, epoch, None);
    if hs != [] {
      assert hs[0] in s.reg.rows;
      var g, d := DebtAll(s.reg, hs), SilenceAll(s.desk, hs);
      DebtAllKeeps(s.reg, hs);
      SilenceAllKeeps(s.desk, hs);
      EnqueueAllKeeps(d, g, hs);
      EnqueueAllIs(d, g, hs);
    }
  }

  lemma {:induction false} FailDroppedFrame(d: Desk, q: seq<Job>, h: Handle)
    ensures var t := FailDropped(d, q, h); t == d.(settlements := t.settlements) && d.settlements <= t.settlements
    decreases |q|
  {
    if q != [] {
      FailDroppedFrame(if q[0].handle == h then Settle(d, q[0].future, h, false) else d, q[1..], h);
    }
  }

  /** Silencing never touches the log, nor which job the worker holds, and never unsettles a future. */
  lemma {:induction false} SilenceAllFrame(d: Desk, hs: seq<Handle>)
    ensures var t := SilenceAll(d, hs);
            && t == d.(queue := t.queue, worker := t.worker, settlements := t.settlements)
            && d.settlements <= t.settlements && t.worker.Busy? == d.worker.Busy? && t.worker.Idle? == d.worker.Idle?
            && (d.worker.Busy? ==> t.worker.job == d.worker.job && (t.worker.phase.Posting? <==> d.worker.phase.Posting?))
    decreases |hs|
  {
    if hs != [] {
      FailDroppedFrame(d, d.queue, hs[0]);
      SilenceAllFrame(Silence(d, hs[0]), hs[1..]);
    }
  }

  lemma ActivationKeeps(s: State, h: Handle, saved: bool)
    requires Inv(s) && s.desk.worker.Busy? && h in s.reg.rows
    ensures Inv(Activation(s, h, saved)) && "" !in Others(s.reg, h)
  {
    ActivatedKeeps(s.reg, h);
    OthersAre(s.reg, h);
    SilenceAllKeeps(s.desk, Others(s.reg, h));
  }

  lemma RefusalKeeps(s: State, h: Handle, saved: bool)
    requires Inv(s) && s.desk.worker.Busy? && h in s.reg.rows
    ensures Inv(Refusal(s, h, saved))
  {
    MakeDebtKeeps(s.reg, h);
    EnqueueKeeps(s.desk, UnregisterJob(MakeDebt(s.reg, h), h));
  }

  lemma RemovalKeeps(s: State, h: Handle, saved: bool)
    requires Inv(s)
    ensures Inv(Save(s.(reg := Removed(s.reg, h)), saved))
  {
    RemovedKeeps(s.reg, h);
  }

  /** Whatever holds of the state and of each possible conclusion holds of the conclusion. */
  lemma ConcludedIsOneOf(s: State, job: Job, ok: bool, authorized: bool, saved: bool, inv: State -> bool)
    requires inv(s)
    requires ok && job.action.Unregister? && IsCurrent(s.reg, job) ==> inv(Save(s.(reg := Removed(s.reg, job.handle)), saved))
    requires ok && job.action.Register? && HasStatus(s.reg, job.handle, Pending) && InScope(s, authorized) ==>
               inv(Activation(s, job.handle, saved))
    requires job.action.Register? && HasStatus(s.reg, job.handle, Pending) ==> inv(Refusal(s, job.handle, saved))
    ensures inv(Concluded(s, job, ok, authorized, saved).0)
  {
  }

  lemma ConcludedKeeps(s: State, job: Job, ok: bool, authorized: bool, saved: bool)
    requires Inv(s) && s.desk.worker.Busy?
    ensures Inv(Concluded(s, job, ok, authorized, saved).0)
  {
    var h := job.handle;
    RemovalKeeps(s, h, saved);
    if h in s.reg.rows {
      ActivationKeeps(s, h, saved);
      RefusalKeeps(s, h, saved);
    }
    ConcludedIsOneOf(s, job, ok, authorized, saved, x => Inv(x));
  }

  lemma RetiredAreNamed(s: State, job: Job, ok: bool, authorized: bool, saved: bool)
    requires Inv(s)
    ensures "" !in Concluded(s, job, ok, authorized, saved).2
  {
    if job.handle in s.reg.rows {
      OthersAre(s.reg, job.handle);
    }
  }

  /** Concluding a POST leaves the log and the worker's job alone, and only a POST that succeeded counts as a success. */
  lemma ConcludedFrame(s: State, job: Job, ok: bool, authorized: bool, saved: bool)
    requires s.desk.worker.Busy?
    ensures var (t, success, _) := Concluded(s, job, ok, authorized, saved);
            && (success ==> ok) && t.desk.log == s.desk.log && t.desk.worker.Busy? && t.desk.worker.job == s.desk.worker.job
            && t.desk.closed == s.desk.closed && t.desk.futures == s.desk.futures && t.desk.mark == s.desk.mark
  {
    if job.handle in s.reg.rows {
      SilenceAllFrame(s.desk, Others(s.reg, job.handle));
    }
  }

  lemma ReleasedKeeps(c: (State, bool, seq<Handle>), still: bool)
    requires Inv(c.0) && c.0.desk.worker.Busy? && "" !in c.2
    requires c.1 ==> Acked(c.0.desk.worker.job.action, c.0.desk.worker.job.handle) in c.0.desk.log
    ensures Inv(Released(c, c.0.desk.worker.job, still))
  {
    var t := c.0;
    var job := t.desk.worker.job;
    EnqueueAllKeeps(t.desk, t.reg, c.2);
    EnqueueAllIs(t.desk, t.reg, c.2);
    EnqueueAllIdle(t.desk, t.reg, c.2);
    LetGoKeeps(EnqueueAll(t.desk, t.reg, c.2), c.1 && HasStatus(t.reg, job.handle, Active) && InScope(t, still));
  }

  /** Whatever holds when the worker has let go holds when the POST has been dealt with. */
  lemma FinishedVia(s: State, answer: bool, authorized: bool, still: bool, saved: bool, inv: State -> bool)
    requires s.desk.worker.Busy?
    requires var job, ok := s.desk.worker.job, answer && s.desk.worker.phase.Posting?;
             inv(Released(Concluded(s.(desk := Noted(s.desk, ok)), job, ok, authorized, saved), job, still))
    ensures inv(Finished(s, answer, authorized, still, saved))
  {
  }

  lemma FinishedKeeps(s: State, answer: bool, authorized: bool, still: bool, saved: bool)
    requires Inv(s)
    ensures Inv(Finished(s, answer, authorized, still, saved))
  {
    if s.desk.worker.Busy? {
      var job, ok := s.desk.worker.job, answer && s.desk.worker.phase.Posting?;
      var s1 := s.(desk := Noted(s.desk, ok));
      NotedKeeps(s.desk, ok);
      ConcludedKeeps(s1, job, ok, authorized, saved);
      RetiredAreNamed(s1, job, ok, authorized, saved);
      ConcludedFrame(s1, job, ok, authorized, saved);
      ReleasedKeeps(Concluded(s1, job, ok, authorized, saved), still);
      FinishedVia(s, answer, authorized, still, saved, x => Inv(x));
    }
  }

  lemma AskedKeeps(s: State, h: Handle, saved: bool)
    requires Inv(s) && h in s.reg.rows
    ensures Inv(Asked(s, h, saved))
  {
    if |s.desk.queue| >= QUEUE_SIZE {
      MakeDebtKeeps(s.reg, h);
    } else {
      AskingKeeps(s.desk, h, GenerationOf(s.reg, h));
    }
  }

  lemma RegisteredKeeps(s: State, i: nat, reuse: Option<Handle>, new_: Handle, saved: bool)
    requires Inv(s) && Enters(s, i, reuse, new_)
    ensures Inv(Registered(s, i, reuse, new_, saved))
  {
    StartKeeps(s.desk);
    var who := s.waiting[i];
    var s1 := s.(waiting := s.waiting[..i] + s.waiting[i + 1..], desk := Start(s.desk));
    if reuse.Some? {
      AskedKeeps(s1, reuse.value, saved);
    } else if |s1.desk.queue| < QUEUE_SIZE && |s1.reg.rows| < MAX_ROWS {
      AddedKeeps(s1.reg, new_, who.device, who.epoch);
      var t := Save(s1.(reg := Added(s1.reg, new_, who.device, who.epoch)), saved);
      if saved {
        AskedKeeps(t, new_, true);
      }
    }
  }

  /** The steps of the worker and of closing. */
  lemma WorkKeeps(s: State, op: Op)
    requires Inv(s) && (op.Take? || op.Begin? || op.Finish? || op.CloseDown?)
    ensures Inv(Step(s, op))
  {
    match op
    case Take(authorized) => TakenKeeps(s, authorized);
    case Begin => BeganKeeps(s.desk);
    case Finish(answer, authorized, still, saved) => FinishedKeeps(s, answer, authorized, still, saved);
    case CloseDown =>
      ClosedKeeps(s.desk);
      SettleQueueIs(s.desk.(closed := true, mark := s.desk.futures), s.desk.queue);
  }

  /** The steps that only queue a job. */
  lemma QueueingKeeps(s: State, op: Op)
    requires Inv(s) && (op.WakeUp? || op.Retry?)
    ensures Inv(Step(s, op))
  {
    if op.handle in s.reg.rows {
      EnqueueKeeps(s.desk, Job(Wake, op.handle, None, GenerationOf(s.reg, op.handle)));
      EnqueueKeeps(s.desk, UnregisterJob(s.reg, op.handle));
    }
  }

  /** The steps of a dispatch. */
  lemma DispatchKeeps(s: State, op: Op)
    requires Inv(s) && (op.Admit? || op.Leave? || op.Enter? || op.Resume? || op.Abandon?)
    ensures Inv(Step(s, op))
  {
    match op
    case Enter(i, reuse, n, saved) =>
      if Enters(s, i, reuse, n) {
        RegisteredKeeps(s, i, reuse, n, saved);
      }
    case Abandon =>
      if s.lock.Some? {
        AbandonKeeps(s.desk, s.lock.value.future, s.lock.value.handle);
      }
    case _ =>
  }

  lemma StepKeeps(s: State, op: Op)
    requires Inv(s)
    ensures Inv(Step(s, op))
  {
    if op.Revoke? {
      RevokedKeeps(s, op.device, op.only, op.saved);
    } else if op.WakeUp? || op.Retry? {
      QueueingKeeps(s, op);
    } else if op.Take? || op.Begin? || op.Finish? || op.CloseDown? {
      WorkKeeps(s, op);
    } else {
      DispatchKeeps(s, op);
    }
  }

  lemma {:induction false} RunKeeps(s: State, ops: seq<Op>)
    requires Inv(s)
    ensures Inv(After(s, ops))
    decreases |ops|
  {
    if ops != [] {
      StepKeeps(s, ops[0]);
      RunKeeps(Step(s, ops[0]), ops[1..]);
    }
  }

  lemma EmptyIsSound()
    ensures Inv(Empty)
  {
    forall f: nat ensures Owned(Empty.desk, f) {}
  }

  /**
   * In every run of a bridge that began empty: a device has at most one active handle; a register
   * future that is not settled is held by exactly one job; no future is settled twice; a future is
   * granted only if the service acknowledged its registration; queue and rows stay within bounds.
   */
  lemma EveryRunKeeps(ops: seq<Op>, h: Handle, k: Handle, f: nat, i: nat, j: nat)
    ensures var s := After(Empty, ops);
            && (HasStatus(s.reg, h, Active) && HasStatus(s.reg, k, Active) && s.reg.rows[h].device == s.reg.rows[k].device ==> h == k)
            && (f < s.desk.futures && !Done(s.desk, f) ==> Claims(Jobs(s.desk), f) == 1)
            && Claims(Jobs(s.desk), f) <= 1
            && (i < |s.desk.settlements| && j < |s.desk.settlements| ==>
                  s.desk.settlements[i].future == s.desk.settlements[j].future ==> i == j)
            && (i < |s.desk.settlements| && s.desk.settlements[i].good ==> Acked(Register, s.desk.settlements[i].handle) in s.desk.log)
            && |s.desk.queue| <= QUEUE_SIZE && |s.reg.rows| <= MAX_ROWS
  {
    EmptyIsSound();
    RunKeeps(Empty, ops);
    assert Owned(After(Empty, ops).desk, f);
  }

  // ---------------------------------------------------------------- fencing

  /** A handle that was issued and is now in debt, or already gone. */
  ghost predicate Buried(g: Registry, h: Handle) {
    h in g.issued && (h in g.rows ==> g.rows[h].status == Debt)
  }

  /** Nothing but an unregistration is about to be posted for a handle. */
  ghost predicate Hushed(d: Desk, h: Handle) {
    d.worker.Busy? && d.worker.job.handle == h && d.worker.phase.Scheduled? ==> d.worker.job.action.Unregister?
  }

  ghost predicate Fenced(s: State, h: Handle) {
    Buried(s.reg, h) && Hushed(s.desk, h)
  }

  lemma ActivatedBuries(g: Registry, k: Handle, h: Handle)
    requires g.generation.Keys == g.rows.Keys && HasStatus(g, k, Pending) && Buried(g, h)
    ensures Buried(Activated(g, k), h)
    ensures k in Activated(g, k).rows
  {
    DebtAllIs(WithStatus(g, k, Active), Others(g, k));
  }

  lemma ConcludedBuries(s: State, job: Job, ok: bool, authorized: bool, saved: bool, h: Handle)
    requires Inv(s) && Buried(s.reg, h)
    ensures Buried(Concluded(s, job, ok, authorized, saved).0.reg, h)
  {
    if HasStatus(s.reg, job.handle, Pending) {
      ActivatedBuries(s.reg, job.handle, h);
    }
    ConcludedIsOneOf(s, job, ok, authorized, saved, (x: State) => Buried(x.reg, h));
  }

  lemma RevokedBuries(s: State, device: string, epoch: Option<int>, saved: bool, h: Handle)
    requires Inv(s)
    ensures Buried(s.reg, h) ==> Buried(Revoked(s, device, epoch, saved).reg, h)
    ensures h in s.reg.rows && Selects(s.reg.rows[h], device, epoch) ==> Buried(Revoked(s, device, epoch, saved).reg, h)
  {
    var hs := Selected(s.reg, s.reg.order, device, epoch, None);
    SelectedIs(s.reg, s.reg.order, device, epoch, None);
    DebtAllIs(s.reg, hs);
  }

  lemma RevokedHushes(s: State, device: string, epoch: Option<int>, saved: bool, h: Handle)
    requires Inv(s)
    ensures h in s.reg.rows && Selects(s.reg.rows[h], device, epoch) ==> Hushed(Revoked(s, device, epoch, saved).desk, h)
    ensures Hushed(s.desk, h) ==> Hushed(Revoked(s, device, epoch, saved).desk, h)
  {
    var hs := Selected(s.reg, s.reg.order, device, epoch, None);
    SelectedIs(s.reg, s.reg.order, device, epoch, None);
    SilenceAllKeeps(s.desk, hs);
    EnqueueAllIs(SilenceAll(s.desk, hs), DebtAll(s.reg, hs), hs);
  }

  /** The log after a step: only a POST that begins, or one that ends with success, is added. */
  function LogAfter(s: State, op: Op): seq<Event> {
    if !s.desk.worker.Busy? then s.desk.log
    else
      var job, phase := s.desk.worker.job, s.desk.worker.phase;
      if op.Begin? && phase.Scheduled? then s.desk.log + [Posted(job.action, job.handle)]
      else if op.Finish? && op.answer && phase.Posting? then s.desk.log + [Acked(job.action, job.handle)]
      else s.desk.log
  }

  lemma {:induction false} SettleQueueFrame(d: Desk, q: seq<Job>)
    ensures var t := SettleQueue(d, q); t == d.(settlements := t.settlements) && d.settlements <= t.settlements
    decreases |q|
  {
    if q != [] {
      SettleQueueFrame(Settle(d, q[0].future, q[0].handle, false), q[1..]);
    }
  }

  lemma FinishedFrame(s: State, answer: bool, authorized: bool, still: bool, saved: bool)
    requires s.desk.worker.Busy?
    ensures var ok := answer && s.desk.worker.phase.Posting?;
            var t := Finished(s, answer, authorized, still, saved);
            && t.desk.log == (if ok then s.desk.log + [Acked(s.desk.worker.job.action, s.desk.worker.job.handle)] else s.desk.log)
            && t.reg == Concluded(s.(desk := Noted(s.desk, ok)), s.desk.worker.job, ok, authorized, saved).0.reg
            && t.desk.worker.Idle? && t.desk.closed == s.desk.closed && t.desk.futures == s.desk.futures && t.desk.mark == s.desk.mark
  {
    var job, ok := s.desk.worker.job, answer && s.desk.worker.phase.Posting?;
    var s1 := s.(desk := Noted(s.desk, ok));
    ConcludedFrame(s1, job, ok, authorized, saved);
    var (t, success, retired) := Concluded(s1, job, ok, authorized, saved);
    EnqueueAllIs(t.desk.(worker := Idle), t.reg, retired);
  }


  lemma RevokeLogs(s: State, device: string, epoch: Option<int>, saved: bool)
    ensures Revoked(s, device, epoch, saved).desk.log == s.desk.log
  {
    var hs := Selected(s.reg, s.reg.order, device, epoch, None);
    SilenceAllFrame(s.desk, hs);
    EnqueueAllIs(SilenceAll(s.desk, hs), DebtAll(s.reg, hs), hs);
  }

  lemma FinishLogs(s: State, op: Op)
    requires op.Finish?
    ensures Step(s, op).desk.log == LogAfter(s, op)
  {
    if s.desk.worker.Busy? {
      FinishedFrame(s, op.answer, op.authorized, op.still, op.saved);
    }
  }

  lemma StepLogs(s: State, op: Op)
    ensures Step(s, op).desk.log == LogAfter(s, op)
  {
    if op.Finish? {
      FinishLogs(s, op);
    } else if op.Revoke? {
      RevokeLogs(s, op.device, op.only, op.saved);
    } else if op.Enter? {
      EnterLogs(s, op);
    } else {
      OtherLogs(s, op);
    }
  }

  lemma EnterLogs(s: State, op: Op)
    requires op.Enter?
    ensures Step(s, op).desk.log == LogAfter(s, op)
  {
  }

  lemma OtherLogs(s: State, op: Op)
    requires !op.Finish? && !op.Revoke? && !op.Enter?
    ensures Step(s, op).desk.log == LogAfter(s, op)
  {
    SettleQueueFrame(s.desk.(closed := true, mark := s.desk.futures), s.desk.queue);
  }

  lemma FinishBuries(s: State, answer: bool, authorized: bool, still: bool, saved: bool, h: Handle)
    requires Inv(s) && Buried(s.reg, h)
    ensures Buried(Finished(s, answer, authorized, still, saved).reg, h)
  {
    if s.desk.worker.Busy? {
      var ok := answer && s.desk.worker.phase.Posting?;
      NotedKeeps(s.desk, ok);
      FinishedFrame(s, answer, authorized, still, saved);
      ConcludedBuries(s.(desk := Noted(s.desk, ok)), s.desk.worker.job, ok, authorized, saved, h);
    }
  }

  lemma OtherBuries(s: State, op: Op, h: Handle)
    requires Buried(s.reg, h) && !op.Finish? && !op.Revoke?
    ensures Buried(Step(s, op).reg, h)
  {
  }

  lemma StepBuries(s: State, op: Op, h: Handle)
    requires Inv(s) && Buried(s.reg, h)
    ensures Buried(Step(s, op).reg, h)
  {
    if op.Finish? {
      FinishBuries(s, op.answer, op.authorized, op.still, op.saved, h);
    } else if op.Revoke? {
      RevokedBuries(s, op.device, op.only, op.saved, h);
    } else {
      OtherBuries(s, op, h);
    }
  }

  lemma FinishHushes(s: State, op: Op, h: Handle)
    requires Hushed(s.desk, h) && op.Finish?
    ensures Hushed(Step(s, op).desk, h)
  {
    if s.desk.worker.Busy? {
      FinishedFrame(s, op.answer, op.authorized, op.still, op.saved);
    }
  }

  lemma OtherHushes(s: State, op: Op, h: Handle)
    requires Fenced(s, h) && !op.Finish? && !op.Revoke?
    ensures Hushed(Step(s, op).desk, h)
  {
    match op
    case CloseDown => SettleQueueFrame(s.desk.(closed := true, mark := s.desk.futures), s.desk.queue);
    case Take(authorized) => TakenHushes(s, authorized, h);
    case _ =>
  }

  lemma TakenHushes(s: State, authorized: bool, h: Handle)
    requires Fenced(s, h)
    ensures Hushed(Taken(s, authorized), h)
  {
  }

  lemma StepHushes(s: State, op: Op, h: Handle)
    requires Inv(s) && Fenced(s, h)
    ensures Hushed(Step(s, op).desk, h)
  {
    if op.Finish? {
      FinishHushes(s, op, h);
    } else if op.Revoke? {
      RevokedHushes(s, op.device, op.only, op.saved, h);
    } else {
      OtherHushes(s, op, h);
    }
  }

  /** Between two logs, only unregistrations were posted for a handle. */
  ghost predicate OnlyUnregisters(before: seq<Event>, after: seq<Event>, h: Handle) {
    && before <= after
    && forall i {:trigger after[i]} :: |before| <= i < |after| && after[i].Posted? && after[i].handle == h ==> after[i].action.Unregister?
  }

  /** A handle that has been fenced stays fenced in every run, and nothing but unregistrations is ever posted for it. */
  lemma {:induction false} FencedForever(s: State, ops: seq<Op>, h: Handle)
    requires Inv(s) && Fenced(s, h)
    ensures Fenced(After(s, ops), h)
    ensures OnlyUnregisters(s.desk.log, After(s, ops).desk.log, h)
    decreases |ops|
  {
    if ops != [] {
      var m := Step(s, ops[0]);
      StepKeeps(s, ops[0]);
      StepBuries(s, ops[0], h);
      StepHushes(s, ops[0], h);
      StepLogs(s, ops[0]);
      FencedForever(m, ops[1..], h);
      OnlyUnregistersThen(s.desk.log, m.desk.log, After(s, ops).desk.log, h);
    }
  }

  lemma OnlyUnregistersThen(a: seq<Event>, b: seq<Event>, c: seq<Event>, h: Handle)
    requires OnlyUnregisters(a, b, h) && OnlyUnregisters(b, c, h)
    ensures OnlyUnregisters(a, c, h)
  {
    forall i | |a| <= i < |c| && c[i].Posted? && c[i].handle == h ensures c[i].action.Unregister? {
      if i < |b| {
        assert b[i] == c[i];
      }
    }
  }

  /**
   * Revocation: after it, whether or not its state could be saved, no wake and no registration is
   * ever posted again for a handle of the device that existed, and that handle is never active again.
   */
  lemma RevokeFences(before: seq<Op>, device: string, epoch: Option<int>, saved: bool, later: seq<Op>, h: Handle)
    requires var s := After(Empty, before); h in s.reg.rows && Selects(s.reg.rows[h], device, epoch)
    ensures var s := After(Empty, before);
            var t := Step(s, Revoke(device, epoch, saved));
            var u := After(t, later);
            OnlyUnregisters(t.desk.log, u.desk.log, h) && !HasStatus(u.reg, h, Active)
  {
    var s := After(Empty, before);
    EmptyIsSound();
    RunKeeps(Empty, before);
    RevokedBuries(s, device, epoch, saved, h);
    RevokedHushes(s, device, epoch, saved, h);
    StepKeeps(s, Revoke(device, epoch, saved));
    FencedForever(Step(s, Revoke(device, epoch, saved)), later, h);
  }

  /** Some part of a log after another holds an acknowledged unregistration of a handle. */
  ghost predicate Unregistered(before: seq<Event>, after: seq<Event>, h: Handle) {
    exists i :: |before| <= i < |after| && after[i] == Acked(Unregister, h)
  }

  lemma ConcludedRemoves(s: State, job: Job, ok: bool, authorized: bool, saved: bool, h: Handle)
    requires Inv(s) && h in s.reg.rows
    ensures h in Concluded(s, job, ok, authorized, saved).0.reg.rows || (ok && job.action.Unregister? && job.handle == h)
  {
    if HasStatus(s.reg, job.handle, Pending) {
      DebtAllIs(WithStatus(s.reg, job.handle, Active), Others(s.reg, job.handle));
    }
    ConcludedIsOneOf(s, job, ok, authorized, saved,
                     (x: State) => h in x.reg.rows || (ok && job.action.Unregister? && job.handle == h));
  }

  /** The only step that removes a row is the end of an acknowledged unregistration of its handle. */
  lemma FinishRemoves(s: State, op: Op, h: Handle)
    requires Inv(s) && h in s.reg.rows && op.Finish?
    ensures h in Step(s, op).reg.rows || LogAfter(s, op) == s.desk.log + [Acked(Unregister, h)]
  {
    if s.desk.worker.Busy? {
      var job, ok := s.desk.worker.job, op.answer && s.desk.worker.phase.Posting?;
      NotedKeeps(s.desk, ok);
      ConcludedRemoves(s.(desk := Noted(s.desk, ok)), job, ok, op.authorized, op.saved, h);
      FinishedVia(s, op.answer, op.authorized, op.still, op.saved,
                  (x: State) => h in x.reg.rows || (ok && job.action.Unregister? && job.handle == h));
    }
  }

  lemma OtherRemoves(s: State, op: Op, h: Handle)
    requires Inv(s) && h in s.reg.rows && !op.Finish?
    ensures h in Step(s, op).reg.rows
  {
    if op.Revoke? {
      DebtAllIs(s.reg, Selected(s.reg, s.reg.order, op.device, op.only, None));
    }
  }

  /** The only step that removes a row is the end of an acknowledged unregistration of its handle. */
  lemma StepRemoves(s: State, op: Op, h: Handle)
    requires Inv(s) && h in s.reg.rows
    ensures h in Step(s, op).reg.rows || LogAfter(s, op) == s.desk.log + [Acked(Unregister, h)]
  {
    if op.Finish? {
      FinishRemoves(s, op, h);
    } else {
      OtherRemoves(s, op, h);
    }
  }

  /** A row leaves only by an unregistration that the service acknowledged; in debt it stays in debt until then. */
  lemma {:induction false} RowLeavesByUnregister(s: State, ops: seq<Op>, h: Handle)
    requires Inv(s) && h in s.reg.rows
    ensures h in After(s, ops).reg.rows || Unregistered(s.desk.log, After(s, ops).desk.log, h)
    decreases |ops|
  {
    if ops != [] {
      var m := Step(s, ops[0]);
      StepKeeps(s, ops[0]);
      StepRemoves(s, ops[0], h);
      StepLogs(s, ops[0]);
      RunLogs(m, ops[1..]);
      if h in m.reg.rows {
        RowLeavesByUnregister(m, ops[1..], h);
      }
      UnregisteredThen(s.desk.log, m.desk.log, After(m, ops[1..]).desk.log, h);
    }
  }

  lemma UnregisteredThen(a: seq<Event>, b: seq<Event>, c: seq<Event>, h: Handle)
    requires a <= b <= c
    ensures Unregistered(b, c, h) || b == a + [Acked(Unregister, h)] ==> Unregistered(a, c, h)
  {
    if b == a + [Acked(Unregister, h)] {
      assert c[|a|] == b[|a|];
    }
  }

  lemma {:induction false} RunLogs(s: State, ops: seq<Op>)
    ensures s.desk.log <= After(s, ops).desk.log
    decreases |ops|
  {
    if ops != [] {
      StepLogs(s, ops[0]);
      RunLogs(Step(s, ops[0]), ops[1..]);
    }
  }

  /**
   * Debt is paid only by unregistering: a handle in debt is in debt or gone at the end of every run, and
   * gone only if acknowledged.
   */
  lemma DebtIsPaidOnlyByUnregister(before: seq<Op>, later: seq<Op>, h: Handle)
    requires HasStatus(After(Empty, before).reg, h, Debt)
    ensures var s := After(Empty, before);
            var t := After(s, later);
            HasStatus(t.reg, h, Debt) || (h !in t.reg.rows && Unregistered(s.desk.log, t.desk.log, h))
  {
    var s := After(Empty, before);
    EmptyIsSound();
    RunKeeps(Empty, before);
    RowLeavesByUnregister(s, later, h);
    RunBuries(s, later, h);
  }

  lemma {:induction false} RunBuries(s: State, ops: seq<Op>, h: Handle)
    requires Inv(s) && Buried(s.reg, h)
    ensures Buried(After(s, ops).reg, h)
    decreases |ops|
  {
    if ops != [] {
      StepKeeps(s, ops[0]);
      StepBuries(s, ops[0], h);
      RunBuries(Step(s, ops[0]), ops[1..], h);
    }
  }

  // ---------------------------------------------- closing and register futures

  /** A future that exists, and existed at the last close if there was one. */
  ghost predicate Early(d: Desk, f: nat) {
    f < d.futures && (d.closed ==> f < d.mark)
  }

  lemma FinishKeepsEarly(s: State, op: Op, f: nat)
    requires Early(s.desk, f) && op.Finish?
    ensures Early(Step(s, op).desk, f)
  {
    if s.desk.worker.Busy? {
      FinishedFrame(s, op.answer, op.authorized, op.still, op.saved);
    }
  }

  lemma OtherKeepsEarly(s: State, op: Op, f: nat)
    requires Early(s.desk, f) && !op.Finish?
    ensures Early(Step(s, op).desk, f)
  {
    if op.Revoke? {
      var hs := Selected(s.reg, s.reg.order, op.device, op.only, None);
      SilenceAllFrame(s.desk, hs);
      EnqueueAllIs(SilenceAll(s.desk, hs), DebtAll(s.reg, hs), hs);
    }
    SettleQueueFrame(s.desk.(closed := true, mark := s.desk.futures), s.desk.queue);
  }

  lemma {:induction false} RunKeepsEarly(s: State, ops: seq<Op>, f: nat)
    requires Early(s.desk, f)
    ensures Early(After(s, ops).desk, f)
    decreases |ops|
  {
    if ops != [] {
      if ops[0].Finish? {
        FinishKeepsEarly(s, ops[0], f);
      } else {
        OtherKeepsEarly(s, ops[0], f);
      }
      RunKeepsEarly(Step(s, ops[0]), ops[1..], f);
    }
  }

  /** When a closed bridge has no worker left, whatever is unsettled was asked for after the last close. */
  lemma NoWorkerLeavesOnlyLate(d: Desk, f: nat)
    requires DeskSound(d) && d.closed && !Alive(d) && Early(d, f)
    ensures Done(d, f)
  {
    assert Owned(d, f);
    ClaimsJobs(d, f);
    ClaimedIsThere(d.queue, f);
  }

  /** A registration of a closed bridge whose job is queued and whose dispatch holds the lock. */
  ghost predicate Stranded(s: State, x: Ticket, device: string) {
    && s.lock == Some(x) && Waits(s.desk, x)
    && (x.handle in s.reg.rows ==> s.reg.rows[x.handle].device == device)
  }

  ghost predicate Waits(d: Desk, x: Ticket) {
    d.closed && !Done(d, x.future) && exists j :: j in d.queue && j.future == Some(x.future) && j.handle == x.handle
  }

  lemma DropWaits(d: Desk, h: Handle, x: Ticket)
    requires DeskSound(d) && Waits(d, x) && h != x.handle
    ensures Waits(Silence(d, h), x)
  {
    FailDroppedIs(d, d.queue, h);
    WithoutMembers(d.queue, h);
    var j :| j in d.queue && j.future == Some(x.future) && j.handle == x.handle;
    assert j in Without(d.queue, h);
    assert Done(Silence(d, h), x.future) == Done(FailDropped(d, d.queue, h), x.future);
    if Done(FailDropped(d, d.queue, h), x.future) {
      var k :| k in d.queue && k.handle == h && k.future == Some(x.future);
      TwoClaims(d.queue, j, k, x.future);
      assert Owned(d, x.future);
      ClaimsJobs(d, x.future);
    }
  }

  lemma {:induction false} TwoClaims(q: seq<Job>, j: Job, k: Job, f: nat)
    requires j in q && k in q && j != k && j.future == k.future == Some(f)
    ensures Claims(q, f) >= 2
    decreases |q|
  {
    if q[0] == j || q[0] == k {
      ClaimedIsThere(q[1..], f);
    } else {
      TwoClaims(q[1..], j, k, f);
    }
  }

  lemma {:induction false} SilenceAllWaits(d: Desk, hs: seq<Handle>, x: Ticket)
    requires DeskSound(d) && Waits(d, x) && x.handle !in hs && "" !in hs
    ensures Waits(SilenceAll(d, hs), x)
    decreases |hs|
  {
    if hs != [] {
      SilenceKeeps(d, hs[0]);
      DropWaits(d, hs[0], x);
      SilenceAllWaits(Silence(d, hs[0]), hs[1..], x);
    }
  }

  lemma WaitsIf(d: Desk, t: Desk, x: Ticket)
    requires Waits(d, x) && t.closed && t.settlements == d.settlements && d.queue <= t.queue
    ensures Waits(t, x)
  {
    var j :| j in d.queue && j.future == Some(x.future) && j.handle == x.handle;
    assert j in t.queue;
    assert Done(t, x.future) == Done(d, x.future);
  }

  lemma RevokeLeavesStranded(s: State, device: string, epoch: Option<int>, saved: bool, x: Ticket, own: string)
    requires Inv(s) && Stranded(s, x, own) && device != own
    ensures Stranded(Revoked(s, device, epoch, saved), x, own)
  {
    var hs := Selected(s.reg, s.reg.order, device, epoch, None);
    SelectedIs(s.reg, s.reg.order, device, epoch, None);
    if hs != [] {
      var g, d := DebtAll(s.reg, hs), SilenceAll(s.desk, hs);
      DebtAllIs(s.reg, hs);
      SilenceAllWaits(s.desk, hs, x);
      EnqueueAllIs(d, g, hs);
      WaitsIf(d, EnqueueAll(d, g, hs), x);
    }
  }

  /** A closed bridge activates nothing, so the end of a POST leaves other registrations waiting. */
  lemma ConcludedLeavesStranded(s: State, job: Job, ok: bool, authorized: bool, saved: bool, x: Ticket, own: string)
    requires Inv(s) && Stranded(s, x, own)
    ensures Stranded(Concluded(s, job, ok, authorized, saved).0, x, own) && Concluded(s, job, ok, authorized, saved).2 == []
  {
    WaitsIf(s.desk, Enqueue(s.desk, UnregisterJob(MakeDebt(s.reg, job.handle), job.handle)), x);
    ConcludedIsOneOf(s, job, ok, authorized, saved, (y: State) => Stranded(y, x, own));
  }

  lemma ReleasedLeavesStranded(c: (State, bool, seq<Handle>), job: Job, still: bool, x: Ticket, own: string)
    requires Stranded(c.0, x, own) && c.2 == [] && job.future != Some(x.future)
    ensures Stranded(Released(c, job, still), x, own)
  {
    var t := c.0;
    var d := t.desk.(worker := Idle);
    var granted := c.1 && HasStatus(t.reg, job.handle, Active) && InScope(t, still);
    WaitsIf(t.desk, d, x);
    if job.future.Some? {
      SettleDone(d, job.future.value, job.handle, granted, x.future);
    }
  }

  lemma FinishLeavesStranded(s: State, op: Op, x: Ticket, own: string)
    requires Inv(s) && Stranded(s, x, own) && op.Finish?
    ensures Stranded(Step(s, op), x, own)
  {
    if s.desk.worker.Busy? {
      var job, ok := s.desk.worker.job, op.answer && s.desk.worker.phase.Posting?;
      var s1 := s.(desk := Noted(s.desk, ok));
      NotedKeeps(s.desk, ok);
      WaitsIf(s.desk, s1.desk, x);
      assert job.future != Some(x.future) by {
        assert Owned(s.desk, x.future);
        ClaimsJobs(s.desk, x.future);
        ClaimedIsThere(s.desk.queue, x.future);
      }
      ConcludedLeavesStranded(s1, job, ok, op.authorized, op.saved, x, own);
      ReleasedLeavesStranded(Concluded(s1, job, ok, op.authorized, op.saved), job, op.still, x, own);
      FinishedVia(s, op.answer, op.authorized, op.still, op.saved, (y: State) => Stranded(y, x, own));
    }
  }

  lemma TakeLeavesStranded(s: State, authorized: bool, x: Ticket, own: string)
    requires Inv(s) && Stranded(s, x, own)
    ensures Stranded(s.(desk := Taken(s, authorized)), x, own)
  {
    var d, t := s.desk, Taken(s, authorized);
    if d.worker.Idle? && d.queue != [] {
      assert d.queue[0] == Sentinel;
      var j :| j in d.queue && j.future == Some(x.future) && j.handle == x.handle;
      assert j in t.queue;
      assert Done(t, x.future) == Done(d, x.future);
    }
  }

  /** The steps that could still settle a registration: cancelling its dispatch, revoking its device, closing again. */
  predicate Rescues(op: Op, device: string) {
    op.Abandon? || op.CloseDown? || (op.Revoke? && op.device == device)
  }

  lemma OtherLeavesStranded(s: State, op: Op, x: Ticket, own: string)
    requires Inv(s) && Stranded(s, x, own) && !Rescues(op, own) && !op.Finish? && !op.Take? && !op.Revoke?
    ensures Stranded(Step(s, op), x, own)
  {
    if op.Retry? {
      WaitsIf(s.desk, Enqueue(s.desk, UnregisterJob(s.reg, op.handle)), x);
    } else if op.Begin? {
      WaitsIf(s.desk, Began(s.desk), x);
    }
  }

  lemma {:induction false} StrandedForever(s: State, ops: seq<Op>, x: Ticket, own: string)
    requires Inv(s) && Stranded(s, x, own)
    requires forall i :: 0 <= i < |ops| ==> !Rescues(ops[i], own)
    ensures Stranded(After(s, ops), x, own)
    decreases |ops|
  {
    if ops != [] {
      var op := ops[0];
      if op.Finish? {
        FinishLeavesStranded(s, op, x, own);
      } else if op.Take? {
        TakeLeavesStranded(s, op.authorized, x, own);
      } else if op.Revoke? {
        RevokeLeavesStranded(s, op.device, op.only, op.saved, x, own);
      } else {
        OtherLeavesStranded(s, op, x, own);
      }
      StepKeeps(s, op);
      StrandedForever(Step(s, op), ops[1..], x, own);
    }
  }

  /**
   * Entering the critical section gets as far as a future exactly when there is room, and for a new row
   * when it is saved.
   */
  predicate Asks(s: State, i: nat, reuse: Option<Handle>, new_: Handle, saved: bool) {
    && Enters(s, i, reuse, new_) && |s.desk.queue| < QUEUE_SIZE
    && (reuse.None? ==> |s.reg.rows| < MAX_ROWS && saved)
  }

  function AskedFor(reuse: Option<Handle>, new_: Handle): Handle {
    if reuse.Some? then reuse.value else new_
  }

  lemma EnterSetsLockIff(s: State, i: nat, reuse: Option<Handle>, new_: Handle, saved: bool)
    requires s.lock.None?
    ensures Step(s, Enter(i, reuse, new_, saved)).lock.Some? <==> Asks(s, i, reuse, new_, saved)
    ensures Asks(s, i, reuse, new_, saved) ==>
              Step(s, Enter(i, reuse, new_, saved)).lock == Some(Ticket(AskedFor(reuse, new_), s.desk.futures))
  {
  }

  /** What entering the critical section adds when it gets that far, for a row it reuses or a new one. */
  lemma EnterAsks(s: State, i: nat, reuse: Option<Handle>, new_: Handle, saved: bool)
    requires Inv(s) && Asks(s, i, reuse, new_, saved)
    ensures var t := Step(s, Enter(i, reuse, new_, saved)); var x := Ticket(AskedFor(reuse, new_), s.desk.futures);
            && t.desk.futures == s.desk.futures + 1 && t.desk.closed == s.desk.closed && t.desk.mark == s.desk.mark
            && (s.desk.closed ==> Stranded(t, x, s.waiting[i].device))
  {
    var t := Step(s, Enter(i, reuse, new_, saved));
    var h := AskedFor(reuse, new_);
    EnterSetsLockIff(s, i, reuse, new_, saved);
    var g := if reuse.Some? then s.reg else Added(s.reg, new_, s.waiting[i].device, s.waiting[i].epoch);
    var j := Job(Register, h, Some(s.desk.futures), GenerationOf(g, h));
    assert t.reg == g && t.desk.queue == s.desk.queue + [j];
    assert j in t.desk.queue;
    assert Owned(s.desk, s.desk.futures);
    assert Done(t.desk, s.desk.futures) == Done(s.desk, s.desk.futures);
  }

  /**
   * For every entry that gets as far as a future, of a new row or of one it reuses: the future is
   * settled once a closed bridge has lost its worker exactly when the bridge was still open at that
   * entry, as long as nothing else comes to its rescue afterwards. A dispatch that passed its checks
   * before the close and got the lock after it waits for ever.
   */
  lemma SettledIffEnteredBeforeClose(before: seq<Op>, i: nat, reuse: Option<Handle>, new_: Handle, saved: bool, later: seq<Op>)
    requires var s := After(Empty, before);
             && s.lock.None? && Step(s, Enter(i, reuse, new_, saved)).lock.Some?
             && (s.desk.closed ==> forall k :: 0 <= k < |later| ==> !Rescues(later[k], s.waiting[i].device))
    requires var t := After(Step(After(Empty, before), Enter(i, reuse, new_, saved)), later); t.desk.closed && !Alive(t.desk)
    ensures var s := After(Empty, before);
            Done(After(Step(s, Enter(i, reuse, new_, saved)), later).desk, s.desk.futures) <==> !s.desk.closed
  {
    var s := After(Empty, before);
    EmptyIsSound();
    RunKeeps(Empty, before);
    var op, f := Enter(i, reuse, new_, saved), s.desk.futures;
    EnterSetsLockIff(s, i, reuse, new_, saved);
    StepKeeps(s, op);
    EnterAsks(s, i, reuse, new_, saved);
    RunKeeps(Step(s, op), later);
    if s.desk.closed {
      StrandedForever(Step(s, op), later, Ticket(AskedFor(reuse, new_), f), s.waiting[i].device);
    } else {
      RunKeepsEarly(Step(s, op), later, f);
      NoWorkerLeavesOnlyLate(After(Step(s, op), later).desk, f);
    }
  }

  /** Two registrations pass their checks, the first enters, the bridge closes, and the second enters after it. */
  const Latecomer: seq<Op> := [Admit(Caller, true), Admit(Caller, true), Enter(0, None, "a", true),
                               CloseDown, Take(true), Resume(true, true), Enter(0, None, "b", true)]

  const Caller := Scope("d", 0)
  const NewRow := Row("d", 0, Pending)
  const First := Job(Register, "a", Some(0), 0)
  const Second := Job(Register, "b", Some(1), 0)
  const OneRow := Registry(map["a" := NewRow], ["a"], map["a" := 0], {"a"})
  const TwoRows := Registry(map["a" := NewRow, "b" := NewRow], ["a", "b"], map["a" := 0, "b" := 0], {"a", "b"})
  const Refused := [Settlement(0, "a", false)]

  const Waiting := Empty.(waiting := [Caller, Caller])
  const Entered := State(OneRow, Desk([First], Idle, false, 1, [], [], 0), false, [Caller], Some(Ticket("a", 0)))
  const Closing := Entered.(desk := Desk([Sentinel], Idle, true, 1, Refused, [], 1))
  const Ended := Entered.(desk := Desk([], Exited, true, 1, Refused, [], 1))
  const Late := State(TwoRows, Desk([Second], Exited, true, 2, Refused, [], 1), false, [], Some(Ticket("b", 1)))

  predicate Goes(s: State, op: Op, t: State) {
    Stepper()(s, op) == (t, ())
  }

  lemma LatecomerWaits()
    ensures Goes(Empty, Latecomer[0], Empty.(waiting := [Caller])) && Goes(Empty.(waiting := [Caller]), Latecomer[1], Waiting)
  {
    assert Step(Empty, Latecomer[0]) == Empty.(waiting := [Caller]);
    assert Step(Empty.(waiting := [Caller]), Latecomer[1]) == Waiting;
  }

  lemma FirstEnters()
    ensures Goes(Waiting, Latecomer[2], Entered)
  {
    assert Added(Waiting.reg, "a", "d", 0) == OneRow;
    assert Step(Waiting, Latecomer[2]) == Entered;
  }

  lemma FirstIsRefused()
    ensures Goes(Entered, Latecomer[3], Closing)
  {
    LatecomerCloses(Entered.desk, First);
  }

  lemma WorkerExits()
    ensures Goes(Closing, Latecomer[4], Ended)
  {
    assert Step(Closing, Latecomer[4]) == Ended;
  }

  lemma FirstLeaves()
    ensures Goes(Ended, Latecomer[5], Ended.(lock := None))
  {
    assert Ended.desk.settlements[0].future == 0;
  }

  lemma SecondEnters()
    ensures Goes(Ended.(lock := None), Latecomer[6], Late)
  {
    assert Added(OneRow, "b", "d", 0) == TwoRows;
    assert Step(Ended.(lock := None), Latecomer[6]) == Late;
  }

  /** Such a run exists: the worker has exited and the second registration waits behind it. */
  lemma LatecomerIsStranded()
    ensures After(Empty, Latecomer) == Late && Late.desk.worker.Exited? && Stranded(Late, Ticket("b", 1), "d")
  {
    LatecomerWaits();
    FirstEnters();
    FirstIsRefused();
    WorkerExits();
    FirstLeaves();
    SecondEnters();
    LateIs();
    var states := [Empty, Empty.(waiting := [Caller]), Waiting, Entered, Closing, Ended, Ended.(lock := None), Late];
    RunOfSeven(Stepper(), Latecomer, states);
  }

  lemma RunOfSeven<S, I>(step: (S, I) -> (S, ()), ops: seq<I>, s: seq<S>)
    requires |ops| == 7 && |s| == 8
    requires step(s[0], ops[0]) == (s[1], ()) && step(s[1], ops[1]) == (s[2], ()) && step(s[2], ops[2]) == (s[3], ())
    requires step(s[3], ops[3]) == (s[4], ()) && step(s[4], ops[4]) == (s[5], ()) && step(s[5], ops[5]) == (s[6], ())
    requires step(s[6], ops[6]) == (s[7], ())
    ensures Run(step, s[0], ops).0 == s[7]
  {
    RunOfStates(step, ops, s, [(), (), (), (), (), (), ()]);
  }

  lemma LateIs()
    ensures Stranded(Late, Ticket("b", 1), "d")
  {
    assert Second in Late.desk.queue;
  }

  lemma LatecomerCloses(d: Desk, j: Job)
    requires d.queue == [j] && j.future.Some? && d.settlements == [] && d.worker.Idle?
    ensures Closed(d) == d.(closed := true, mark := d.futures, queue := [Sentinel],
                            settlements := [Settlement(j.future.value, j.handle, false)])
  {
    var m := d.(closed := true, mark := d.futures);
    assert d.queue[1..] == [];
    assert SettleQueue(m, d.queue) == Settle(m, j.future, j.handle, false);
  }
}
