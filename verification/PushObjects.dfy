/** The push bridge as an object that is updated in place, each method tied to the step of Push that it performs. */
module PushObjects {
  import opened Common
  import opened Steps = Push

  lemma {:induction false} DebtAllSnoc(g: Registry, hs: seq<Handle>, h: Handle)
    ensures DebtAll(g, hs + [h]) == Steps.MakeDebt(DebtAll(g, hs), h)
    decreases |hs|
  {
    if hs != [] {
      assert (hs + [h])[1..] == hs[1..] + [h];
      DebtAllSnoc(Steps.MakeDebt(g, hs[0]), hs[1..], h);
    }
  }

  lemma {:induction false} SilenceAllSnoc(d: Desk, hs: seq<Handle>, h: Handle)
    ensures SilenceAll(d, hs + [h]) == Silence(SilenceAll(d, hs), h)
    decreases |hs|
  {
    if hs != [] {
      assert (hs + [h])[1..] == hs[1..] + [h];
      SilenceAllSnoc(Silence(d, hs[0]), hs[1..], h);
    }
  }

  lemma {:induction false} SelectedSnoc(g: Registry, hs: seq<Handle>, h: Handle, device: string, epoch: Option<int>, except: Option<Handle>)
    ensures Selected(g, hs + [h], device, epoch, except) ==
            Selected(g, hs, device, epoch, except)
            + (if h in g.rows && Selects(g.rows[h], device, epoch) && except != Some(h) then [h] else [])
    decreases |hs|
  {
    if hs == [] {
      assert hs + [h] == [h];
    } else {
      assert (hs + [h])[1..] == hs[1..] + [h];
      SelectedSnoc(g, hs[1..], h, device, epoch, except);
    }
  }

  lemma DropStep(d: Desk, jobs: seq<Job>, i: nat, h: Handle)
    requires i < |jobs|
    ensures FailDropped(d, jobs[i..], h) ==
            FailDropped(if jobs[i].handle == h then Steps.Settle(d, jobs[i].future, h, false) else d, jobs[i + 1..], h)
    ensures Without(jobs[i..], h) == (if jobs[i].handle == h then [] else [jobs[i]]) + Without(jobs[i + 1..], h)
  {
    assert jobs[i..][0] == jobs[i] && jobs[i..][1..] == jobs[i + 1..];
  }

  lemma CloseStep(d: Desk, jobs: seq<Job>, i: nat)
    requires i < |jobs|
    ensures SettleQueue(d, jobs[i..]) == SettleQueue(Steps.Settle(d, jobs[i].future, jobs[i].handle, false), jobs[i + 1..])
  {
    assert jobs[i..][0] == jobs[i] && jobs[i..][1..] == jobs[i + 1..];
  }

  class PushBridge {
    var rows: map<Handle, Row>
    var order: seq<Handle>  // the rows in insertion order
    var generation: map<Handle, nat>
    var queue: seq<Job>
    var worker: Worker
    var closed: bool
    var failed: bool
    var settlements: seq<Settlement>
    var waiting: seq<Scope>
    var lock: Option<Ticket>
    var futures: nat        // how many have been created
    ghost var issued: set<Handle>
    ghost var log: seq<Event>
    ghost var mark: nat

    ghost function Reg(): Registry
      reads this
    {
      Registry(rows, order, generation, issued)
    }

    ghost function Table(): Desk
      reads this
    {
      Desk(queue, worker, closed, futures, settlements, log, mark)
    }

    ghost function Value(): State
      reads this
    {
      State(Reg(), Table(), failed, waiting, lock)
    }

    ghost predicate Valid()
      reads this
    {
      generation.Keys == rows.Keys && forall h :: h in order <==> h in rows
    }

    constructor ()
      ensures Value() == Empty && Valid()
    {
      rows, order, generation, queue, worker := map[], [], map[], [], Absent;
      closed, failed, settlements, waiting, lock := false, false, [], [], None;
      issued, futures, log, mark := {}, 0, [], 0;
    }

    method IsDone(f: nat) returns (r: bool)
      ensures r == Done(Table(), f)
    {
      r := false;
      for i := 0 to |settlements|
        invariant r <==> exists k :: 0 <= k < i && settlements[k].future == f
      {
        r := r || settlements[i].future == f;
      }
    }

    method Settle(f: Option<nat>, h: Handle, good: bool)
      modifies this`settlements
      ensures Table() == Steps.Settle(old(Table()), f, h, good)
    {
      if f.Some? {
        var done := IsDone(f.value);
        if !done {
          settlements := settlements + [Settlement(f.value, h, good)];
        }
      }
    }

    method MakeDebt(h: Handle)
      requires Valid() && h in rows
      modifies this`rows, this`generation
      ensures Reg() == Steps.MakeDebt(old(Reg()), h) && Valid()
    {
      rows := rows[h := rows[h].(status := Debt)];
      generation := generation[h := (if h in generation then generation[h] else 0) + 1];
    }

    method Enqueue(j: Job)
      modifies this`queue, this`worker
      ensures Table() == Steps.Enqueue(old(Table()), j)
    {
      if worker.Absent? && !closed {
        worker := Idle;
      }
      if |queue| < QUEUE_SIZE {
        queue := queue + [j];
      }
    }

    /** Take every job for a handle out of the queue and fail what waits for it. */
    method DropQueued(h: Handle)
      modifies this`queue, this`settlements
      ensures Table() == Drop(old(Table()), h)
    {
      var jobs := queue;
      var keep := [];
      ghost var d := Table();
      for i := 0 to |jobs|
        invariant FailDropped(d.(settlements := settlements), jobs[i..], h) == FailDropped(d, jobs, h)
        invariant keep + Without(jobs[i..], h) == Without(jobs, h)
        invariant Table() == d.(settlements := settlements)
      {
        var job := jobs[i];
        DropStep(d.(settlements := settlements), jobs, i, h);
        if job.handle == h {
          Settle(job.future, h, false);
        } else {
          keep := keep + [job];
        }
      }
      queue := keep;
      FailDroppedFrame(d, jobs, h);
    }

    method CancelPost(h: Handle)
      modifies this`worker
      ensures Table() == Steps.CancelPost(old(Table()), h)
    {
      if worker.Busy? && worker.job.handle == h && worker.phase.Scheduled? {
        worker := Busy(worker.job, Cancelled);
      }
    }

    method FenceRow(h: Handle)
      requires Valid() && h in rows
      modifies this`rows, this`generation, this`queue, this`settlements, this`worker
      ensures Reg() == Steps.MakeDebt(old(Reg()), h) && Table() == Silence(old(Table()), h) && Valid()
    {
      DropQueued(h);
      MakeDebt(h);
      CancelPost(h);
    }

    /** Fence every row of a device, except one if asked; the rows fenced, in order. */
    method FenceRows(device: string, epoch: Option<int>, except: Option<Handle>) returns (handles: seq<Handle>)
      requires Valid()
      modifies this`rows, this`generation, this`queue, this`settlements, this`worker
      ensures handles == Selected(old(Reg()), old(order), device, epoch, except)
      ensures Reg() == DebtAll(old(Reg()), handles) && Table() == SilenceAll(old(Table()), handles) && Valid()
    {
      handles := [];
      ghost var g, d := Reg(), Table();
      for i := 0 to |order|
        invariant handles == Selected(g, order[..i], device, epoch, except)
        invariant Reg() == DebtAll(g, handles) && Table() == SilenceAll(d, handles) && Valid()
      {
        var h := order[i];
        assert order[..i + 1] == order[..i] + [h];
        SelectedSnoc(g, order[..i], h, device, epoch, except);
        DebtAllIs(g, handles);
        if rows[h].device == device && (epoch.None? || rows[h].epoch == epoch.value) && except != Some(h) {
          DebtAllSnoc(g, handles, h);
          SilenceAllSnoc(d, handles, h);
          FenceRow(h);
          handles := handles + [h];
        }
      }
      assert order[..|order|] == order;
    }

    method EnqueueEach(handles: seq<Handle>)
      modifies this`queue, this`worker
      ensures Table() == EnqueueAll(old(Table()), Reg(), handles)
    {
      ghost var d := Table();
      for i := 0 to |handles|
        invariant EnqueueAll(Table(), Reg(), handles[i..]) == EnqueueAll(d, Reg(), handles)
      {
        var h := handles[i];
        assert handles[i..][1..] == handles[i + 1..];
        Enqueue(Job(Unregister, h, None, if h in generation then generation[h] else 0));
      }
    }

    /** `saved` says whether the state could be written; when it could not, the call raises after fencing. */
    method Revoke(device: string, epoch: Option<int>, saved: bool)
      requires Valid()
      modifies this`rows, this`generation, this`queue, this`settlements, this`worker, this`failed
      ensures Value() == Revoked(old(Value()), device, epoch, saved) && Valid()
    {
      var handles := FenceRows(device, epoch, None);
      if handles != [] {
        Announce(handles, saved);
      }
    }

    /** Write the state and, if that succeeds, queue an unregistration for each handle. */
    method Announce(handles: seq<Handle>, saved: bool)
      modifies this`queue, this`worker, this`failed
      ensures Value() == Save(old(Value()).(desk := if saved then EnqueueAll(old(Table()), Reg(), handles) else old(Table())), saved)
    {
      failed := failed || !saved;
      if saved {
        EnqueueEach(handles);
      }
    }

    method EnqueueRegistration(h: Handle)
      modifies this`queue, this`worker, this`futures
      ensures Table() == Asking(old(Table()), h, GenerationOf(Reg(), h))
    {
      Enqueue(Job(Register, h, Some(futures), if h in generation then generation[h] else 0));
      futures := futures + 1;
    }

    /** No room for the registration: a row that is still pending goes into debt. */
    method TurnAway(h: Handle, saved: bool)
      requires Valid() && h in rows
      modifies this`rows, this`generation, this`failed
      ensures Value() == (if HasStatus(old(Reg()), h, Pending)
                then Save(old(Value()).(reg := Steps.MakeDebt(old(Reg()), h)), saved) else old(Value()))
      ensures Valid()
    {
      if rows[h].status == Pending {
        MakeDebt(h);
        failed := failed || !saved;
      }
    }

    /** Queue the registration of a row and hold the lock for its future. */
    method Ask(h: Handle, saved: bool)
      requires Valid() && h in rows
      modifies this`rows, this`generation, this`failed, this`queue, this`worker, this`futures, this`lock
      ensures Value() == Asked(old(Value()), h, saved) && Valid()
    {
      if |queue| >= QUEUE_SIZE {
        TurnAway(h, saved);
      } else {
        lock := Some(Ticket(h, futures));
        EnqueueRegistration(h);
      }
    }

    /** The critical section of a registration up to the point where it waits for its future. */
    method Enter(i: nat, reuse: Option<Handle>, new_: Handle, saved: bool)
      requires Valid() && Enters(Value(), i, reuse, new_)
      modifies this
      ensures Value() == Registered(old(Value()), i, reuse, new_, saved) && Valid()
    {
      var who := waiting[i];
      waiting := waiting[..i] + waiting[i + 1..];
      if worker.Absent? && !closed {
        worker := Idle;
      }
      if reuse.Some? {
        Ask(reuse.value, saved);
      } else if |queue| < QUEUE_SIZE && |rows| < MAX_ROWS {
        Add(new_, who, saved);
        if saved {
          Ask(new_, true);
        }
      }
    }

    method Add(h: Handle, who: Scope, saved: bool)
      requires Valid()
      modifies this`rows, this`order, this`generation, this`issued, this`failed
      ensures Value() == Save(old(Value()).(reg := Added(old(Reg()), h, who.device, who.epoch)), saved) && Valid() && h in rows
    {
      rows, order := rows[h := Row(who.device, who.epoch, Pending)], order + [h];
      generation, issued := generation[h := 0], issued + {h};
      failed := failed || !saved;
    }

    /** Take the next job: exit on the sentinel, schedule its POST if it is still wanted, or fail it. */
    method Take(authorized: bool)
      modifies this`queue, this`worker, this`settlements
      ensures Value() == old(Value()).(desk := Taken(old(Value()), authorized))
    {
      if !worker.Idle? || queue == [] {
        return;
      }
      var job := queue[0];
      queue := queue[1..];
      if job.action.Close? {
        worker := Exited;
        return;
      }
      var current := job.handle in rows && job.handle in generation && generation[job.handle] == job.generation;
      var wanted := false;
      if current {
        var status := rows[job.handle].status;
        if job.action.Unregister? {
          wanted := status == Debt;
        } else {
          wanted := (status == Active || (job.action.Register? && status == Pending)) && !closed && !failed && authorized;
        }
      }
      if wanted {
        worker := Busy(job, Scheduled);
      } else {
        Settle(job.future, job.handle, false);
      }
    }

    method Promote(h: Handle)
      requires Valid() && h in rows
      modifies this`rows
      ensures Reg() == WithStatus(old(Reg()), h, Active) && Valid()
      ensures h in rows && Selected(Reg(), order, rows[h].device, None, Some(h)) == Others(old(Reg()), h)
    {
      ghost var g := Reg();
      rows := rows[h := rows[h].(status := Active)];
      SelectedSame(g, Reg(), order, rows[h].device, Some(h));
    }

    method PromoteAndRetire(h: Handle) returns (retired: seq<Handle>)
      requires Valid() && h in rows
      modifies this`rows, this`generation, this`queue, this`settlements, this`worker
      ensures retired == Others(old(Reg()), h) && Reg() == Activated(old(Reg()), h)
      ensures Table() == SilenceAll(old(Table()), retired) && Valid()
    {
      Promote(h);
      retired := FenceRows(rows[h].device, None, Some(h));
    }

    method Activate(h: Handle, saved: bool) returns (retired: seq<Handle>)
      requires Valid() && h in rows
      modifies this`rows, this`generation, this`queue, this`settlements, this`worker, this`failed
      ensures Value() == Activation(old(Value()), h, saved) && retired == Others(old(Reg()), h) && Valid()
    {
      retired := PromoteAndRetire(h);
      failed := failed || !saved;
    }

    method Refuse(h: Handle, saved: bool)
      requires Valid() && h in rows
      modifies this`rows, this`generation, this`queue, this`worker, this`failed
      ensures Value() == Refusal(old(Value()), h, saved) && Valid()
    {
      MakeDebt(h);
      if saved {
        Enqueue(Job(Unregister, h, None, generation[h]));
      } else {
        failed := true;
      }
    }

    method Remove(h: Handle, saved: bool)
      requires Valid()
      modifies this`rows, this`generation, this`order, this`failed
      ensures Value() == Save(old(Value()).(reg := Removed(old(Reg()), h)), saved) && Valid()
    {
      rows, generation, order := rows - {h}, generation - {h}, Delete(order, h);
      failed := failed || !saved;
    }

    method Conclude(job: Job, ok: bool, authorized: bool, saved: bool) returns (success: bool, retired: seq<Handle>)
      requires Valid()
      modifies this`rows, this`generation, this`order, this`queue, this`settlements, this`worker, this`failed
      ensures (Value(), success, retired) == Concluded(old(Value()), job, ok, authorized, saved) && Valid()
    {
      var h := job.handle;
      success, retired := ok, [];
      if h in rows && h in generation && generation[h] == job.generation {
        if job.action.Unregister? && ok {
          Remove(h, saved);
          success := saved;
        } else if job.action.Register? && rows[h].status == Pending {
          if ok && !closed && !failed && authorized {
            retired := Activate(h, saved);
            success := saved;
          } else {
            Refuse(h, saved);
            success := ok && saved;
          }
        }
      }
    }

    /** What the worker does once its POST has ended with `answer`; the rest are answers of its surroundings. */
    method Finish(answer: bool, authorized: bool, still: bool, saved: bool)
      requires Valid() && worker.Busy?
      modifies this
      ensures Value() == Finished(old(Value()), answer, authorized, still, saved) && Valid()
    {
      var job, ok := worker.job, answer && worker.phase.Posting?;
      if ok {
        log := log + [Acked(job.action, job.handle)];
      }
      var success, retired := Conclude(job, ok, authorized, saved);
      Release(job, success, retired, still);
    }

    method Release(job: Job, success: bool, retired: seq<Handle>, still: bool)
      modifies this`queue, this`settlements, this`worker
      ensures Value() == Released((old(Value()), success, retired), job, still)
    {
      worker := Idle;
      EnqueueEach(retired);
      Settle(job.future, job.handle,
             success && job.handle in rows && rows[job.handle].status == Active && !closed && !failed && still);
    }

    /** Cancel every queued future and empty the queue. */
    method Drain()
      modifies this`queue, this`settlements
      ensures Table() == SettleQueue(old(Table()), old(queue)).(queue := [])
    {
      var jobs := queue;
      ghost var d := Table();
      for i := 0 to |jobs|
        invariant SettleQueue(d.(settlements := settlements), jobs[i..]) == SettleQueue(d, jobs)
        invariant Table() == d.(settlements := settlements)
      {
        CloseStep(d.(settlements := settlements), jobs, i);
        Settle(jobs[i].future, jobs[i].handle, false);
      }
      queue := [];
      SettleQueueFrame(d, jobs);
    }

    method Close()
      modifies this`closed, this`queue, this`worker, this`settlements, this`mark
      ensures Value() == old(Value()).(desk := Closed(old(Table())))
    {
      closed, mark := true, futures;
      ghost var d := Table();
      Drain();
      SettleQueueFrame(d, old(queue));
      if worker.Busy? && worker.phase.Scheduled? {
        worker := Busy(worker.job, Cancelled);
      }
      if worker.Idle? || worker.Busy? {
        queue := [Sentinel];
      }
    }
  }

  /** Which rows of a device are selected does not depend on their status. */
  lemma {:induction false} SelectedSame(g: Registry, t: Registry, hs: seq<Handle>, device: string, except: Option<Handle>)
    requires g.rows.Keys == t.rows.Keys
    requires forall h :: h in g.rows ==> g.rows[h].device == t.rows[h].device
    ensures Selected(g, hs, device, None, except) == Selected(t, hs, device, None, except)
    decreases |hs|
  {
    if hs != [] {
      SelectedSame(g, t, hs[1..], device, except);
    }
  }
}
