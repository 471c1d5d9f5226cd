/** The recovery store and projection as objects that are updated in place, tied to the functions of Recovery. */
module RecoveryObjects {
  import opened Common
  import opened Spec = Recovery

  /** The durable rows of one installation. */
  class RecoveryStore {
    const cfg: Config
    var rows: seq<Row>
    var revision: nat
    var truncated: bool

    ghost function Value(): Store
      reads this
    {
      Store(rows, revision, truncated)
    }

    constructor (cfg: Config)
      ensures Value() == Empty && this.cfg == cfg
    {
      this.cfg := cfg;
      rows, revision, truncated := [], 0, false;
    }

    method Prune(now: real)
      modifies this`rows, this`truncated
      ensures Value() == Spec.Prune(cfg, old(Value()), now)
    {
      var kept := Unexpired(rows, now);
      if |kept| != |rows| || |kept| > cfg.maxRows {
        truncated := true;
      }
      rows := Last(kept, cfg.maxRows);
    }

    /** Prune and shrink until the encoding fits; the write itself follows. */
    method Save(now: real)
      modifies this`rows, this`truncated
      ensures Value() == Saving(cfg, old(Value()), now)
    {
      Prune(now);
      ghost var pruned := Value();
      while cfg.size(Store(rows, revision, truncated)) > MAX_STORE_BYTES && rows != []
        invariant Shrink(cfg, Value()) == Shrink(cfg, pruned)
        decreases |rows|
      {
        rows, truncated := rows[1..], true;
      }
    }

    /** None stands for the exception that a failed write raises. */
    method Put(scope: Scope, e: Event, now: Clocks, writes: bool) returns (out: Option<Event>)
      requires e.binding.Some?
      modifies this
      ensures (Value(), out) == Spec.Put(cfg, old(Value()), scope, e, now, writes)
      ensures out.None? ==> Value() == old(Value())
    {
      var rows0, revision0, truncated0 := rows, revision, truncated;
      var key := KeyOf(scope, e);
      Prune(now.first);
      var prior := Find(rows, key);
      if prior.Some? && IsTerminal(prior.value.event.payload) {
        var kept := prior.value.event;
        return Some(e.(payload := kept.payload, kind := kept.kind, revision := kept.revision));
      }
      revision := revision + 1;
      rows := Without(rows, key) + [Row(key, now.expiry + cfg.ttl, e.(revision := revision))];
      Save(now.last);
      if !writes {
        rows, revision, truncated := rows0, revision0, truncated0;
        return None;
      }
      out := Some(e.(revision := revision));
    }

    method Snapshot(scope: Scope, authorized: string -> bool, now: real) returns (events: seq<Event>, cut: bool)
      modifies this`rows, this`truncated
      ensures (Value(), events, cut) == Spec.Snapshot(cfg, old(Value()), scope, authorized, now)
    {
      Prune(now);
      var found := [];
      for i := 0 to |rows|
        invariant found == Shown(rows[..i], scope, authorized)
      {
        assert rows[..i + 1][..i] == rows[..i];
        if rows[i].key.scope == scope && authorized(rows[i].key.profile) {
          found := found + [Historical(rows[i].event)];
        }
      }
      assert rows[..|rows|] == rows;
      events, cut := Last(found, MAX_ROWS), truncated || |found| > MAX_ROWS;
    }

    method Revoke(installation: string, device: string, now: real)
      modifies this`rows, this`truncated
      ensures Value() == Spec.Revoke(cfg, old(Value()), installation, device, now)
    {
      rows := Spared(rows, installation, device);
      Save(now);
    }
  }

  /** Merge what history shows with what was observed live, and cut the result to size. */
  method MergeTasks(stored: seq<Event>, live: seq<Event>, authorized: string -> bool, size: seq<Event> -> nat)
    returns (tasks: seq<Event>, cut: bool)
    ensures tasks == Tasks(stored, live, authorized, size)
    ensures !cut ==> tasks == Events(Merged(History(stored), live, authorized))
  {
    var d := [];
    for i := 0 to |stored|
      invariant d == History(stored[..i])
    {
      assert stored[..i + 1][..i] == stored[..i];
      d := Upsert(d, PlaceOf(stored[i]), stored[i]);
    }
    assert stored[..|stored|] == stored;
    ghost var base := d;
    for i := 0 to |live|
      invariant d == Merged(base, live[..i], authorized)
    {
      var e := live[i];
      assert live[..i + 1][..i] == live[..i];
      var prior := Lookup(d, PlaceOf(e));
      if (e.binding.None? || authorized(e.binding.value.profile))
         && !(prior.Some? && IsTerminal(prior.value.payload) && !IsTerminal(e.payload)) {
        d := Upsert(d, PlaceOf(e), e);
      }
    }
    assert live[..|live|] == live;
    tasks, cut := Last(Events(d), MAX_ROWS), |d| > MAX_ROWS;
    while size(tasks) > MAX_SNAPSHOT_BYTES && tasks != []
      invariant Trimmed(tasks, size) == Tasks(stored, live, authorized, size)
      invariant !cut ==> tasks == Events(d)
      decreases |tasks|
    {
      tasks, cut := tasks[1..], true;
    }
  }

  /** The latest event of each child, the proven bindings and the requests that wait, for the sessions of one lease. */
  class RecoveryProjection {
    const store: RecoveryStore
    const scope: Scope
    var tasks: seq<Task>
    var bindings: seq<Binding>
    var pending: seq<Asked>
    var revision: nat
    var truncated: bool

    ghost function Value(): Projection
      reads this
    {
      Projection(tasks, bindings, pending, revision, truncated)
    }

    constructor (store: RecoveryStore, scope: Scope)
      ensures Value() == Fresh && this.store == store && this.scope == scope
    {
      this.store, this.scope := store, scope;
      tasks, bindings, pending, revision, truncated := [], [], [], 0, false;
    }

    method Request(rid: string, profile: string, authorized: string -> bool)
      modifies this`pending, this`truncated
      ensures Value() == Requested(old(Value()), rid, profile, authorized)
    {
      if !IsIdentifier(profile) || !authorized(profile) {
        return;
      }
      pending := Awaiting(pending, Asked(rid, profile));
      ghost var asked := pending;
      while |pending| > MAX_ROWS
        invariant Last(pending, MAX_ROWS) == Last(asked, MAX_ROWS)
        invariant truncated == (old(truncated) || |pending| < |asked|)
        invariant |asked| > MAX_ROWS ==> |pending| >= MAX_ROWS
        invariant |asked| <= MAX_ROWS ==> pending == asked
      {
        pending, truncated := pending[1..], true;
      }
    }

    method Shelve(t: Task)
      modifies this`tasks, this`truncated
      ensures Value() == Shelved(old(Value()), t)
    {
      tasks := DropTask(tasks, t.runtime, t.child) + [t];
      if |tasks| > MAX_ROWS {
        truncated := true;
        tasks := Last(tasks, MAX_ROWS);
      }
    }

    /** Give an event the binding of its session and put it into the store; what the store knows better comes back. */
    method Persist(e: Event, authorized: string -> bool, io: Io) returns (out: Event, ok: bool)
      modifies store
      ensures (out, store.Value(), ok) == Persisted(store.cfg, bindings, authorized, old(store.Value()), scope, e, io)
    {
      out, ok := e, true;
      var b := BindingOf(bindings, e.runtime);
      if b.None? || !authorized(b.value.profile) {
        return;
      }
      out := e.(binding := b);
      var stored := store.Put(scope, out, io.now, io.writes);
      match stored
      case Some(better) => out := better;
      case None => ok := false;
    }

    /** Persist an event, then let it stand as the latest of its child; an event that cannot be written is lost. */
    method Record(child: Child, e: Event, authorized: string -> bool, io: Io) returns (ok: bool)
      modifies this`tasks, this`truncated, store
      ensures (Value(), store.Value(), ok) == Recorded(store.cfg, old(Value()), authorized, old(store.Value()), scope, child, e, io)
    {
      var out;
      out, ok := Persist(e, authorized, io);
      if ok {
        Shelve(Task(e.runtime, child, out));
      }
    }

    /** One child event. */
    method Observe(runtime: string, kind: string, payload: Payload, oversized: bool, authorized: string -> bool, io: Io) returns (ok: bool)
      modifies this, store
      ensures (Value(), store.Value(), ok) ==
              Observed(store.cfg, old(Value()), authorized, old(store.Value()), scope, runtime, kind, payload, oversized, io)
    {
      if oversized {
        truncated := true;
        return true;
      }
      if ChildKey(payload).None? {
        return true;
      }
      ok := ObserveChild(runtime, kind, payload, authorized, io);
    }

    method ObserveChild(runtime: string, kind: string, payload: Payload, authorized: string -> bool, io: Io) returns (ok: bool)
      requires ChildKey(payload).Some?
      modifies this, store
      ensures (Value(), store.Value(), ok) ==
              Observed(store.cfg, old(Value()), authorized, old(store.Value()), scope, runtime, kind, payload, false, io)
    {
      var child := ChildKey(payload).value;
      var previous := FindTask(tasks, runtime, child);
      if previous.Some? && IsTerminal(previous.value.event.payload) {
        return true;
      }
      ObservedRecords(store.cfg, Value(), authorized, store.Value(), scope, runtime, kind, payload, io);
      revision := revision + 1;
      ok := Record(child, Seen(previous, runtime, kind, payload, revision), authorized, io);
    }

    /** Store the tasks of a session again, one after the other, until one cannot be written. */
    method PersistTasks(runtime: string, authorized: string -> bool, io: nat -> Io) returns (ok: bool)
      modifies this`tasks, store
      ensures (Value(), store.Value(), ok) ==
              Repersisted(store.cfg, old(Value()), authorized, old(store.Value()), scope, runtime, 0, io)
    {
      var i := 0;
      while i < |tasks|
        invariant i <= |tasks| && bindings == old(bindings) && pending == old(pending)
            && revision == old(revision) && truncated == old(truncated)
        invariant Repersisted(store.cfg, Value(), authorized, store.Value(), scope, runtime, i, io)
                  == Repersisted(store.cfg, old(Value()), authorized, old(store.Value()), scope, runtime, 0, io)
        decreases |tasks| - i
      {
        if tasks[i].runtime == runtime {
          var e, written := Persist(tasks[i].event, authorized, io(i));
          tasks := tasks[i := tasks[i].(event := e)];
          if !written {
            return false;
          }
        }
        i := i + 1;
      }
      ok := true;
    }

    method Learn(b: Binding)
      modifies this`bindings, this`truncated
      ensures Value() == Learned(old(Value()), b)
    {
      bindings := Bound(bindings, b);
      if |bindings| > MAX_ROWS {
        truncated := true;
        bindings := Last(bindings, MAX_ROWS);
      }
    }

    /** One reply. */
    method ObserveReply(rid: string, result: Option<Session>, authorized: string -> bool, io: nat -> Io) returns (ok: bool)
      modifies this, store
      ensures (Value(), store.Value(), ok) ==
              Replied(store.cfg, old(Value()), authorized, old(store.Value()), scope, rid, result, io)
    {
      var profile := ProfileAsked(pending, rid);
      pending := Answered(pending, rid);
      if profile.None? || result.None? {
        return true;
      }
      if result.value.reported.Some? && result.value.reported != profile {
        truncated := true;
        return true;
      }
      if !Proves(result.value) || !authorized(profile.value) {
        return true;
      }
      Learn(Binding(result.value.runtime.value, result.value.durable.value, profile.value, true));
      ok := PersistTasks(result.value.runtime.value, authorized, io);
    }
  }
}
