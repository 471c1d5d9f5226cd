/**
 * Recovery of delegated work: a bounded durable store of the latest event of each child, and the
 * snapshot that merges it with what was observed live. Clock readings, the size of the encoded
 * store and whether a write succeeds are given by the surroundings.
 */
module Recovery {
  import opened Common
  import opened Machine

  const MAX_ROWS := 64
  const MAX_STORE_BYTES := 2 * 1024 * 1024
  const MAX_SNAPSHOT_BYTES := 128 * 1024
  const MAX_IDENTIFIER := 128

  const TERMINAL: set<string> := {"completed", "failed", "cancelled", "interrupted", "error", "timeout"}

  datatype Value = Text(text: string) | Num(num: int)

  type Payload = map<string, Value>

  /** What the textual child keys tell apart: which field names the child, and with what. */
  datatype Child = Subagent(id: string) | ChildSession(id: string) | Delegated(id: string, index: int)

  predicate IsIdentifier(s: string) {
    0 < |s| <= MAX_IDENTIFIER
  }

  predicate Names(p: Payload, field: string) {
    field in p && p[field].Text? && IsIdentifier(p[field].text)
  }

  function ChildKey(p: Payload): Option<Child> {
    if Names(p, "subagent_id") then Some(Subagent(p["subagent_id"].text))
    else if Names(p, "child_session_id") then Some(ChildSession(p["child_session_id"].text))
    else if Names(p, "delegation_id") && "task_index" in p && p["task_index"].Num? && 0 <= p["task_index"].num <= 10000
    then Some(Delegated(p["delegation_id"].text, p["task_index"].num))
    else None
  }

  predicate IsTerminal(p: Payload) {
    "status" in p && p["status"].Text? && p["status"].text in TERMINAL
  }

  datatype Scope = Scope(installation: string, device: string, epoch: int)

  datatype Binding = Binding(runtime: string, durable: string, profile: string, live: bool)

  datatype Event = Event(runtime: string, kind: string, payload: Payload, revision: nat, binding: Option<Binding>)

  datatype Key = Key(scope: Scope, profile: string, durable: string, child: Option<Child>)

  datatype Row = Row(key: Key, expires: real, event: Event)

  datatype Store = Store(rows: seq<Row>, revision: nat, truncated: bool)

  datatype Config = Config(maxRows: nat, ttl: real, size: Store -> nat)

  const Empty := Store([], 0, false)

  // --------------------------------------------------------------- the store

  function Unexpired(rows: seq<Row>, now: real): (r: seq<Row>)
  {
    if rows == [] then []
    else (if rows[0].expires > now then [rows[0]] else []) + Unexpired(rows[1..], now)
  }

  function Last<T>(xs: seq<T>, n: nat): (r: seq<T>) {
    if |xs| <= n then xs else xs[|xs| - n..]
  }

  function Prune(cfg: Config, s: Store, now: real): Store {
    var kept := Unexpired(s.rows, now);
    s.(rows := Last(kept, cfg.maxRows), truncated := s.truncated || |kept| != |s.rows| || |kept| > cfg.maxRows)
  }

  /** Drop the oldest rows until the encoded store fits. */
  function Shrink(cfg: Config, s: Store): Store
    decreases |s.rows|
  {
    if cfg.size(s) > MAX_STORE_BYTES && s.rows != [] then Shrink(cfg, s.(rows := s.rows[1..], truncated := true)) else s
  }

  /** What a save makes of the store in memory, whether or not the write then succeeds. */
  function Saving(cfg: Config, s: Store, now: real): Store {
    Shrink(cfg, Prune(cfg, s, now))
  }

  function Find(rows: seq<Row>, key: Key): (r: Option<Row>)
    ensures r.Some? ==> r.value in rows && r.value.key == key
    ensures r.None? ==> forall x :: x in rows ==> x.key != key
  {
    if rows == [] then None else if rows[0].key == key then Some(rows[0]) else Find(rows[1..], key)
  }

  function Without(rows: seq<Row>, key: Key): (r: seq<Row>)
  {
    if rows == [] then [] else (if rows[0].key == key then [] else [rows[0]]) + Without(rows[1..], key)
  }

  function KeyOf(scope: Scope, e: Event): Key
    requires e.binding.Some?
  {
    Key(scope, e.binding.value.profile, e.binding.value.durable, ChildKey(e.payload))
  }

  /** The readings of the clock that a put takes: at its prune, for the expiry, and at the prune of its save. */
  datatype Clocks = Clocks(first: real, expiry: real, last: real)

  function Inserted(cfg: Config, s: Store, key: Key, e: Event, now: Clocks): Store {
    var rows := Without(s.rows, key) + [Row(key, now.expiry + cfg.ttl, e.(revision := s.revision + 1))];
    Saving(cfg, s.(rows := rows, revision := s.revision + 1), now.last)
  }

  /** The event as the caller then has it, with its revision; an error when the write failed. */
  function Put(cfg: Config, s: Store, scope: Scope, e: Event, now: Clocks, writes: bool): (r: (Store, Option<Event>))
    requires e.binding.Some?
  {
    var key := KeyOf(scope, e);
    var p := Prune(cfg, s, now.first);
    var prior := Find(p.rows, key);
    if prior.Some? && IsTerminal(prior.value.event.payload) then
      var old_ := prior.value.event;
      (p, Some(e.(payload := old_.payload, kind := old_.kind, revision := old_.revision)))
    else if writes then
      var t := Inserted(cfg, p, key, e, now);
      (t, Some(e.(revision := t.revision)))
    else (s, None)
  }

  predicate OfDevice(stored: string, device: string) {
    stored == device || device + "/" <= stored
  }

  predicate Revokes(r: Row, installation: string, device: string) {
    r.key.scope.installation == installation && OfDevice(r.key.scope.device, device)
  }

  function Spared(rows: seq<Row>, installation: string, device: string): (r: seq<Row>)
  {
    if rows == [] then []
    else (if Revokes(rows[0], installation, device) then [] else [rows[0]]) + Spared(rows[1..], installation, device)
  }

  /** The rows are gone from memory even if the write fails. */
  function Revoke(cfg: Config, s: Store, installation: string, device: string, now: real): Store {
    Saving(cfg, s.(rows := Spared(s.rows, installation, device)), now)
  }

  /** A stored event as history shows it: not live, and unknown unless terminal. */
  function Historical(e: Event): Event {
    e.(binding := if e.binding.Some? then Some(e.binding.value.(live := false)) else None,
       payload := if IsTerminal(e.payload) then e.payload else e.payload["status" := Text("unknown")])
  }

  predicate Shows(r: Row, scope: Scope, authorized: string -> bool) {
    r.key.scope == scope && authorized(r.key.profile)
  }

  function Shown(rows: seq<Row>, scope: Scope, authorized: string -> bool): (r: seq<Event>)
  {
    if rows == [] then []
    else Shown(rows[..|rows| - 1], scope, authorized)
         + (if Shows(rows[|rows| - 1], scope, authorized) then [Historical(rows[|rows| - 1].event)] else [])
  }

  function Snapshot(cfg: Config, s: Store, scope: Scope, authorized: string -> bool, now: real): (Store, seq<Event>, bool) {
    var p := Prune(cfg, s, now);
    var found := Shown(p.rows, scope, authorized);
    (p, Last(found, MAX_ROWS), p.truncated || |found| > MAX_ROWS)
  }

  datatype Op =
    | PutOp(scope: Scope, event: Event, now: Clocks, writes: bool)
    | RevokeOp(installation: string, device: string, time: real)
    | SnapshotOp(time: real)

  function Step(cfg: Config, s: Store, op: Op): Store {
    match op
    case PutOp(scope, e, now, writes) => if e.binding.Some? then Put(cfg, s, scope, e, now, writes).0 else s
    case RevokeOp(i, d, now) => Revoke(cfg, s, i, d, now)
    case SnapshotOp(now) => Prune(cfg, s, now)
  }

  function Stepper(cfg: Config): (Store, Op) -> (Store, ()) {
    (s, op) => (Step(cfg, s, op), ())
  }

  function After(cfg: Config, s: Store, ops: seq<Op>): Store {
    Run(Stepper(cfg), s, ops).0
  }

  // ----------------------------------------------- unique keys, rising revisions

  /** One row before another: other key, smaller revision. */
  ghost predicate Precedes(a: Row, b: Row) {
    a.key != b.key && a.event.revision < b.event.revision
  }

  ghost predicate Ordered(rows: seq<Row>) {
    forall i, j :: 0 <= i < j < |rows| ==> Precedes(rows[i], rows[j])
  }

  ghost predicate Below(rows: seq<Row>, revision: nat) {
    forall r :: r in rows ==> r.event.revision <= revision
  }

  /** A row is filed under the key of its own event. */
  ghost predicate Filed(r: Row) {
    r.event.binding.Some? && r.key == KeyOf(r.key.scope, r.event)
  }

  ghost predicate Orderly(s: Store) {
    Ordered(s.rows) && Below(s.rows, s.revision) && forall r :: r in s.rows ==> Filed(r)
  }

  /** Between calls the store also keeps to its cap. */
  ghost predicate Inv(cfg: Config, s: Store) {
    Orderly(s) && |s.rows| <= cfg.maxRows
  }

  /** A part of the rows in the same order. */
  ghost predicate Part(xs: seq<Row>, rows: seq<Row>) {
    (Ordered(rows) ==> Ordered(xs)) && forall r :: r in xs ==> r in rows
  }

  lemma OrderedSnoc(rows: seq<Row>, r: Row)
    requires Ordered(rows) && forall x :: x in rows ==> Precedes(x, r)
    ensures Ordered(rows + [r])
  {
  }

  lemma OrderedCons(r: Row, rows: seq<Row>)
    requires Ordered(rows) && forall x :: x in rows ==> Precedes(r, x)
    ensures Ordered([r] + rows)
  {
  }

  lemma TailIsPart(rows: seq<Row>, k: nat)
    requires k <= |rows|
    ensures Part(rows[k..], rows)
  {
  }

  /** Keeping or dropping the head in front of a part of the tail gives a part of the whole. */
  lemma ConsIsPart(rows: seq<Row>, keep: bool, rest: seq<Row>)
    requires rows != [] && Part(rest, rows[1..])
    ensures Part((if keep then [rows[0]] else []) + rest, rows)
  {
    if Ordered(rows) {
      TailIsPart(rows, 1);
      if keep {
        OrderedCons(rows[0], rest);
      } else {
        assert [] + rest == rest;
      }
    }
  }

  lemma {:induction false} UnexpiredIsPart(rows: seq<Row>, now: real)
    ensures Part(Unexpired(rows, now), rows) && |Unexpired(rows, now)| <= |rows|
    ensures forall r :: r in rows ==> (r in Unexpired(rows, now) || r.expires <= now)
    decreases |rows|
  {
    if rows != [] {
      UnexpiredIsPart(rows[1..], now);
      ConsIsPart(rows, rows[0].expires > now, Unexpired(rows[1..], now));
      assert forall r :: r in rows <==> r == rows[0] || r in rows[1..];
    }
  }

  lemma {:induction false} WithoutIsPart(rows: seq<Row>, key: Key)
    ensures Part(Without(rows, key), rows)
    ensures forall r :: r in Without(rows, key) <==> r in rows && r.key != key
    decreases |rows|
  {
    if rows != [] {
      WithoutIsPart(rows[1..], key);
      ConsIsPart(rows, rows[0].key != key, Without(rows[1..], key));
      assert forall r :: r in rows <==> r == rows[0] || r in rows[1..];
    }
  }

  lemma {:induction false} SparedIsPart(rows: seq<Row>, installation: string, device: string)
    ensures Part(Spared(rows, installation, device), rows)
    ensures forall r :: r in Spared(rows, installation, device) <==> r in rows && !Revokes(r, installation, device)
    decreases |rows|
  {
    if rows != [] {
      SparedIsPart(rows[1..], installation, device);
      ConsIsPart(rows, !Revokes(rows[0], installation, device), Spared(rows[1..], installation, device));
      assert forall r :: r in rows <==> r == rows[0] || r in rows[1..];
    }
  }

  /** A row that is gone was evicted: the store admits a loss, and every row that remains is newer. */
  ghost predicate Evicted(r: Row, t: Store) {
    t.truncated && forall x :: x in t.rows ==> r.event.revision < x.event.revision
  }

  lemma LastEvicts(rows: seq<Row>, n: nat)
    ensures Part(Last(rows, n), rows)
    ensures Ordered(rows) ==> forall r :: r in rows ==>
              r in Last(rows, n) || (|rows| > n && forall x :: x in Last(rows, n) ==> r.event.revision < x.event.revision)
  {
    if |rows| > n {
      TailIsPart(rows, |rows| - n);
      if Ordered(rows) {
        forall r | r in rows && r !in Last(rows, n) ensures forall x :: x in Last(rows, n) ==> r.event.revision < x.event.revision {
          var i :| 0 <= i < |rows| && rows[i] == r;
          assert forall k :: |rows| - n <= k < |rows| ==> rows[k] in Last(rows, n);
          forall x | x in Last(rows, n) ensures r.event.revision < x.event.revision {
            var j :| |rows| - n <= j < |rows| && rows[j] == x;
            assert Precedes(rows[i], rows[j]);
          }
        }
      }
    }
  }

  lemma PruneKeeps(cfg: Config, s: Store, now: real)
    requires Orderly(s)
    ensures var t := Prune(cfg, s, now); Inv(cfg, t) && t.revision == s.revision && (s.truncated ==> t.truncated)
    ensures forall r :: r in Prune(cfg, s, now).rows ==> r in s.rows
    ensures forall r :: r in s.rows ==>
              r in Prune(cfg, s, now).rows || r.expires <= now || (Evicted(r, Prune(cfg, s, now)) && |s.rows| > cfg.maxRows)
  {
    UnexpiredIsPart(s.rows, now);
    LastEvicts(Unexpired(s.rows, now), cfg.maxRows);
  }

  lemma {:induction false} ShrinkKeeps(cfg: Config, s: Store)
    requires Orderly(s)
    ensures var t := Shrink(cfg, s); Orderly(t) && |t.rows| <= |s.rows| && t.revision == s.revision && (s.truncated ==> t.truncated)
    ensures forall r :: r in Shrink(cfg, s).rows ==> r in s.rows
    ensures forall r :: r in s.rows ==> (r in Shrink(cfg, s).rows || Evicted(r, Shrink(cfg, s)))
    decreases |s.rows|
  {
    if cfg.size(s) > MAX_STORE_BYTES && s.rows != [] {
      var m := s.(rows := s.rows[1..], truncated := true);
      TailIsPart(s.rows, 1);
      ShrinkKeeps(cfg, m);
      forall r | r in s.rows && r !in Shrink(cfg, s).rows ensures Evicted(r, Shrink(cfg, s)) {
        if r == s.rows[0] {
          forall x | x in Shrink(cfg, m).rows ensures r.event.revision < x.event.revision {
            var j :| 0 <= j < |m.rows| && m.rows[j] == x;
            assert Precedes(s.rows[0], s.rows[j + 1]);
          }
        }
      }
    }
  }

  /** A row may go out of the store in a save only by expiry or eviction. */
  lemma SavingKeeps(cfg: Config, s: Store, now: real)
    requires Orderly(s)
    ensures var t := Saving(cfg, s, now); Inv(cfg, t) && t.revision == s.revision && (s.truncated ==> t.truncated)
    ensures forall r :: r in Saving(cfg, s, now).rows ==> r in s.rows
    ensures forall r :: r in s.rows ==> (r in Saving(cfg, s, now).rows || r.expires <= now || Evicted(r, Saving(cfg, s, now)))
  {
    PruneKeeps(cfg, s, now);
    ShrinkKeeps(cfg, Prune(cfg, s, now));
  }

  lemma InsertedKeeps(cfg: Config, s: Store, key: Key, e: Event, now: Clocks)
    requires Orderly(s) && e.binding.Some? && key == KeyOf(key.scope, e)
    ensures var t := Inserted(cfg, s, key, e, now); Inv(cfg, t) && t.revision == s.revision + 1 && (s.truncated ==> t.truncated)
    ensures forall r :: r in s.rows && r.key != key ==>
              (r in Inserted(cfg, s, key, e, now).rows || r.expires <= now.last || Evicted(r, Inserted(cfg, s, key, e, now)))
    ensures forall r :: r in Inserted(cfg, s, key, e, now).rows ==>
              (r in s.rows && r.key != key) || r == Row(key, now.expiry + cfg.ttl, e.(revision := s.revision + 1))
  {
    WithoutIsPart(s.rows, key);
    var new_ := Row(key, now.expiry + cfg.ttl, e.(revision := s.revision + 1));
    OrderedSnoc(Without(s.rows, key), new_);
    SavingKeeps(cfg, s.(rows := Without(s.rows, key) + [new_], revision := s.revision + 1), now.last);
  }

  lemma StepKeeps(cfg: Config, s: Store, op: Op)
    requires Inv(cfg, s)
    ensures Inv(cfg, Step(cfg, s, op)) && s.revision <= Step(cfg, s, op).revision
  {
    match op
    case PutOp(scope, e, now, _) =>
      if e.binding.Some? {
        PruneKeeps(cfg, s, now.first);
        InsertedKeeps(cfg, Prune(cfg, s, now.first), KeyOf(scope, e), e, now);
      }
    case RevokeOp(i, d, now) =>
      SparedIsPart(s.rows, i, d);
      SavingKeeps(cfg, s.(rows := Spared(s.rows, i, d)), now);
    case SnapshotOp(now) => PruneKeeps(cfg, s, now);
  }

  /**
   * In every run from the empty store, keys are unique, rows stand in strictly rising order of revision
   * and within their cap.
   */
  lemma EveryRunKeeps(cfg: Config, ops: seq<Op>)
    ensures Inv(cfg, After(cfg, Empty, ops))
  {
    var inv := (s: Store) => Inv(cfg, s);
    forall s, op | inv(s)
      ensures inv(Stepper(cfg)(s, op).0)
    {
      StepKeeps(cfg, s, op);
    }
    RunInvariant(Stepper(cfg), inv, Empty, ops);
  }

  // ---------------------------------------------------------- terminal evidence

  /** The latest reading of the clock at which a step may find rows expired. */
  predicate Expires(op: Op, r: Row) {
    match op
    case PutOp(_, _, now, _) => r.expires <= now.first || r.expires <= now.last
    case RevokeOp(_, _, now) => r.expires <= now
    case SnapshotOp(now) => r.expires <= now
  }

  /** How a terminal row may leave the store in a step: expired, revoked, or evicted as the oldest. */
  ghost predicate MayGo(cfg: Config, s: Store, op: Op, r: Row) {
    Expires(op, r) || (op.RevokeOp? && Revokes(r, op.installation, op.device)) || Evicted(r, Step(cfg, s, op))
  }

  lemma PutKeepsTerminal(cfg: Config, s: Store, op: Op, r: Row)
    requires Inv(cfg, s) && r in s.rows && IsTerminal(r.event.payload) && op.PutOp? && op.event.binding.Some?
    ensures r in Step(cfg, s, op).rows || MayGo(cfg, s, op, r)
  {
    var key := KeyOf(op.scope, op.event);
    var p := Prune(cfg, s, op.now.first);
    PruneKeeps(cfg, s, op.now.first);
    InsertedKeeps(cfg, p, key, op.event, op.now);
    if r in p.rows {
      if r.key == key {
        SameRow(p.rows, r, Find(p.rows, key).value);
      }
    } else if Evicted(r, p) {
      EvictedStays(cfg, s, op, r);
    }
  }

  lemma SameRow(rows: seq<Row>, a: Row, b: Row)
    requires Ordered(rows) && a in rows && b in rows && a.key == b.key
    ensures a == b
  {
    var i :| 0 <= i < |rows| && rows[i] == a;
    var j :| 0 <= j < |rows| && rows[j] == b;
    assert i == j;
  }

  /** What the first prune of a put evicted is still older than everything after the put. */
  lemma EvictedStays(cfg: Config, s: Store, op: Op, r: Row)
    requires Inv(cfg, s) && r in s.rows && op.PutOp? && op.event.binding.Some? && Evicted(r, Prune(cfg, s, op.now.first))
    ensures r in Step(cfg, s, op).rows || Evicted(r, Step(cfg, s, op))
  {
    var p := Prune(cfg, s, op.now.first);
    PruneKeeps(cfg, s, op.now.first);
    InsertedKeeps(cfg, p, KeyOf(op.scope, op.event), op.event, op.now);
  }

  lemma StepKeepsTerminal(cfg: Config, s: Store, op: Op, r: Row)
    requires Inv(cfg, s) && r in s.rows && IsTerminal(r.event.payload)
    ensures r in Step(cfg, s, op).rows || MayGo(cfg, s, op, r)
  {
    match op
    case PutOp(_, _, _, _) =>
      if op.event.binding.Some? {
        PutKeepsTerminal(cfg, s, op, r);
      }
    case RevokeOp(i, d, now) =>
      SparedIsPart(s.rows, i, d);
      SavingKeeps(cfg, s.(rows := Spared(s.rows, i, d)), now);
    case SnapshotOp(now) => PruneKeeps(cfg, s, now);
  }

  /** Some step of a run lets a row go for one of the three reasons. */
  ghost predicate LetGo(cfg: Config, s: Store, ops: seq<Op>, r: Row)
    decreases |ops|
  {
    ops != [] && (MayGo(cfg, s, ops[0], r) || LetGo(cfg, Step(cfg, s, ops[0]), ops[1..], r))
  }

  /** In every run a terminal row stays in the store unchanged, payload and all, until it is expired, evicted or revoked. */
  lemma {:induction false} TerminalStays(cfg: Config, s: Store, ops: seq<Op>, r: Row)
    requires Inv(cfg, s) && r in s.rows && IsTerminal(r.event.payload)
    ensures r in After(cfg, s, ops).rows || LetGo(cfg, s, ops, r)
    decreases |ops|
  {
    if ops != [] {
      StepKeeps(cfg, s, ops[0]);
      StepKeepsTerminal(cfg, s, ops[0], r);
      if r in Step(cfg, s, ops[0]).rows {
        TerminalStays(cfg, Step(cfg, s, ops[0]), ops[1..], r);
      }
    }
  }

  /**
   * A put for a child whose stored row is terminal and has not expired writes nothing: the caller
   * is handed the stored payload and revision.
   */
  lemma PutNeverDowngrades(cfg: Config, s: Store, scope: Scope, e: Event, now: Clocks, writes: bool, r: Row)
    requires Inv(cfg, s) && r in s.rows && r.expires > now.first && e.binding.Some?
        && r.key == KeyOf(scope, e) && IsTerminal(r.event.payload)
    ensures var (t, out) := Put(cfg, s, scope, e, now, writes);
            && t.rows == Prune(cfg, s, now.first).rows && t.revision == s.revision && r in t.rows && out.Some?
            && out.value.payload == r.event.payload && out.value.kind == r.event.kind && out.value.revision == r.event.revision
  {
    PruneKeeps(cfg, s, now.first);
    var p := Prune(cfg, s, now.first);
    SameRow(p.rows, r, Find(p.rows, r.key).value);
  }

  /** After a put that returns, the row of its child, if it is kept, is what the caller was handed back. */
  lemma PutIsStored(cfg: Config, s: Store, scope: Scope, e: Event, now: Clocks, writes: bool, r: Row)
    requires Inv(cfg, s) && e.binding.Some? && Put(cfg, s, scope, e, now, writes).1.Some?
    requires r in Put(cfg, s, scope, e, now, writes).0.rows && r.key == KeyOf(scope, e)
    ensures var out := Put(cfg, s, scope, e, now, writes).1.value;
            out.payload == r.event.payload && out.kind == r.event.kind && out.revision == r.event.revision
  {
    var p := Prune(cfg, s, now.first);
    PruneKeeps(cfg, s, now.first);
    var prior := Find(p.rows, r.key);
    if prior.Some? && IsTerminal(prior.value.event.payload) {
      SameRow(p.rows, r, prior.value);
    } else {
      InsertedKeeps(cfg, p, r.key, e, now);
    }
  }

  // -------------------------------------------------------- the merged snapshot

  /** Under what an event stands in a snapshot: its binding's profile and durable session, or its runtime session. */
  datatype Place = Place(profile: Option<string>, session: string, child: Option<Child>)

  function PlaceOf(e: Event): Place {
    match e.binding
    case Some(b) => Place(Some(b.profile), b.durable, ChildKey(e.payload))
    case None => Place(None, e.runtime, ChildKey(e.payload))
  }

  datatype Entry = Entry(place: Place, event: Event)

  function Lookup(d: seq<Entry>, k: Place): Option<Event>
  {
    if d == [] then None else if d[0].place == k then Some(d[0].event) else Lookup(d[1..], k)
  }

  /** Assignment in an ordered dictionary: in place if the key is there, at the end if not. */
  function Upsert(d: seq<Entry>, k: Place, e: Event): (r: seq<Entry>)
  {
    if d == [] then [Entry(k, e)]
    else if d[0].place == k then [Entry(k, e)] + d[1..]
    else [d[0]] + Upsert(d[1..], k, e)
  }

  function History(events: seq<Event>): (d: seq<Entry>)
  {
    if events == [] then []
    else
      var e := events[|events| - 1];
      Upsert(History(events[..|events| - 1]), PlaceOf(e), e)
  }

  predicate Allowed(e: Event, authorized: string -> bool) {
    e.binding.Some? ==> authorized(e.binding.value.profile)
  }

  function AddLive(d: seq<Entry>, e: Event, authorized: string -> bool): seq<Entry> {
    var prior := Lookup(d, PlaceOf(e));
    if !Allowed(e, authorized) then d
    else if prior.Some? && IsTerminal(prior.value.payload) && !IsTerminal(e.payload) then d
    else Upsert(d, PlaceOf(e), e)
  }

  function Merged(d: seq<Entry>, events: seq<Event>, authorized: string -> bool): (r: seq<Entry>)
  {
    if events == [] then d
    else AddLive(Merged(d, events[..|events| - 1], authorized), events[|events| - 1], authorized)
  }

  function Events(d: seq<Entry>): (es: seq<Event>)
    ensures |es| == |d| && forall i :: 0 <= i < |d| ==> es[i] == d[i].event
  {
    seq(|d|, i requires 0 <= i < |d| => d[i].event)
  }

  /** Drop tasks from the front until the encoded list fits. */
  function Trimmed(tasks: seq<Event>, size: seq<Event> -> nat): (r: seq<Event>)
    ensures |r| <= |tasks| && r == tasks[|tasks| - |r|..]
    ensures size(r) <= MAX_SNAPSHOT_BYTES || r == []
    decreases |tasks|
  {
    if size(tasks) > MAX_SNAPSHOT_BYTES && tasks != [] then
      var r := Trimmed(tasks[1..], size);
      assert tasks[1..][|tasks| - 1 - |r|..] == tasks[|tasks| - |r|..];
      r
    else tasks
  }

  lemma {:induction false} LookupUpsert(d: seq<Entry>, k: Place, e: Event, x: Place)
    ensures Lookup(Upsert(d, k, e), x) == if x == k then Some(e) else Lookup(d, x)
    decreases |d|
  {
    if d != [] && d[0].place != k {
      LookupUpsert(d[1..], k, e, x);
    }
  }

  /** Terminal evidence at a place among some events, as far as they are allowed. */
  ghost predicate Evidence(events: seq<Event>, k: Place, authorized: string -> bool) {
    exists i :: 0 <= i < |events| && PlaceOf(events[i]) == k && Allowed(events[i], authorized) && IsTerminal(events[i].payload)
  }

  ghost predicate TerminalAt(d: seq<Entry>, k: Place) {
    Lookup(d, k).Some? && IsTerminal(Lookup(d, k).value.payload)
  }

  lemma EvidenceSnoc(events: seq<Event>, k: Place, authorized: string -> bool)
    requires events != []
    ensures var e := events[|events| - 1];
            Evidence(events, k, authorized) <==>
              Evidence(events[..|events| - 1], k, authorized) || (PlaceOf(e) == k && Allowed(e, authorized) && IsTerminal(e.payload))
  {
    var n := |events| - 1;
    if Evidence(events[..n], k, authorized) {
      var i :| 0 <= i < n && PlaceOf(events[..n][i]) == k && Allowed(events[..n][i], authorized) && IsTerminal(events[..n][i].payload);
      assert events[i] == events[..n][i];
    }
    if Evidence(events, k, authorized) {
      var i :| 0 <= i < |events| && PlaceOf(events[i]) == k && Allowed(events[i], authorized) && IsTerminal(events[i].payload);
      if i < n {
        assert events[..n][i] == events[i];
      }
    }
  }

  /** The merge shows a child as terminal exactly when what it started from did or some allowed live event was. */
  lemma {:induction false} MergeKeepsEvidence(d: seq<Entry>, events: seq<Event>, authorized: string -> bool, k: Place)
    ensures TerminalAt(Merged(d, events, authorized), k) <==> TerminalAt(d, k) || Evidence(events, k, authorized)
    decreases |events|
  {
    if events != [] {
      var n := |events| - 1;
      MergeKeepsEvidence(d, events[..n], authorized, k);
      EvidenceSnoc(events, k, authorized);
      LookupUpsert(Merged(d, events[..n], authorized), PlaceOf(events[n]), events[n], k);
    }
  }

  ghost predicate DistinctPlaces(events: seq<Event>) {
    forall i, j :: 0 <= i < j < |events| ==> PlaceOf(events[i]) != PlaceOf(events[j])
  }

  lemma {:induction false} HistoryLookup(events: seq<Event>, i: nat)
    requires DistinctPlaces(events) && i < |events|
    ensures Lookup(History(events), PlaceOf(events[i])) == Some(events[i])
    decreases |events|
  {
    var n := |events| - 1;
    LookupUpsert(History(events[..n]), PlaceOf(events[n]), events[n], PlaceOf(events[i]));
    if i < n {
      HistoryLookup(events[..n], i);
      assert events[..n][i] == events[i];
    }
  }

  lemma {:induction false} HistoryHolds(events: seq<Event>, k: Place)
    ensures Lookup(History(events), k).Some? ==>
              exists i :: 0 <= i < |events| && events[i] == Lookup(History(events), k).value && PlaceOf(events[i]) == k
    decreases |events|
  {
    if events != [] {
      var n := |events| - 1;
      HistoryHolds(events[..n], k);
      LookupUpsert(History(events[..n]), PlaceOf(events[n]), events[n], k);
      if Lookup(History(events), k).Some? && PlaceOf(events[n]) != k {
        var i :| 0 <= i < n && events[..n][i] == Lookup(History(events[..n]), k).value && PlaceOf(events[..n][i]) == k;
        assert events[i] == events[..n][i];
      }
    }
  }

  lemma HistoryEvidence(events: seq<Event>, k: Place)
    requires DistinctPlaces(events)
    ensures TerminalAt(History(events), k) <==> Evidence(events, k, _ => true)
  {
    HistoryHolds(events, k);
    if Evidence(events, k, _ => true) {
      var i :| 0 <= i < |events| && PlaceOf(events[i]) == k && IsTerminal(events[i].payload);
      HistoryLookup(events, i);
    }
  }

  /** Showing a row as history changes neither its child nor whether it is terminal. */
  lemma HistoricalKeepsChild(e: Event)
    ensures ChildKey(Historical(e).payload) == ChildKey(e.payload)
    ensures IsTerminal(Historical(e).payload) <==> IsTerminal(e.payload)
    ensures IsTerminal(e.payload) ==> Historical(e).payload == e.payload
  {
  }

  /** An event shown comes from a row of the scope. */
  lemma {:induction false} ShownFrom(rows: seq<Row>, scope: Scope, authorized: string -> bool, e: Event) returns (r: Row)
    requires e in Shown(rows, scope, authorized)
    ensures r in rows && Shows(r, scope, authorized) && e == Historical(r.event)
    decreases |rows|
  {
    var n := |rows| - 1;
    if e in Shown(rows[..n], scope, authorized) {
      r := ShownFrom(rows[..n], scope, authorized, e);
    } else {
      r := rows[n];
    }
  }

  lemma DifferentPlaces(a: Row, b: Row)
    requires Filed(a) && Filed(b) && a.key != b.key && a.key.scope == b.key.scope
    ensures PlaceOf(Historical(a.event)) != PlaceOf(Historical(b.event))
  {
    HistoricalKeepsChild(a.event);
    HistoricalKeepsChild(b.event);
  }

  lemma DistinctSnoc(events: seq<Event>, e: Event)
    requires DistinctPlaces(events) && forall x :: x in events ==> PlaceOf(x) != PlaceOf(e)
    ensures DistinctPlaces(events + [e])
  {
  }

  /** The stored rows of a scope stand at different places. */
  lemma {:induction false} ShownAreDistinct(rows: seq<Row>, scope: Scope, authorized: string -> bool)
    requires Ordered(rows) && forall r :: r in rows ==> Filed(r)
    ensures DistinctPlaces(Shown(rows, scope, authorized))
    decreases |rows|
  {
    if rows != [] {
      var n := |rows| - 1;
      var before := Shown(rows[..n], scope, authorized);
      ShownAreDistinct(rows[..n], scope, authorized);
      if Shows(rows[n], scope, authorized) {
        forall e | e in before ensures PlaceOf(e) != PlaceOf(Historical(rows[n].event)) {
          var r := ShownFrom(rows[..n], scope, authorized, e);
          var i :| 0 <= i < n && rows[i] == r;
          assert Precedes(rows[i], rows[n]);
          DifferentPlaces(r, rows[n]);
        }
        DistinctSnoc(before, Historical(rows[n].event));
      }
    }
  }

  lemma LastDistinct(events: seq<Event>, n: nat)
    requires DistinctPlaces(events)
    ensures DistinctPlaces(Last(events, n))
  {
  }

  /**
   * The snapshot of a projection: a child is shown as terminal exactly when its row among the stored
   * ones shown is terminal or some allowed live event of it is. So no live row ever replaces
   * terminal evidence by something weaker.
   */
  lemma SnapshotKeepsTerminal(cfg: Config, s: Store, scope: Scope, authorized: string -> bool, now: real, live: seq<Event>, k: Place)
    requires Inv(cfg, s)
    ensures var stored := Snapshot(cfg, s, scope, authorized, now).1;
            TerminalAt(Merged(History(stored), live, authorized), k) <==>
              Evidence(stored, k, _ => true) || Evidence(live, k, authorized)
  {
    PruneKeeps(cfg, s, now);
    var p := Prune(cfg, s, now);
    ShownAreDistinct(p.rows, scope, authorized);
    LastDistinct(Shown(p.rows, scope, authorized), MAX_ROWS);
    var stored := Snapshot(cfg, s, scope, authorized, now).1;
    HistoryEvidence(stored, k);
    MergeKeepsEvidence(History(stored), live, authorized, k);
  }

  /** Every entry stands at the place of its event, and no two at the same place. */
  ghost predicate Placed(d: seq<Entry>) {
    && (forall i :: 0 <= i < |d| ==> d[i].place == PlaceOf(d[i].event))
    && (forall i, j :: 0 <= i < j < |d| ==> d[i].place != d[j].place)
  }

  lemma {:induction false} UpsertPlaces(d: seq<Entry>, e: Event)
    requires Placed(d)
    ensures Placed(Upsert(d, PlaceOf(e), e))
    ensures forall x :: x in Upsert(d, PlaceOf(e), e) ==> x.place == PlaceOf(e) || x in d
    decreases |d|
  {
    if d != [] && d[0].place != PlaceOf(e) {
      UpsertPlaces(d[1..], e);
      var rest := Upsert(d[1..], PlaceOf(e), e);
      forall x | x in rest ensures x.place != d[0].place {
        if x in d[1..] {
          var i :| 0 < i < |d| && d[i] == x;
        }
      }
    }
  }

  lemma {:induction false} HistoryPlaces(events: seq<Event>)
    ensures Placed(History(events))
    decreases |events|
  {
    if events != [] {
      HistoryPlaces(events[..|events| - 1]);
      UpsertPlaces(History(events[..|events| - 1]), events[|events| - 1]);
    }
  }

  lemma {:induction false} MergedPlaces(d: seq<Entry>, events: seq<Event>, authorized: string -> bool)
    requires Placed(d)
    ensures Placed(Merged(d, events, authorized))
    decreases |events|
  {
    if events != [] {
      MergedPlaces(d, events[..|events| - 1], authorized);
      UpsertPlaces(Merged(d, events[..|events| - 1], authorized), events[|events| - 1]);
    }
  }

  lemma {:induction false} LookupPlaced(d: seq<Entry>, i: nat)
    requires Placed(d) && i < |d|
    ensures Lookup(d, d[i].place) == Some(d[i].event)
    decreases |d|
  {
    if i > 0 {
      assert d[0].place != d[i].place;
      assert d[1..][i - 1] == d[i];
      LookupPlaced(d[1..], i - 1);
    }
  }

  /** The tasks of a snapshot: the merged rows, at most the last of them, and no more than fit. */
  function Tasks(stored: seq<Event>, live: seq<Event>, authorized: string -> bool, size: seq<Event> -> nat): seq<Event> {
    Trimmed(Last(Events(Merged(History(stored), live, authorized)), MAX_ROWS), size)
  }

  /** A task in the snapshot that is not terminal has no terminal evidence, stored and shown or live. */
  lemma TasksAreNotDowngraded(cfg: Config, s: Store, scope: Scope, authorized: string -> bool, now: real, live: seq<Event>,
                              size: seq<Event> -> nat, e: Event)
    requires Inv(cfg, s)
    requires e in Tasks(Snapshot(cfg, s, scope, authorized, now).1, live, authorized, size) && !IsTerminal(e.payload)
    ensures !Evidence(Snapshot(cfg, s, scope, authorized, now).1, PlaceOf(e), _ => true)
    ensures !Evidence(live, PlaceOf(e), authorized)
  {
    var stored := Snapshot(cfg, s, scope, authorized, now).1;
    TaskIsMerged(stored, live, authorized, size, e);
    SnapshotKeepsTerminal(cfg, s, scope, authorized, now, live, PlaceOf(e));
  }

  /** A task of a snapshot is what the merge has at its place. */
  lemma TaskIsMerged(stored: seq<Event>, live: seq<Event>, authorized: string -> bool, size: seq<Event> -> nat, e: Event)
    requires e in Tasks(stored, live, authorized, size)
    ensures Lookup(Merged(History(stored), live, authorized), PlaceOf(e)) == Some(e)
  {
    var d := Merged(History(stored), live, authorized);
    HistoryPlaces(stored);
    MergedPlaces(History(stored), live, authorized);
    assert e in Events(d);
    var i :| 0 <= i < |d| && Events(d)[i] == e;
    LookupPlaced(d, i);
  }

  /** History shows only unexpired rows of the scope and of authorized profiles. */
  lemma SnapshotShows(cfg: Config, s: Store, scope: Scope, authorized: string -> bool, now: real, e: Event)
    requires Inv(cfg, s) && e in Snapshot(cfg, s, scope, authorized, now).1
    ensures exists r :: r in s.rows && r.expires > now && Shows(r, scope, authorized) && e == Historical(r.event)
  {
    PruneKeeps(cfg, s, now);
    var p := Prune(cfg, s, now);
    var r := ShownFrom(p.rows, scope, authorized, e);
    UnexpiredAreFresh(s.rows, now);
    LastEvicts(Unexpired(s.rows, now), cfg.maxRows);
  }

  lemma {:induction false} UnexpiredAreFresh(rows: seq<Row>, now: real)
    ensures forall r :: r in Unexpired(rows, now) ==> r.expires > now
    decreases |rows|
  {
    if rows != [] {
      UnexpiredAreFresh(rows[1..], now);
    }
  }

  // ------------------------------------------------------------ live observation

  /** A task observed live, under its runtime session and child. */
  datatype Task = Task(runtime: string, child: Child, event: Event)

  /** A request to create or resume a session that waits for its reply. */
  datatype Asked = Asked(rid: string, profile: string)

  /** Tasks in the order of their latest event, proven bindings and pending requests in the order they came. */
  datatype Projection = Projection(tasks: seq<Task>, bindings: seq<Binding>, pending: seq<Asked>, revision: nat, truncated: bool)

  const Fresh := Projection([], [], [], 0, false)

  /** What the surroundings give one put: its clock readings and whether the write succeeds. */
  datatype Io = Io(now: Clocks, writes: bool)

  /** What a reply tells of a session. */
  datatype Session = Session(reported: Option<string>, runtime: Option<string>, durable: Option<string>)

  function Overlaid(previous: Payload, payload: Payload): Payload {
    previous + (map k | k in payload && payload[k] != Text("") :: payload[k])
  }

  /** Laying a new payload over an earlier one of the same child leaves the child the same. */
  lemma OverlaidKeepsChild(a: Payload, b: Payload)
    requires ChildKey(a) == ChildKey(b) && ChildKey(b).Some?
    ensures ChildKey(Overlaid(a, b)) == ChildKey(b)
  {
  }

  function FindTask(tasks: seq<Task>, runtime: string, child: Child): (r: Option<Task>)
    ensures r.Some? ==> r.value in tasks && r.value.runtime == runtime && r.value.child == child
    ensures r.None? ==> forall t :: t in tasks ==> t.runtime != runtime || t.child != child
  {
    if tasks == [] then None
    else if tasks[0].runtime == runtime && tasks[0].child == child then Some(tasks[0])
    else FindTask(tasks[1..], runtime, child)
  }

  function DropTask(tasks: seq<Task>, runtime: string, child: Child): (r: seq<Task>)
    ensures forall t :: t in r <==> t in tasks && !(t.runtime == runtime && t.child == child)
    ensures (forall t :: t in tasks ==> t.runtime != runtime || t.child != child) ==> r == tasks
    ensures |r| <= |tasks| && ((exists t :: t in tasks && t.runtime == runtime && t.child == child) ==> |r| < |tasks|)
  {
    if tasks == [] then []
    else (if tasks[0].runtime == runtime && tasks[0].child == child then [] else [tasks[0]])
         + DropTask(tasks[1..], runtime, child)
  }

  /** The newest task goes to the end; beyond the cap the oldest are dropped. */
  function Shelved(p: Projection, t: Task): Projection {
    var tasks := DropTask(p.tasks, t.runtime, t.child) + [t];
    p.(tasks := Last(tasks, MAX_ROWS), truncated := p.truncated || |tasks| > MAX_ROWS)
  }

  function BindingOf(bindings: seq<Binding>, runtime: string): (r: Option<Binding>)
    ensures r.Some? ==> r.value in bindings && r.value.runtime == runtime
  {
    if bindings == [] then None
    else if bindings[0].runtime == runtime then Some(bindings[0])
    else BindingOf(bindings[1..], runtime)
  }

  /** Assignment under the runtime session: in place if it is there, at the end if not. */
  function Bound(bindings: seq<Binding>, b: Binding): (r: seq<Binding>) {
    if bindings == [] then [b]
    else if bindings[0].runtime == b.runtime then [b] + bindings[1..]
    else [bindings[0]] + Bound(bindings[1..], b)
  }

  function Awaiting(pending: seq<Asked>, a: Asked): (r: seq<Asked>) {
    if pending == [] then [a]
    else if pending[0].rid == a.rid then [a] + pending[1..]
    else [pending[0]] + Awaiting(pending[1..], a)
  }

  function ProfileAsked(pending: seq<Asked>, rid: string): (r: Option<string>) {
    if pending == [] then None
    else if pending[0].rid == rid then Some(pending[0].profile)
    else ProfileAsked(pending[1..], rid)
  }

  function Answered(pending: seq<Asked>, rid: string): (r: seq<Asked>)
    ensures |r| <= |pending| && forall a :: a in r ==> a in pending
  {
    if pending == [] then []
    else if pending[0].rid == rid then pending[1..]
    else [pending[0]] + Answered(pending[1..], rid)
  }

  /** A request names the profile its session will run under. */
  function Requested(p: Projection, rid: string, profile: string, authorized: string -> bool): Projection {
    if !IsIdentifier(profile) || !authorized(profile) then p
    else
      var pending := Awaiting(p.pending, Asked(rid, profile));
      p.(pending := Last(pending, MAX_ROWS), truncated := p.truncated || |pending| > MAX_ROWS)
  }

  /**
   * The event with the binding of its session, if that is proven and its profile authorized, and as
   * the store hands it back. False means that the store could not be written and the call raises.
   */
  function Persisted(cfg: Config, bindings: seq<Binding>, authorized: string -> bool, s: Store, scope: Scope, e: Event, io: Io)
    : (Event, Store, bool)
  {
    var b := BindingOf(bindings, e.runtime);
    if b.None? || !authorized(b.value.profile) then (e, s, true)
    else
      var f := e.(binding := b);
      match Put(cfg, s, scope, f, io.now, io.writes)
      case (t, Some(out)) => (out, t, true)
      case (t, None) => (f, t, false)
  }

  function Seen(previous: Option<Task>, runtime: string, kind: string, payload: Payload, revision: nat): Event {
    Event(runtime, kind, Overlaid(if previous.Some? then previous.value.event.payload else map[], payload), revision, None)
  }

  /** An event is stored, if its session is bound, and becomes the latest of its child. */
  function Recorded(cfg: Config, q: Projection, authorized: string -> bool, s: Store, scope: Scope, child: Child, e: Event, io: Io)
    : (Projection, Store, bool)
  {
    match Persisted(cfg, q.bindings, authorized, s, scope, e, io)
    case (out, t, ok) => (if ok then Shelved(q, Task(e.runtime, child, out)) else q, t, ok)
  }

  /** A child event observed on a runtime session; identities that are too long are only noted. */
  function Observed(cfg: Config, p: Projection, authorized: string -> bool, s: Store, scope: Scope,
                    runtime: string, kind: string, payload: Payload, oversized: bool, io: Io): (Projection, Store, bool)
  {
    var child := ChildKey(payload);
    if oversized then (p.(truncated := true), s, true)
    else if child.None? then (p, s, true)
    else
      var previous := FindTask(p.tasks, runtime, child.value);
      if previous.Some? && IsTerminal(previous.value.event.payload) then (p, s, true)
      else
        var q := p.(revision := p.revision + 1);
        Recorded(cfg, q, authorized, s, scope, child.value, Seen(previous, runtime, kind, payload, q.revision), io)
  }

  /** Store again the tasks of a session, from a position on; the first write that fails ends the loop. */
  function Repersisted(cfg: Config, p: Projection, authorized: string -> bool, s: Store, scope: Scope, runtime: string,
                       i: nat, io: nat -> Io): (r: (Projection, Store, bool))
    decreases |p.tasks| - i
  {
    if i >= |p.tasks| then (p, s, true)
    else if p.tasks[i].runtime != runtime then Repersisted(cfg, p, authorized, s, scope, runtime, i + 1, io)
    else
      var (e, t, ok) := Persisted(cfg, p.bindings, authorized, s, scope, p.tasks[i].event, io(i));
      var q := p.(tasks := p.tasks[i := p.tasks[i].(event := e)]);
      if ok then Repersisted(cfg, q, authorized, t, scope, runtime, i + 1, io) else (q, t, false)
  }

  function Learned(p: Projection, b: Binding): Projection {
    var bindings := Bound(p.bindings, b);
    p.(bindings := Last(bindings, MAX_ROWS), truncated := p.truncated || |bindings| > MAX_ROWS)
  }

  /** A reply proves the binding of a session that was asked for; tasks seen before it are stored now. */
  function Replied(cfg: Config, p: Projection, authorized: string -> bool, s: Store, scope: Scope,
                   rid: string, result: Option<Session>, io: nat -> Io): (Projection, Store, bool)
  {
    var profile := ProfileAsked(p.pending, rid);
    var q := p.(pending := Answered(p.pending, rid));
    if profile.None? || result.None? then (q, s, true)
    else if result.value.reported.Some? && result.value.reported != profile then (q.(truncated := true), s, true)
    else if !Proves(result.value) || !authorized(profile.value) then (q, s, true)
    else
      var runtime := result.value.runtime.value;
      Repersisted(cfg, Learned(q, Binding(runtime, result.value.durable.value, profile.value, true)), authorized, s, scope, runtime, 0, io)
  }

  predicate Proves(r: Session) {
    r.runtime.Some? && r.durable.Some? && IsIdentifier(r.runtime.value) && IsIdentifier(r.durable.value)
  }

  // --------------------------------------------------------- runs of a projection

  datatype LiveOp =
    | Ask(rid: string, profile: string, authorized: string -> bool)
    | Reply(rid: string, result: Option<Session>, authorized: string -> bool, ios: nat -> Io)
    | See(runtime: string, kind: string, payload: Payload, oversized: bool, authorized: string -> bool, io: Io)
    | Elsewhere(op: Op)

  /** A projection and the store that it shares with others. */
  datatype Watch = Watch(p: Projection, s: Store)

  function LiveStep(cfg: Config, scope: Scope, w: Watch, op: LiveOp): (Watch, bool) {
    match op
    case Ask(rid, profile, authorized) => (w.(p := Requested(w.p, rid, profile, authorized)), true)
    case Reply(rid, result, authorized, ios) =>
      var (p, s, ok) := Replied(cfg, w.p, authorized, w.s, scope, rid, result, ios); (Watch(p, s), ok)
    case See(runtime, kind, payload, oversized, authorized, io) =>
      var (p, s, ok) := Observed(cfg, w.p, authorized, w.s, scope, runtime, kind, payload, oversized, io); (Watch(p, s), ok)
    case Elsewhere(o) => (w.(s := Step(cfg, w.s, o)), true)
  }

  function Watcher(cfg: Config, scope: Scope): (Watch, LiveOp) -> (Watch, bool) {
    (w, op) => LiveStep(cfg, scope, w, op)
  }

  // ------------------------------------------------------ tasks stay few and sound

  ghost predicate TaskSound(t: Task) {
    t.event.runtime == t.runtime && ChildKey(t.event.payload) == Some(t.child)
  }

  ghost predicate Different(a: Task, b: Task) {
    a.runtime != b.runtime || a.child != b.child
  }

  ghost predicate DistinctTasks(tasks: seq<Task>) {
    forall i, j :: 0 <= i < j < |tasks| ==> Different(tasks[i], tasks[j])
  }

  ghost predicate ProjectionInv(p: Projection) {
    && |p.tasks| <= MAX_ROWS && (forall t :: t in p.tasks ==> TaskSound(t)) && DistinctTasks(p.tasks)
    && |p.bindings| <= MAX_ROWS && |p.pending| <= MAX_ROWS
  }

  lemma {:induction false} DropTaskDistinct(tasks: seq<Task>, runtime: string, child: Child)
    requires DistinctTasks(tasks)
    ensures DistinctTasks(DropTask(tasks, runtime, child))
    decreases |tasks|
  {
    if tasks != [] {
      DropTaskDistinct(tasks[1..], runtime, child);
      var rest := DropTask(tasks[1..], runtime, child);
      forall t | t in rest ensures Different(tasks[0], t) {
        var i :| 0 < i < |tasks| && tasks[i] == t;
        assert Different(tasks[0], tasks[i]);
      }
      ConsDistinct(tasks[0], rest);
    }
  }

  lemma ConsDistinct(t: Task, tasks: seq<Task>)
    requires DistinctTasks(tasks) && forall x :: x in tasks ==> Different(t, x)
    ensures DistinctTasks([t] + tasks)
  {
  }

  lemma SnocDistinct(tasks: seq<Task>, t: Task)
    requires DistinctTasks(tasks) && forall x :: x in tasks ==> Different(x, t)
    ensures DistinctTasks(tasks + [t])
  {
  }

  lemma ShelvedKeeps(p: Projection, t: Task)
    requires ProjectionInv(p) && TaskSound(t)
    ensures ProjectionInv(Shelved(p, t))
  {
    DropTaskDistinct(p.tasks, t.runtime, t.child);
    SnocDistinct(DropTask(p.tasks, t.runtime, t.child), t);
    var tasks := DropTask(p.tasks, t.runtime, t.child) + [t];
    assert DistinctTasks(Last(tasks, MAX_ROWS));
  }

  lemma PutKeepsChild(cfg: Config, s: Store, scope: Scope, e: Event, now: Clocks, writes: bool)
    requires Inv(cfg, s) && e.binding.Some?
    ensures var out := Put(cfg, s, scope, e, now, writes).1;
            out.Some? ==>
              ChildKey(out.value.payload) == ChildKey(e.payload) && out.value.runtime == e.runtime && out.value.binding == e.binding
  {
    PruneKeeps(cfg, s, now.first);
    var p := Prune(cfg, s, now.first);
    assert forall r :: r in p.rows ==> Filed(r);
  }

  lemma PersistedKeeps(cfg: Config, bindings: seq<Binding>, authorized: string -> bool, s: Store, scope: Scope, e: Event, io: Io)
    requires Inv(cfg, s)
    ensures var (out, t, ok) := Persisted(cfg, bindings, authorized, s, scope, e, io);
            Inv(cfg, t) && out.runtime == e.runtime && ChildKey(out.payload) == ChildKey(e.payload)
  {
    var b := BindingOf(bindings, e.runtime);
    if b.Some? {
      var f := e.(binding := b);
      StepKeeps(cfg, s, PutOp(scope, f, io.now, io.writes));
      PutKeepsChild(cfg, s, scope, f, io.now, io.writes);
    }
  }

  lemma OverlaidAlone(payload: Payload)
    requires ChildKey(payload).Some?
    ensures ChildKey(Overlaid(map[], payload)) == ChildKey(payload)
  {
  }

  lemma SeenIsSound(p: Projection, runtime: string, kind: string, payload: Payload, revision: nat)
    requires ProjectionInv(p) && ChildKey(payload).Some?
    ensures var child := ChildKey(payload).value;
            TaskSound(Task(runtime, child, Seen(FindTask(p.tasks, runtime, child), runtime, kind, payload, revision)))
  {
    var previous := FindTask(p.tasks, runtime, ChildKey(payload).value);
    if previous.Some? {
      assert TaskSound(previous.value);
      OverlaidKeepsChild(previous.value.event.payload, payload);
    } else {
      OverlaidAlone(payload);
    }
  }

  lemma RecordedKeeps(cfg: Config, q: Projection, authorized: string -> bool, s: Store, scope: Scope, child: Child, e: Event, io: Io)
    requires ProjectionInv(q) && Inv(cfg, s) && TaskSound(Task(e.runtime, child, e))
    ensures var r := Recorded(cfg, q, authorized, s, scope, child, e, io); ProjectionInv(r.0) && Inv(cfg, r.1)
  {
    PersistedKeeps(cfg, q.bindings, authorized, s, scope, e, io);
    var out := Persisted(cfg, q.bindings, authorized, s, scope, e, io).0;
    ShelvedKeeps(q, Task(e.runtime, child, out));
  }

  /** Observing keeps the tasks distinct and few, each filed under the child that its payload names. */
  lemma ObservedKeeps(cfg: Config, p: Projection, authorized: string -> bool, s: Store, scope: Scope,
                      runtime: string, kind: string, payload: Payload, oversized: bool, io: Io)
    requires ProjectionInv(p) && Inv(cfg, s)
    ensures var r := Observed(cfg, p, authorized, s, scope, runtime, kind, payload, oversized, io); ProjectionInv(r.0) && Inv(cfg, r.1)
  {
    var child := ChildKey(payload);
    if child.Some? {
      var q := p.(revision := p.revision + 1);
      SeenIsSound(p, runtime, kind, payload, q.revision);
      RecordedKeeps(cfg, q, authorized, s, scope, child.value,
        Seen(FindTask(p.tasks, runtime, child.value), runtime, kind, payload, q.revision), io);
      ObservedVia(cfg, p, authorized, s, scope, runtime, kind, payload, oversized, io,
                  (r: (Projection, Store, bool)) => ProjectionInv(r.0) && Inv(cfg, r.1));
    }
  }

  /** Whatever holds of the state before and of a recorded event holds after an observation. */
  lemma ObservedVia(cfg: Config, p: Projection, authorized: string -> bool, s: Store, scope: Scope,
                    runtime: string, kind: string, payload: Payload, oversized: bool, io: Io, inv: ((Projection, Store, bool)) -> bool)
    requires ChildKey(payload).Some? && inv((p, s, true)) && inv((p.(truncated := true), s, true))
    requires var child := ChildKey(payload).value;
             var q := p.(revision := p.revision + 1);
             inv(Recorded(cfg, q, authorized, s, scope, child,
               Seen(FindTask(p.tasks, runtime, child), runtime, kind, payload, q.revision), io))
    ensures inv(Observed(cfg, p, authorized, s, scope, runtime, kind, payload, oversized, io))
  {
  }

  lemma SetTaskKeeps(p: Projection, i: nat, e: Event)
    requires ProjectionInv(p) && i < |p.tasks| && TaskSound(p.tasks[i].(event := e))
    ensures ProjectionInv(p.(tasks := p.tasks[i := p.tasks[i].(event := e)]))
  {
    var tasks := p.tasks[i := p.tasks[i].(event := e)];
    forall j, k | 0 <= j < k < |tasks|
      ensures Different(tasks[j], tasks[k])
    {
      assert Different(p.tasks[j], p.tasks[k]);
    }
  }

  lemma {:induction false} RepersistedKeeps(cfg: Config, p: Projection, authorized: string -> bool, s: Store, scope: Scope,
                                            runtime: string, i: nat, io: nat -> Io)
    requires ProjectionInv(p) && Inv(cfg, s)
    ensures var r := Repersisted(cfg, p, authorized, s, scope, runtime, i, io); ProjectionInv(r.0) && Inv(cfg, r.1)
    decreases |p.tasks| - i
  {
    if i < |p.tasks| {
      if p.tasks[i].runtime != runtime {
        RepersistedKeeps(cfg, p, authorized, s, scope, runtime, i + 1, io);
      } else {
        assert TaskSound(p.tasks[i]);
        PersistedKeeps(cfg, p.bindings, authorized, s, scope, p.tasks[i].event, io(i));
        var (e, t, ok) := Persisted(cfg, p.bindings, authorized, s, scope, p.tasks[i].event, io(i));
        SetTaskKeeps(p, i, e);
        RepersistedKeeps(cfg, p.(tasks := p.tasks[i := p.tasks[i].(event := e)]), authorized, t, scope, runtime, i + 1, io);
      }
    }
  }

  lemma RepliedKeeps(cfg: Config, p: Projection, authorized: string -> bool, s: Store, scope: Scope,
                     rid: string, result: Option<Session>, io: nat -> Io)
    requires ProjectionInv(p) && Inv(cfg, s)
    ensures var r := Replied(cfg, p, authorized, s, scope, rid, result, io); ProjectionInv(r.0) && Inv(cfg, r.1)
  {
    var profile := ProfileAsked(p.pending, rid);
    if profile.Some? && result.Some? && Proves(result.value) {
      var runtime := result.value.runtime.value;
      var q := Learned(p.(pending := Answered(p.pending, rid)), Binding(runtime, result.value.durable.value, profile.value, true));
      RepersistedKeeps(cfg, q, authorized, s, scope, runtime, 0, io);
    }
  }

  lemma LiveStepKeeps(cfg: Config, scope: Scope, w: Watch, op: LiveOp)
    requires ProjectionInv(w.p) && Inv(cfg, w.s)
    ensures var v := LiveStep(cfg, scope, w, op).0; ProjectionInv(v.p) && Inv(cfg, v.s)
  {
    match op
    case Ask(_, _, _) =>
    case Reply(rid, result, authorized, ios) => RepliedKeeps(cfg, w.p, authorized, w.s, scope, rid, result, ios);
    case See(runtime, kind, payload, oversized, authorized, io) =>
      ObservedKeeps(cfg, w.p, authorized, w.s, scope, runtime, kind, payload, oversized, io);
    case Elsewhere(o) => StepKeeps(cfg, w.s, o);
  }

  /**
   * In every run, whatever others do with the store, tasks stay distinct, few and filed by their child,
   * and the store sound.
   */
  lemma EveryLiveRunKeeps(cfg: Config, scope: Scope, ops: seq<LiveOp>)
    ensures var w := Run(Watcher(cfg, scope), Watch(Fresh, Empty), ops).0; ProjectionInv(w.p) && Inv(cfg, w.s)
  {
    var inv := (w: Watch) => ProjectionInv(w.p) && Inv(cfg, w.s);
    forall w, op | inv(w)
      ensures inv(Watcher(cfg, scope)(w, op).0)
    {
      LiveStepKeeps(cfg, scope, w, op);
    }
    RunInvariant(Watcher(cfg, scope), inv, Watch(Fresh, Empty), ops);
  }

  // --------------------------------------------------- when a terminal task changes

  predicate SaysSame(a: Event, b: Event) {
    a.payload == b.payload && a.kind == b.kind
  }

  /** The store remembers, under a key, a terminal event that says the same. */
  ghost predicate Remembered(s: Store, key: Key, e: Event) {
    exists r :: r in s.rows && r.key == key && IsTerminal(r.event.payload) && SaysSame(r.event, e)
  }

  /** Two events of one task say the same, or the later one says what the store remembered as terminal. */
  ghost predicate Revised(s: Store, scope: Scope, a: Task, b: Task) {
    && b.runtime == a.runtime && b.child == a.child
    && (SaysSame(b.event, a.event) || (b.event.binding.Some? && Remembered(s, KeyOf(scope, b.event), b.event)))
  }

  lemma RevisedStaysTerminal(s: Store, scope: Scope, a: Task, b: Task)
    requires Revised(s, scope, a, b) && IsTerminal(a.event.payload)
    ensures IsTerminal(b.event.payload)
  {
  }

  /**
   * What one put tells its caller: the stored terminal payload, or its own; a failed one changes nothing
   * but the binding.
   */
  lemma PersistedRevises(cfg: Config, bindings: seq<Binding>, authorized: string -> bool, s: Store, scope: Scope, x: Task, io: Io)
    requires Inv(cfg, s) && TaskSound(x)
    ensures Revised(s, scope, x, x.(event := Persisted(cfg, bindings, authorized, s, scope, x.event, io).0))
  {
    var b := BindingOf(bindings, x.event.runtime);
    if b.Some? && authorized(b.value.profile) {
      var f := x.event.(binding := b);
      var key := KeyOf(scope, f);
      PruneKeeps(cfg, s, io.now.first);
      var prior := Find(Prune(cfg, s, io.now.first).rows, key);
      if prior.Some? && IsTerminal(prior.value.event.payload) {
        PutKeepsChild(cfg, s, scope, f, io.now, io.writes);
        assert prior.value in s.rows && prior.value.key == key;
      }
    }
  }

  /** A put adds at most a row of its own child: every other row of the store after it was there before. */
  lemma PersistedAddsOwn(cfg: Config, bindings: seq<Binding>, authorized: string -> bool, s: Store, scope: Scope, e: Event, io: Io, r: Row)
    requires Inv(cfg, s) && r in Persisted(cfg, bindings, authorized, s, scope, e, io).1.rows && r !in s.rows
    ensures r.key.child == ChildKey(e.payload) && r.key.scope == scope
  {
    var b := BindingOf(bindings, e.runtime);
    var f := e.(binding := b);
    PruneKeeps(cfg, s, io.now.first);
    var p := Prune(cfg, s, io.now.first);
    InsertedAddsOwn(cfg, p, KeyOf(scope, f), f, io.now, r);
  }

  lemma InsertedAddsOwn(cfg: Config, s: Store, key: Key, e: Event, now: Clocks, r: Row)
    ensures r in Inserted(cfg, s, key, e, now).rows ==> r in s.rows || r.key == key
  {
    var rows := Without(s.rows, key) + [Row(key, now.expiry + cfg.ttl, e.(revision := s.revision + 1))];
    var t := s.(rows := rows, revision := s.revision + 1);
    WithoutIsPart(s.rows, key);
    ShrinkSubset(cfg, Prune(cfg, t, now.last), r);
    PruneSubset(cfg, t, now.last, r);
  }

  lemma PruneSubset(cfg: Config, s: Store, now: real, r: Row)
    ensures r in Prune(cfg, s, now).rows ==> r in s.rows
  {
    UnexpiredIsPart(s.rows, now);
  }

  lemma {:induction false} ShrinkSubset(cfg: Config, s: Store, r: Row)
    ensures r in Shrink(cfg, s).rows ==> r in s.rows
    decreases |s.rows|
  {
    if cfg.size(s) > MAX_STORE_BYTES && s.rows != [] {
      ShrinkSubset(cfg, s.(rows := s.rows[1..], truncated := true), r);
    }
  }

  /** Storing the tasks of a session again revises each of them by what the store held at the start. */
  lemma {:induction false} RepersistedRevises(cfg: Config, p: Projection, authorized: string -> bool, s0: Store, s: Store, scope: Scope,
                                              runtime: string, i: nat, io: nat -> Io, j: nat)
    requires ProjectionInv(p) && Inv(cfg, s) && j < |p.tasks|
    requires forall r :: r in s.rows && r !in s0.rows ==>
        exists k :: 0 <= k < i && k < |p.tasks| && p.tasks[k].runtime == runtime && r.key.child == Some(p.tasks[k].child)
    ensures var q := Repersisted(cfg, p, authorized, s, scope, runtime, i, io).0;
            && |q.tasks| == |p.tasks|
            && (if j < i || p.tasks[j].runtime != runtime then q.tasks[j] == p.tasks[j] else Revised(s0, scope, p.tasks[j], q.tasks[j]))
    decreases |p.tasks| - i
  {
    if i < |p.tasks| {
      if p.tasks[i].runtime != runtime {
        RepersistedRevises(cfg, p, authorized, s0, s, scope, runtime, i + 1, io, j);
      } else {
        var x := p.tasks[i];
        assert TaskSound(x);
        var (e, t, ok) := Persisted(cfg, p.bindings, authorized, s, scope, x.event, io(i));
        PersistedKeeps(cfg, p.bindings, authorized, s, scope, x.event, io(i));
        PersistedRevises(cfg, p.bindings, authorized, s, scope, x, io(i));
        RememberedEarlier(p, s0, s, scope, runtime, i, e);
        var q := p.(tasks := p.tasks[i := x.(event := e)]);
        SetTaskKeeps(p, i, e);
        if ok {
          forall r | r in t.rows && r !in s0.rows
            ensures exists k :: 0 <= k < i + 1 && k < |q.tasks| && q.tasks[k].runtime == runtime && r.key.child == Some(q.tasks[k].child)
          {
            if r in s.rows {
              var k :| 0 <= k < i && k < |p.tasks| && p.tasks[k].runtime == runtime && r.key.child == Some(p.tasks[k].child);
              assert q.tasks[k] == p.tasks[k];
            } else {
              PersistedAddsOwn(cfg, p.bindings, authorized, s, scope, x.event, io(i), r);
              assert q.tasks[i].runtime == runtime && r.key.child == Some(q.tasks[i].child);
            }
          }
          RepersistedRevises(cfg, q, authorized, s0, t, scope, runtime, i + 1, io, j);
        }
      }
    }
  }

  /** Rows added for earlier tasks of the session belong to other children, so what is remembered was so at the start. */
  lemma RememberedEarlier(p: Projection, s0: Store, s: Store, scope: Scope, runtime: string, i: nat, e: Event)
    requires ProjectionInv(p) && i < |p.tasks| && p.tasks[i].runtime == runtime && ChildKey(e.payload) == Some(p.tasks[i].child)
    requires forall r :: r in s.rows && r !in s0.rows ==>
        exists k :: 0 <= k < i && k < |p.tasks| && p.tasks[k].runtime == runtime && r.key.child == Some(p.tasks[k].child)
    ensures e.binding.Some? && Remembered(s, KeyOf(scope, e), e) ==> Remembered(s0, KeyOf(scope, e), e)
  {
    if e.binding.Some? && Remembered(s, KeyOf(scope, e), e) {
      var r :| r in s.rows && r.key == KeyOf(scope, e) && IsTerminal(r.event.payload) && SaysSame(r.event, e);
      assert forall k :: 0 <= k < i ==> Different(p.tasks[k], p.tasks[i]);
    }
  }

  /** A reply keeps every task in its place and revises those of the session it binds. */
  lemma ReplyRevises(cfg: Config, p: Projection, authorized: string -> bool, s: Store, scope: Scope,
                     rid: string, result: Option<Session>, io: nat -> Io, j: nat)
    requires ProjectionInv(p) && Inv(cfg, s) && j < |p.tasks|
    ensures var q := Replied(cfg, p, authorized, s, scope, rid, result, io).0;
            && |q.tasks| == |p.tasks| && Revised(s, scope, p.tasks[j], q.tasks[j])
            && (q.tasks[j] != p.tasks[j] ==> result.Some? && result.value.runtime == Some(p.tasks[j].runtime))
  {
    var profile := ProfileAsked(p.pending, rid);
    if profile.Some? && result.Some? && Proves(result.value) {
      var runtime := result.value.runtime.value;
      var q := Learned(p.(pending := Answered(p.pending, rid)), Binding(runtime, result.value.durable.value, profile.value, true));
      RepersistedRevises(cfg, q, authorized, s, s, scope, runtime, 0, io, j);
    }
  }

  // ------------------------------------------------ exactly when a reply changes a task

  /** When a put looks, the store holds under the key of the event a terminal event that says something else. */
  ghost predicate Overrules(cfg: Config, s: Store, scope: Scope, e: Event, now: real)
    requires e.binding.Some?
  {
    exists r :: r in Prune(cfg, s, now).rows && r.key == KeyOf(scope, e) && IsTerminal(r.event.payload) && !SaysSame(r.event, e)
  }

  lemma PersistedChangesIff(cfg: Config, bindings: seq<Binding>, authorized: string -> bool, s: Store, scope: Scope, e: Event, io: Io)
    requires Inv(cfg, s) && BindingOf(bindings, e.runtime).Some? && authorized(BindingOf(bindings, e.runtime).value.profile)
    ensures var f := e.(binding := BindingOf(bindings, e.runtime));
            !SaysSame(Persisted(cfg, bindings, authorized, s, scope, e, io).0, e) <==> Overrules(cfg, s, scope, f, io.now.first)
  {
    var f := e.(binding := BindingOf(bindings, e.runtime));
    var rows := Prune(cfg, s, io.now.first).rows;
    PruneKeeps(cfg, s, io.now.first);
    forall r | r in rows && r.key == KeyOf(scope, f)
      ensures Find(rows, r.key) == Some(r)
    {
      SameRow(rows, r, Find(rows, r.key).value);
    }
  }

  /**
   * The store as it is when storing the tasks of a session, from a position on, comes to task j; None if
   * a write has failed before.
   */
  function Reaching(cfg: Config, p: Projection, authorized: string -> bool, s: Store, scope: Scope, runtime: string,
                    i: nat, io: nat -> Io, j: nat): (r: Option<Store>)
    requires j <= |p.tasks|
    decreases j - i
  {
    if i >= j then Some(s)
    else if p.tasks[i].runtime != runtime then Reaching(cfg, p, authorized, s, scope, runtime, i + 1, io, j)
    else
      var (_, t, ok) := Persisted(cfg, p.bindings, authorized, s, scope, p.tasks[i].event, io(i));
      if ok then Reaching(cfg, p, authorized, t, scope, runtime, i + 1, io, j) else None
  }

  /** What the loop has written into earlier tasks has no bearing on the store that it comes to task j with. */
  lemma {:induction false} ReachingAgrees(cfg: Config, p: Projection, q: Projection, authorized: string -> bool, s: Store, scope: Scope,
                                          runtime: string, i: nat, io: nat -> Io, j: nat)
    requires |p.tasks| == |q.tasks| && j <= |p.tasks| && p.bindings == q.bindings
    requires forall k {:trigger p.tasks[k]} {:trigger q.tasks[k]} :: i <= k < |p.tasks| ==> p.tasks[k] == q.tasks[k]
    ensures Reaching(cfg, p, authorized, s, scope, runtime, i, io, j) == Reaching(cfg, q, authorized, s, scope, runtime, i, io, j)
    decreases j - i
  {
    if i < j {
      assert p.tasks[i] == q.tasks[i];
      if p.tasks[i].runtime != runtime {
        ReachingAgrees(cfg, p, q, authorized, s, scope, runtime, i + 1, io, j);
      } else {
        var (_, t, _) := Persisted(cfg, p.bindings, authorized, s, scope, p.tasks[i].event, io(i));
        ReachingAgrees(cfg, p, q, authorized, t, scope, runtime, i + 1, io, j);
      }
    }
  }

  /** The loop comes to task j and finds there a terminal event of its child that says something else. */
  ghost predicate OverrulesAt(cfg: Config, reached: Option<Store>, scope: Scope, e: Event, now: real)
    requires e.binding.Some?
  {
    reached.Some? && Overrules(cfg, reached.value, scope, e, now)
  }

  lemma {:induction false} RepersistedChangesIff(cfg: Config, p: Projection, authorized: string -> bool, s: Store, scope: Scope,
                                                 runtime: string, i: nat, io: nat -> Io, j: nat)
    requires ProjectionInv(p) && Inv(cfg, s) && i <= j < |p.tasks| && p.tasks[j].runtime == runtime
    requires BindingOf(p.bindings, runtime).Some? && authorized(BindingOf(p.bindings, runtime).value.profile)
    ensures var q := Repersisted(cfg, p, authorized, s, scope, runtime, i, io).0;
            var e := p.tasks[j].event;
            j < |q.tasks| &&
            (!SaysSame(q.tasks[j].event, e) <==>
               OverrulesAt(cfg, Reaching(cfg, p, authorized, s, scope, runtime, i, io, j), scope,
                           e.(binding := BindingOf(p.bindings, runtime)), io(j).now.first))
    decreases |p.tasks| - i
  {
    var x := p.tasks[i];
    if x.runtime != runtime {
      RepersistedChangesIff(cfg, p, authorized, s, scope, runtime, i + 1, io, j);
    } else {
      assert TaskSound(x);
      var (e, t, ok) := Persisted(cfg, p.bindings, authorized, s, scope, x.event, io(i));
      var q := p.(tasks := p.tasks[i := x.(event := e)]);
      PersistedKeeps(cfg, p.bindings, authorized, s, scope, x.event, io(i));
      SetTaskKeeps(p, i, e);
      if i == j {
        PersistedChangesIff(cfg, p.bindings, authorized, s, scope, x.event, io(i));
        RepersistedRevises(cfg, q, authorized, t, t, scope, runtime, i + 1, io, j);
      } else if ok {
        RepersistedChangesIff(cfg, q, authorized, t, scope, runtime, i + 1, io, j);
        ReachingAgrees(cfg, p, q, authorized, t, scope, runtime, i + 1, io, j);
      }
    }
  }

  lemma {:induction false} BoundIs(bindings: seq<Binding>, b: Binding)
    ensures BindingOf(Bound(bindings, b), b.runtime) == Some(b)
    ensures |Bound(bindings, b)| == |bindings| || (Bound(bindings, b) == bindings + [b] && BindingOf(bindings, b.runtime).None?)
  {
    if bindings != [] && bindings[0].runtime != b.runtime {
      BoundIs(bindings[1..], b);
    }
  }

  lemma {:induction false} UnboundTail(bindings: seq<Binding>, b: Binding)
    requires BindingOf(bindings, b.runtime).None?
    ensures BindingOf(bindings + [b], b.runtime) == Some(b)
  {
    if bindings == [] {
      assert bindings + [b] == [b];
    } else {
      assert (bindings + [b])[1..] == bindings[1..] + [b];
      UnboundTail(bindings[1..], b);
    }
  }

  lemma LearnedIsBound(p: Projection, b: Binding)
    requires |p.bindings| <= MAX_ROWS
    ensures BindingOf(Learned(p, b).bindings, b.runtime) == Some(b)
  {
    BoundIs(p.bindings, b);
    var bindings := Bound(p.bindings, b);
    if |bindings| > MAX_ROWS {
      assert Last(bindings, MAX_ROWS) == p.bindings[1..] + [b];
      UnboundTail(p.bindings[1..], b);
    }
  }

  /** What a reply binds, if it binds anything. */
  function NewBinding(p: Projection, authorized: string -> bool, rid: string, result: Option<Session>): (b: Option<Binding>) {
    var profile := ProfileAsked(p.pending, rid);
    if profile.None? || result.None? || (result.value.reported.Some? && result.value.reported != profile)
       || !Proves(result.value) || !authorized(profile.value) then None
    else Some(Binding(result.value.runtime.value, result.value.durable.value, profile.value, true))
  }

  /** The projection with which a reply that binds b starts to store the tasks of the session. */
  function Bindings(p: Projection, rid: string, b: Binding): Projection {
    Learned(p.(pending := Answered(p.pending, rid)), b)
  }

  /**
   * Whether a reply meets, for task j, what overrules it: the reply binds the session of the task;
   * no write for an earlier task of the session fails; and the store, as the writes for those tasks
   * have left it, and pruned at the time of the put for task j, holds under the newly proven key a
   * terminal event that says something else.
   */
  ghost predicate MeetsOverruling(cfg: Config, p: Projection, authorized: string -> bool, s: Store, scope: Scope,
                                  rid: string, result: Option<Session>, io: nat -> Io, j: nat)
    requires j < |p.tasks|
  {
    var b := NewBinding(p, authorized, rid, result);
    && b.Some? && b.value.runtime == p.tasks[j].runtime
    && OverrulesAt(cfg, Reaching(cfg, Bindings(p, rid, b.value), authorized, s, scope, b.value.runtime, 0, io, j), scope,
                   p.tasks[j].event.(binding := b), io(j).now.first)
  }

  /**
   * Every reply, whatever its writes, the clock and the sizes do: task j changes what it says if and
   * only if it is overruled.
   */
  lemma ReplyChangesIff(cfg: Config, p: Projection, authorized: string -> bool, s: Store, scope: Scope,
                        rid: string, result: Option<Session>, io: nat -> Io, j: nat)
    requires ProjectionInv(p) && Inv(cfg, s) && j < |p.tasks|
    ensures var q := Replied(cfg, p, authorized, s, scope, rid, result, io).0;
            j < |q.tasks| &&
            (!SaysSame(q.tasks[j].event, p.tasks[j].event) <==> MeetsOverruling(cfg, p, authorized, s, scope, rid, result, io, j))
  {
    var b := NewBinding(p, authorized, rid, result);
    if b.Some? {
      var p1 := Bindings(p, rid, b.value);
      LearnedIsBound(p.(pending := Answered(p.pending, rid)), b.value);
      if b.value.runtime == p.tasks[j].runtime {
        RepersistedChangesIff(cfg, p1, authorized, s, scope, b.value.runtime, 0, io, j);
      } else {
        RepersistedRevises(cfg, p1, authorized, s, s, scope, b.value.runtime, 0, io, j);
      }
    }
  }

  /** For the first task of its session the store is simply the one before the reply. */
  lemma FirstTaskChangesIff(cfg: Config, p: Projection, authorized: string -> bool, s: Store, scope: Scope,
                            rid: string, result: Option<Session>, io: nat -> Io, j: nat)
    requires ProjectionInv(p) && Inv(cfg, s) && j < |p.tasks| && forall k :: 0 <= k < j ==> p.tasks[k].runtime != p.tasks[j].runtime
    ensures var q := Replied(cfg, p, authorized, s, scope, rid, result, io).0;
            var b := NewBinding(p, authorized, rid, result);
            j < |q.tasks| &&
            (!SaysSame(q.tasks[j].event, p.tasks[j].event) <==>
               b.Some? && b.value.runtime == p.tasks[j].runtime
               && Overrules(cfg, s, scope, p.tasks[j].event.(binding := b), io(j).now.first))
  {
    ReplyChangesIff(cfg, p, authorized, s, scope, rid, result, io, j);
    var b := NewBinding(p, authorized, rid, result);
    if b.Some? && b.value.runtime == p.tasks[j].runtime {
      NothingBefore(cfg, Bindings(p, rid, b.value), authorized, s, scope, b.value.runtime, 0, io, j);
    }
  }

  lemma {:induction false} NothingBefore(cfg: Config, p: Projection, authorized: string -> bool, s: Store, scope: Scope,
                                         runtime: string, i: nat, io: nat -> Io, j: nat)
    requires i <= j <= |p.tasks| && forall k :: i <= k < j ==> p.tasks[k].runtime != runtime
    ensures Reaching(cfg, p, authorized, s, scope, runtime, i, io, j) == Some(s)
    decreases j - i
  {
    if i < j {
      NothingBefore(cfg, p, authorized, s, scope, runtime, i + 1, io, j);
    }
  }

  // --------------------------------------------------------- terminal tasks over runs

  /** The projection has a terminal task of this child. */
  ghost predicate Ended(p: Projection, runtime: string, child: Child) {
    exists j :: 0 <= j < |p.tasks| && p.tasks[j].runtime == runtime && p.tasks[j].child == child && IsTerminal(p.tasks[j].event.payload)
  }

  /** A new child is observed while the list is full and this one is its oldest. */
  predicate Displaces(p: Projection, op: LiveOp, runtime: string, child: Child) {
    && op.See? && |p.tasks| == MAX_ROWS && p.tasks[0].runtime == runtime && p.tasks[0].child == child
    && !op.oversized && ChildKey(op.payload).Some? && FindTask(p.tasks, op.runtime, ChildKey(op.payload).value).None?
  }

  /** An observation leaves a terminal task as it is, unless it is the oldest of a full list and a new child is recorded. */
  lemma SeeKeepsTerminalIff(cfg: Config, p: Projection, authorized: string -> bool, s: Store, scope: Scope,
                            runtime: string, kind: string, payload: Payload, oversized: bool, io: Io, j: nat)
    requires ProjectionInv(p) && j < |p.tasks| && IsTerminal(p.tasks[j].event.payload)
    ensures var (q, t, ok) := Observed(cfg, p, authorized, s, scope, runtime, kind, payload, oversized, io);
            p.tasks[j] in q.tasks <==>
              !(ok && Displaces(p, See(runtime, kind, payload, oversized, authorized, io), p.tasks[j].runtime, p.tasks[j].child))
  {
    var child := ChildKey(payload);
    if !oversized && child.Some? {
      var previous := FindTask(p.tasks, runtime, child.value);
      if previous.None? || !IsTerminal(previous.value.event.payload) {
        TerminalIsOther(p, j, runtime, child.value);
        RecordedKeepsIff(cfg, p.(revision := p.revision + 1), authorized, s, scope, child.value,
                         Seen(previous, runtime, kind, payload, p.revision + 1), io, j);
        ObservedRecords(cfg, p, authorized, s, scope, runtime, kind, payload, io);
      }
    }
  }

  /** A terminal task is not the one that an observation goes on with. */
  lemma TerminalIsOther(p: Projection, j: nat, runtime: string, child: Child)
    requires ProjectionInv(p) && j < |p.tasks| && IsTerminal(p.tasks[j].event.payload)
    requires var t := FindTask(p.tasks, runtime, child); t.None? || !IsTerminal(t.value.event.payload)
    ensures p.tasks[j].runtime != runtime || p.tasks[j].child != child
  {
    var t := FindTask(p.tasks, runtime, child);
    if t.Some? {
      var k :| 0 <= k < |p.tasks| && p.tasks[k] == t.value;
      assert k != j ==> Different(p.tasks[if k < j then k else j], p.tasks[if k < j then j else k]);
    }
  }

  lemma ObservedRecords(cfg: Config, p: Projection, authorized: string -> bool, s: Store, scope: Scope,
                        runtime: string, kind: string, payload: Payload, io: Io)
    requires ChildKey(payload).Some?
    requires var t := FindTask(p.tasks, runtime, ChildKey(payload).value); t.None? || !IsTerminal(t.value.event.payload)
    ensures var child := ChildKey(payload).value;
            Observed(cfg, p, authorized, s, scope, runtime, kind, payload, false, io) ==
            Recorded(cfg, p.(revision := p.revision + 1), authorized, s, scope, child,
                     Seen(FindTask(p.tasks, runtime, child), runtime, kind, payload, p.revision + 1), io)
  {
  }

  lemma RecordedKeepsIff(cfg: Config, p: Projection, authorized: string -> bool, s: Store, scope: Scope,
                         child: Child, e: Event, io: Io, j: nat)
    requires ProjectionInv(p) && j < |p.tasks| && (p.tasks[j].runtime != e.runtime || p.tasks[j].child != child)
    ensures var r := Recorded(cfg, p, authorized, s, scope, child, e, io);
            p.tasks[j] in r.0.tasks <==>
              !(r.2 && |p.tasks| == MAX_ROWS && j == 0 && FindTask(p.tasks, e.runtime, child).None?)
  {
    var out := Persisted(cfg, p.bindings, authorized, s, scope, e, io).0;
    ShelvedKeepsIff(p, Task(e.runtime, child, out), j);
  }

  lemma ShelvedKeepsIff(p: Projection, t: Task, j: nat)
    requires ProjectionInv(p) && j < |p.tasks| && Different(p.tasks[j], t)
    ensures p.tasks[j] in Shelved(p, t).tasks <==>
              !(|p.tasks| == MAX_ROWS && j == 0 && FindTask(p.tasks, t.runtime, t.child).None?)
  {
    var kept := DropTask(p.tasks, t.runtime, t.child);
    var x := p.tasks[j];
    if FindTask(p.tasks, t.runtime, t.child).None? {
      assert kept == p.tasks;
      var tasks := p.tasks + [t];
      if |p.tasks| == MAX_ROWS {
        var last := Last(tasks, MAX_ROWS);
        if j > 0 {
          assert last[j - 1] == x;
        } else {
          forall k | 0 <= k < |last| ensures last[k] != x {
            assert last[k] == tasks[k + 1];
            assert k + 1 < |p.tasks| ==> Different(p.tasks[0], p.tasks[k + 1]);
          }
        }
      } else {
        assert tasks[j] == x;
      }
    } else {
      assert |kept| < |p.tasks| && x in kept;
      assert Last(kept + [t], MAX_ROWS) == kept + [t];
    }
  }

  /** A step leaves the terminal task of a child terminal, unless it displaces it as the oldest. */
  lemma LiveStepKeepsEnded(cfg: Config, scope: Scope, w: Watch, op: LiveOp, runtime: string, child: Child)
    requires ProjectionInv(w.p) && Inv(cfg, w.s) && Ended(w.p, runtime, child)
    ensures Ended(LiveStep(cfg, scope, w, op).0.p, runtime, child) || Displaces(w.p, op, runtime, child)
  {
    var j :| 0 <= j < |w.p.tasks| && w.p.tasks[j].runtime == runtime
        && w.p.tasks[j].child == child && IsTerminal(w.p.tasks[j].event.payload);
    var q := LiveStep(cfg, scope, w, op).0.p;
    match op
    case Ask(_, _, _) => assert q.tasks[j] == w.p.tasks[j];
    case Reply(rid, result, authorized, ios) =>
      ReplyRevises(cfg, w.p, authorized, w.s, scope, rid, result, ios, j);
      RevisedStaysTerminal(w.s, scope, w.p.tasks[j], q.tasks[j]);
    case See(r, kind, payload, oversized, authorized, io) =>
      SeeKeepsTerminalIff(cfg, w.p, authorized, w.s, scope, r, kind, payload, oversized, io, j);
      if w.p.tasks[j] in q.tasks {
        var k :| 0 <= k < |q.tasks| && q.tasks[k] == w.p.tasks[j];
      }
    case Elsewhere(_) =>
  }

  /** At some point of the run the child is the oldest of a full list and a new child is observed. */
  predicate Outlived(cfg: Config, scope: Scope, w: Watch, ops: seq<LiveOp>, runtime: string, child: Child)
    decreases |ops|
  {
    ops != [] && (Displaces(w.p, ops[0], runtime, child)
        || Outlived(cfg, scope, LiveStep(cfg, scope, w, ops[0]).0, ops[1..], runtime, child))
  }

  /** Over every run: a child once terminal stays terminal among the tasks, until 64 younger children have outlived it. */
  lemma {:induction false} TerminalTaskStays(cfg: Config, scope: Scope, w: Watch, ops: seq<LiveOp>, runtime: string, child: Child)
    requires ProjectionInv(w.p) && Inv(cfg, w.s) && Ended(w.p, runtime, child)
    ensures Ended(Run(Watcher(cfg, scope), w, ops).0.p, runtime, child) || Outlived(cfg, scope, w, ops, runtime, child)
    decreases |ops|
  {
    if ops != [] {
      LiveStepKeepsEnded(cfg, scope, w, ops[0], runtime, child);
      LiveStepKeeps(cfg, scope, w, ops[0]);
      if Ended(LiveStep(cfg, scope, w, ops[0]).0.p, runtime, child) {
        TerminalTaskStays(cfg, scope, LiveStep(cfg, scope, w, ops[0]).0, ops[1..], runtime, child);
      }
    }
  }

  // ------------------------------------------------------------- a concrete run

  /** A store that never lacks room, at a clock that stands still. */
  function Ample(): Config {
    Config(256, 10.0, (s: Store) => 0)
  }

  const Here := Scope("installation", "device", 0)
  const Quiet := Io(Clocks(0.0, 0.0, 0.0), true)
  const Failed: Payload := map["subagent_id" := Text("c"), "status" := Text("failed")]
  const Completed: Payload := map["subagent_id" := Text("c"), "status" := Text("completed")]
  const FirstRun := Binding("one", "durable", "profile", true)
  const SecondRun := Binding("two", "durable", "profile", true)
  const RowKey := Key(Here, "profile", "durable", Some(Subagent("c")))
  const FirstTask := Task("one", Subagent("c"), Event("one", "subagent.complete", Failed, 1, Some(FirstRun)))
  const SecondTask := Task("two", Subagent("c"), Event("two", "subagent.complete", Completed, 2, None))
  const Stored := Store([Row(RowKey, 10.0, FirstTask.event)], 1, false)

  /** A child fails on the first run of a session; a later run of it reports completion before its own reply. */
  function ChangeOps(): seq<LiveOp> {
    [Ask("1", "profile", Anyone()), Reply("1", Some(Session(None, Some("one"), Some("durable"))), Anyone(), Always()),
     See("one", "subagent.complete", Failed, false, Anyone(), Quiet),
     Ask("2", "profile", Anyone()), See("two", "subagent.complete", Completed, false, Anyone(), Quiet),
     Reply("2", Some(Session(None, Some("two"), Some("durable"))), Anyone(), Always())]
  }

  function Anyone(): string -> bool {
    (p: string) => true
  }

  function Always(): nat -> Io {
    (i: nat) => Quiet
  }

  predicate Goes(w: Watch, k: nat, v: Watch)
    requires k < 6
  {
    Watcher(Ample(), Here)(w, ChangeOps()[k]) == (v, true)
  }

  const Start := Watch(Fresh, Empty)
  const AskedOnce := Watch(Fresh.(pending := [Asked("1", "profile")]), Empty)
  const BoundOnce := Watch(Fresh.(bindings := [FirstRun]), Empty)
  const HasFailed := Watch(Projection([FirstTask], [FirstRun], [], 1, false), Stored)
  const AskedTwice := Watch(Projection([FirstTask], [FirstRun], [Asked("2", "profile")], 1, false), Stored)
  const HasCompleted := Watch(Projection([FirstTask, SecondTask], [FirstRun], [Asked("2", "profile")], 2, false), Stored)
  const Overruled := SecondTask.(event := SecondTask.event.(payload := Failed, revision := 1, binding := Some(SecondRun)))
  const Rewritten := Watch(Projection([FirstTask, Overruled],
                                      [FirstRun, SecondRun], [], 2, false), Stored)

  lemma ChildrenOfC()
    ensures ChildKey(Failed) == Some(Subagent("c")) && ChildKey(Completed) == Some(Subagent("c"))
    ensures IsTerminal(Failed) && IsTerminal(Completed) && Failed != Completed
    ensures Overlaid(map[], Failed) == Failed && Overlaid(map[], Completed) == Completed
  {
    assert |"c"| == 1 && |"failed"| == 6 && |"completed"| == 9;
    assert Failed["status"] != Completed["status"];
  }

  lemma FirstAsks()
    ensures Goes(Start, 0, AskedOnce) && Goes(HasFailed, 3, AskedTwice)
  {
    assert |"profile"| == 7;
    assert Requested(Fresh, "1", "profile", Anyone()) == AskedOnce.p;
    assert Requested(HasFailed.p, "2", "profile", Anyone()) == AskedTwice.p;
  }

  lemma FirstReply()
    ensures Goes(AskedOnce, 1, BoundOnce)
  {
    assert |"one"| == 3 && |"durable"| == 7;
    assert [Asked("1", "profile")][1..] == [];
  }

  lemma FailureIsStored()
    ensures Goes(BoundOnce, 2, HasFailed)
  {
    ChildrenOfC();
    var e := FirstTask.event;
    assert KeyOf(Here, e) == RowKey;
    assert Stored.rows[1..] == [];
    assert Unexpired(Stored.rows, 0.0) == Stored.rows;
    assert Prune(Ample(), Empty, 0.0) == Empty;
    assert Without([], RowKey) + [Row(RowKey, 10.0, e)] == Stored.rows;
    assert Put(Ample(), Empty, Here, e, Quiet.now, true) == (Stored, Some(e));
    assert DropTask([], "one", Subagent("c")) + [FirstTask] == [FirstTask];
  }

  lemma CompletionIsSeen()
    ensures Goes(AskedTwice, 4, HasCompleted)
  {
    ChildrenOfC();
    assert "one"[0] != "two"[0];
    assert [FirstTask][1..] == [] && [FirstRun][1..] == [];
    assert DropTask([FirstTask], "two", Subagent("c")) + [SecondTask] == [FirstTask, SecondTask];
  }

  lemma SecondIsPersisted()
    ensures Persisted(Ample(), [FirstRun, SecondRun], Anyone(), Stored, Here, SecondTask.event, Quiet) ==
              (Rewritten.p.tasks[1].event, Stored, true)
  {
    ChildrenOfC();
    assert "one"[0] != "two"[0];
    assert [FirstRun, SecondRun][1..] == [SecondRun];
    assert BindingOf([FirstRun, SecondRun], "two") == Some(SecondRun);
    var f := SecondTask.event.(binding := Some(SecondRun));
    assert KeyOf(Here, f) == RowKey;
    assert Stored.rows[1..] == [];
    assert Unexpired(Stored.rows, 0.0) == Stored.rows;
  }

  lemma TasksAreRepersisted(q: Projection)
    requires q == HasCompleted.p.(bindings := [FirstRun, SecondRun], pending := [])
    ensures Repersisted(Ample(), q, Anyone(), Stored, Here, "two", 0, Always()) == (Rewritten.p, Stored, true)
  {
    assert "one"[0] != "two"[0];
    SecondIsPersisted();
    assert Repersisted(Ample(), Rewritten.p, Anyone(), Stored, Here, "two", 2, Always()) == (Rewritten.p, Stored, true);
    assert q.(tasks := q.tasks[1 := q.tasks[1].(event := Rewritten.p.tasks[1].event)]) == Rewritten.p;
    assert Repersisted(Ample(), q, Anyone(), Stored, Here, "two", 1, Always()) == (Rewritten.p, Stored, true);
  }

  lemma ReplyRewrites()
    ensures Goes(HasCompleted, 5, Rewritten)
  {
    assert |"two"| == 3 && |"durable"| == 7 && "one"[0] != "two"[0];
    var q := HasCompleted.p.(bindings := [FirstRun, SecondRun], pending := []);
    assert [Asked("2", "profile")][1..] == [] && [FirstRun][1..] == [];
    assert Bound([FirstRun], SecondRun) == [FirstRun, SecondRun];
    assert Learned(HasCompleted.p.(pending := []), SecondRun) == q;
    TasksAreRepersisted(q);
  }

  /** A run from the start in which a task reported as completed says failed after the reply to its session. */
  lemma TerminalTaskIsChanged()
    ensures var before := Run(Watcher(Ample(), Here), Watch(Fresh, Empty), ChangeOps()[..5]).0.p;
            var after := Run(Watcher(Ample(), Here), Watch(Fresh, Empty), ChangeOps()).0.p;
            && |before.tasks| == |after.tasks| == 2 && before.tasks[1].runtime == after.tasks[1].runtime == "two"
            && before.tasks[1].event.payload == Completed && after.tasks[1].event.payload == Failed
  {
    FirstAsks();
    FirstReply();
    FailureIsStored();
    CompletionIsSeen();
    ReplyRewrites();
    RunOfSix(Watcher(Ample(), Here), ChangeOps(), [Start, AskedOnce, BoundOnce, HasFailed, AskedTwice, HasCompleted, Rewritten]);
  }

  lemma RunOfSix<S, I>(step: (S, I) -> (S, bool), ops: seq<I>, s: seq<S>)
    requires |ops| == 6 && |s| == 7
    requires step(s[0], ops[0]) == (s[1], true) && step(s[1], ops[1]) == (s[2], true) && step(s[2], ops[2]) == (s[3], true)
    requires step(s[3], ops[3]) == (s[4], true) && step(s[4], ops[4]) == (s[5], true) && step(s[5], ops[5]) == (s[6], true)
    ensures Run(step, s[0], ops[..5]).0 == s[5] && Run(step, s[0], ops).0 == s[6]
  {
    RunOfStates(step, ops, s, [true, true, true, true, true, true]);
    RunOfStates(step, ops[..5], s[..6], [true, true, true, true, true]);
  }
}
