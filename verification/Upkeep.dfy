/**
 * What the recovery store and the projection keep and show: a save gives up no more than it must, a
 * snapshot leaves out nothing it may show, a revocation leaves no row behind, and an observed child
 * is among the tasks.
 */
module Upkeep {
  import opened Common
  import opened Machine
  import opened Recovery

  // ------------------------------------------------------------------ saving

  /** The store with the rows from a position on. */
  function Rest(s: Store, rows: seq<Row>, k: nat): Store
    requires k <= |rows|
  {
    Store(rows[k..], s.revision, s.truncated || |rows| != |s.rows| || k > 0)
  }

  /** With the rows from this position on the store is over its cap or does not fit its file. */
  predicate Excess(cfg: Config, s: Store, rows: seq<Row>, k: nat)
    requires k <= |rows|
  {
    |rows| - k > cfg.maxRows || cfg.size(Rest(s, rows, k)) > MAX_STORE_BYTES
  }

  lemma {:induction false} ShrinkIs(cfg: Config, s: Store) returns (d: nat)
    ensures d <= |s.rows| && Shrink(cfg, s) == s.(rows := s.rows[d..], truncated := s.truncated || d > 0)
    ensures forall k :: 0 <= k < d ==> cfg.size(s.(rows := s.rows[k..], truncated := s.truncated || k > 0)) > MAX_STORE_BYTES
    ensures d < |s.rows| ==> cfg.size(Shrink(cfg, s)) <= MAX_STORE_BYTES
    decreases |s.rows|
  {
    assert s.rows[0..] == s.rows;
    if cfg.size(s) > MAX_STORE_BYTES && s.rows != [] {
      var m := s.(rows := s.rows[1..], truncated := true);
      var e := ShrinkIs(cfg, m);
      d := e + 1;
      assert m.rows[e..] == s.rows[d..];
      forall k | 0 <= k < d
        ensures cfg.size(s.(rows := s.rows[k..], truncated := s.truncated || k > 0)) > MAX_STORE_BYTES
      {
        if k > 0 {
          assert m.rows[k - 1..] == s.rows[k..];
        }
      }
    } else {
      d := 0;
    }
  }

  /**
   * A save keeps the unexpired rows from some position on: every row before that had to go, since
   * with it and what follows it the store was over its cap or did not fit; and there the store fits.
   */
  lemma SavedIsLongestRest(cfg: Config, s: Store, now: real) returns (d: nat)
    ensures var rows := Unexpired(s.rows, now);
            && d <= |rows| && Saving(cfg, s, now) == Rest(s, rows, d)
            && (forall k :: 0 <= k < d ==> Excess(cfg, s, rows, k))
            && (d < |rows| ==> !Excess(cfg, s, rows, d))
  {
    var rows := Unexpired(s.rows, now);
    var b := PrunedIsRest(cfg, s, now);
    var e := ShrinkIs(cfg, Prune(cfg, s, now));
    d := b + e;
    RestOfRest(s, rows, b, e);
    forall k | 0 <= k < d
      ensures Excess(cfg, s, rows, k)
    {
      if k >= b {
        RestOfRest(s, rows, b, k - b);
      }
    }
  }

  lemma PrunedIsRest(cfg: Config, s: Store, now: real) returns (b: nat)
    ensures var rows := Unexpired(s.rows, now);
            && b <= |rows| && Prune(cfg, s, now) == Rest(s, rows, b)
            && (b == 0 <==> |rows| <= cfg.maxRows) && (b > 0 ==> |rows| - b == cfg.maxRows)
  {
    var rows := Unexpired(s.rows, now);
    UnexpiredIsPart(s.rows, now);
    b := |rows| - |Prune(cfg, s, now).rows|;
    assert rows[0..] == rows;
  }

  lemma RestOfRest(s: Store, rows: seq<Row>, b: nat, k: nat)
    requires b + k <= |rows|
    ensures var p := Rest(s, rows, b);
            k <= |p.rows| && p.(rows := p.rows[k..], truncated := p.truncated || k > 0) == Rest(s, rows, b + k)
  {
    assert rows[b..][k..] == rows[b + k..];
  }

  lemma UnexpiredIs(rows: seq<Row>, now: real)
    ensures forall r :: r in Unexpired(rows, now) <==> r in rows && r.expires > now
  {
    UnexpiredIsPart(rows, now);
    UnexpiredAreFresh(rows, now);
  }

  /** The row that a put adds. */
  function Added(cfg: Config, s: Store, scope: Scope, e: Event, now: Clocks): Row
    requires e.binding.Some?
  {
    Row(KeyOf(scope, e), now.expiry + cfg.ttl, e.(revision := s.revision + 1))
  }

  /** The rows that a put wants to keep: the unexpired ones of other children, and the new one. */
  function Wanted(cfg: Config, s: Store, scope: Scope, e: Event, now: Clocks): seq<Row>
    requires e.binding.Some?
  {
    Unexpired(Without(Prune(cfg, s, now.first).rows, KeyOf(scope, e)) + [Added(cfg, s, scope, e, now)], now.last)
  }

  /**
   * A put that overrules nothing, has room for what it wants to keep, and is written, keeps it all:
   * every unexpired row of another child, and the new row of its own.
   */
  lemma PutKeepsAll(cfg: Config, s: Store, scope: Scope, e: Event, now: Clocks)
    requires Inv(cfg, s) && e.binding.Some? && Added(cfg, s, scope, e, now).expires > now.last
    requires forall r :: r in s.rows && r.expires > now.first && r.key == KeyOf(scope, e) ==> !IsTerminal(r.event.payload)
    requires var t := Put(cfg, s, scope, e, now, true).0;
             var rows := Wanted(cfg, s, scope, e, now);
             |rows| <= cfg.maxRows && forall u: Store {:trigger cfg.size(u)} :: u.rows == rows ==> cfg.size(u) <= MAX_STORE_BYTES
    ensures var (t, out) := Put(cfg, s, scope, e, now, true);
            && out == Some(e.(revision := s.revision + 1)) && t.revision == s.revision + 1
            && forall r :: r in t.rows <==>
                 r == Added(cfg, s, scope, e, now)
                 || (r in s.rows && r.expires > now.first && r.expires > now.last && r.key != KeyOf(scope, e))
  {
    var key := KeyOf(scope, e);
    var p := Prune(cfg, s, now.first);
    PrunedIs(cfg, s, now.first);
    NoPriorTerminal(p.rows, key);
    WantedIs(p.rows, key, Added(cfg, s, scope, e, now), now.last);
    var rows := Without(p.rows, key) + [Added(cfg, s, scope, e, now)];
    SavedWhole(cfg, p.(rows := rows, revision := p.revision + 1), now.last);
    assert Put(cfg, s, scope, e, now, true).0 == Inserted(cfg, p, key, e, now);
  }

  /** A store within its cap loses only expired rows when it is pruned. */
  lemma PrunedIs(cfg: Config, s: Store, now: real)
    requires Inv(cfg, s)
    ensures var p := Prune(cfg, s, now);
            p.revision == s.revision && forall r :: r in p.rows <==> r in s.rows && r.expires > now
  {
    PruneKeeps(cfg, s, now);
    UnexpiredIs(s.rows, now);
  }

  lemma WantedIs(rows: seq<Row>, key: Key, added: Row, now: real)
    requires added.expires > now
    ensures forall r :: r in Unexpired(Without(rows, key) + [added], now) <==> r == added || (r in rows && r.key != key && r.expires > now)
  {
    WithoutIsPart(rows, key);
    UnexpiredIs(Without(rows, key) + [added], now);
  }

  lemma SavedWhole(cfg: Config, s: Store, now: real)
    requires var rows := Unexpired(s.rows, now);
             |rows| <= cfg.maxRows && forall u: Store {:trigger cfg.size(u)} :: u.rows == rows ==> cfg.size(u) <= MAX_STORE_BYTES
    ensures Saving(cfg, s, now).rows == Unexpired(s.rows, now) && Saving(cfg, s, now).revision == s.revision
  {
    var rows := Unexpired(s.rows, now);
    var d := SavedIsLongestRest(cfg, s, now);
    assert Rest(s, rows, 0).rows == rows;
    assert !Excess(cfg, s, rows, 0);
  }

  lemma NoPriorTerminal(rows: seq<Row>, key: Key)
    requires forall r :: r in rows && r.key == key ==> !IsTerminal(r.event.payload)
    ensures Find(rows, key).Some? ==> !IsTerminal(Find(rows, key).value.event.payload)
  {
  }

  // ----------------------------------------------------------------- showing

  lemma {:induction false} AllAreShown(rows: seq<Row>, scope: Scope, authorized: string -> bool, r: Row)
    requires r in rows && Shows(r, scope, authorized)
    ensures Historical(r.event) in Shown(rows, scope, authorized)
    decreases |rows|
  {
    var n := |rows| - 1;
    assert rows == rows[..n] + [rows[n]];
    if r in rows[..n] {
      AllAreShown(rows[..n], scope, authorized, r);
    }
  }

  /**
   * In every run of the store: a snapshot that is not cut short shows a stored event if and only if
   * some unexpired row of the scope, of an authorized profile, holds it.
   */
  lemma ShownIff(cfg: Config, ops: seq<Op>, scope: Scope, authorized: string -> bool, now: real, e: Event)
    requires |Shown(Prune(cfg, After(cfg, Empty, ops), now).rows, scope, authorized)| <= MAX_ROWS
    ensures var s := After(cfg, Empty, ops);
            e in Snapshot(cfg, s, scope, authorized, now).1 <==>
              exists r :: r in s.rows && r.expires > now && Shows(r, scope, authorized) && e == Historical(r.event)
  {
    EveryRunKeeps(cfg, ops);
    var s := After(cfg, Empty, ops);
    PruneKeeps(cfg, s, now);
    if e in Snapshot(cfg, s, scope, authorized, now).1 {
      SnapshotShows(cfg, s, scope, authorized, now, e);
    }
    if r :| r in s.rows && r.expires > now && Shows(r, scope, authorized) && e == Historical(r.event) {
      AllAreShown(Prune(cfg, s, now).rows, scope, authorized, r);
    }
  }

  /** The tasks of a snapshot leave out only what did not fit: with one more from the front the list was too long. */
  lemma {:induction false} TrimmedIsLongest(tasks: seq<Event>, size: seq<Event> -> nat)
    ensures forall k :: 0 <= k < |tasks| - |Trimmed(tasks, size)| ==> size(tasks[k..]) > MAX_SNAPSHOT_BYTES
    decreases |tasks|
  {
    assert tasks[0..] == tasks;
    if size(tasks) > MAX_SNAPSHOT_BYTES && tasks != [] {
      TrimmedIsLongest(tasks[1..], size);
      forall k | 0 < k < |tasks| - |Trimmed(tasks, size)|
        ensures size(tasks[k..]) > MAX_SNAPSHOT_BYTES
      {
        assert tasks[1..][k - 1..] == tasks[k..];
      }
    }
  }

  /** An event that the merge may show at a place: allowed there, and terminal if any evidence for the place is. */
  ghost predicate Eligible(d: seq<Entry>, events: seq<Event>, authorized: string -> bool, k: Place, i: nat)
    requires i < |events|
  {
    && PlaceOf(events[i]) == k && Allowed(events[i], authorized)
    && (IsTerminal(events[i].payload) || !(TerminalAt(d, k) || Evidence(events, k, authorized)))
  }

  /**
   * The merge shows at each place the last eligible live event, or, if there is none (i is their number
   * then), what was stored.
   */
  lemma {:induction false} MergeShowsLast(d: seq<Entry>, events: seq<Event>, authorized: string -> bool, k: Place) returns (i: nat)
    ensures i <= |events| && Lookup(Merged(d, events, authorized), k) == if i < |events| then Some(events[i]) else Lookup(d, k)
    ensures i < |events| ==> Eligible(d, events, authorized, k, i)
    ensures forall j :: 0 <= j < |events| && (i < |events| ==> i < j) ==> !Eligible(d, events, authorized, k, j)
    decreases |events|
  {
    if events == [] {
      i := 0;
    } else {
      var n := |events| - 1;
      var init, e := events[..n], events[n];
      i := MergeShowsLast(d, init, authorized, k);
      LastIsAdded(d, events, authorized, k);
      if Eligible(d, events, authorized, k, n) {
        i := n;
      } else {
        forall j | 0 <= j < n
          ensures Eligible(d, events, authorized, k, j) <==> Eligible(d, init, authorized, k, j)
        {
          EligibleBefore(d, events, authorized, k, j);
        }
        if i == n {
          i := n + 1;
        }
      }
    }
  }

  lemma LastIsAdded(d: seq<Entry>, events: seq<Event>, authorized: string -> bool, k: Place)
    requires events != []
    ensures var n := |events| - 1;
            Lookup(Merged(d, events, authorized), k) ==
              if Eligible(d, events, authorized, k, n) then Some(events[n]) else Lookup(Merged(d, events[..n], authorized), k)
  {
    var n := |events| - 1;
    MergeKeepsEvidence(d, events[..n], authorized, k);
    EvidenceSnoc(events, k, authorized);
    LookupUpsert(Merged(d, events[..n], authorized), PlaceOf(events[n]), events[n], k);
  }

  /** An event that is not eligible itself changes nothing for those before it. */
  lemma EligibleBefore(d: seq<Entry>, events: seq<Event>, authorized: string -> bool, k: Place, i: nat)
    requires events != [] && i < |events| - 1 && !Eligible(d, events, authorized, k, |events| - 1)
    ensures Eligible(d, events, authorized, k, i) <==> Eligible(d, events[..|events| - 1], authorized, k, i)
  {
    EvidenceSnoc(events, k, authorized);
  }

  // ---------------------------------------------------------------- revoking

  /** The device of a stored row is the revoked one or one of its channels. */
  lemma OfDeviceIff(stored: string, device: string)
    ensures OfDevice(stored, device) <==> stored == device || exists channel: string :: stored == device + "/" + channel
  {
    var prefix := device + "/";
    if prefix <= stored {
      assert stored == prefix + stored[|prefix|..];
    }
    forall channel: string | stored == device + "/" + channel
      ensures prefix <= stored
    {
    }
  }

  /** A revocation leaves no row of the device or of its channels, and takes no other that is not expired or in excess. */
  lemma RevokedIff(cfg: Config, s: Store, installation: string, device: string, now: real) returns (d: nat)
    requires Orderly(s)
    ensures var t := Revoke(cfg, s, installation, device, now);
            var rows := Unexpired(Spared(s.rows, installation, device), now);
            && (forall r :: r in t.rows ==> !Revokes(r, installation, device))
            && (forall r :: r in rows <==> r in s.rows && r.expires > now && !Revokes(r, installation, device))
            && d <= |rows| && t.rows == rows[d..]
            && (forall k :: 0 <= k < d ==> Excess(cfg, s.(rows := Spared(s.rows, installation, device)), rows, k))
  {
    var m := s.(rows := Spared(s.rows, installation, device));
    SparedIsPart(s.rows, installation, device);
    UnexpiredIs(m.rows, now);
    d := SavedIsLongestRest(cfg, m, now);
  }

  // --------------------------------------------------------------- observing

  /**
   * A child event that is seen, of a child that is not terminal yet, whose store answers: the child
   * is the newest task, under the payload laid over what was known of it, or, in a bound session,
   * what the store holds as terminal for it.
   */
  lemma SeenIsTask(cfg: Config, p: Projection, authorized: string -> bool, s: Store, scope: Scope,
                   runtime: string, kind: string, payload: Payload, io: Io)
    requires ProjectionInv(p) && Inv(cfg, s) && ChildKey(payload).Some?
    requires var before := FindTask(p.tasks, runtime, ChildKey(payload).value);
             before.None? || !IsTerminal(before.value.event.payload)
    ensures var child := ChildKey(payload).value;
            var before := FindTask(p.tasks, runtime, child);
            var (q, t, ok) := Observed(cfg, p, authorized, s, scope, runtime, kind, payload, false, io);
            ok ==> |q.tasks| > 0 && var newest := q.tasks[|q.tasks| - 1];
                   && newest.runtime == runtime && newest.child == child
                   && (|| (newest.event.kind == kind
                           && LaidOver(if before.Some? then before.value.event.payload else map[], payload, newest.event.payload))
                       || Overruled(cfg, p, authorized, s, scope, runtime, ChildKey(payload), io, newest.event))
  {
    var child := ChildKey(payload).value;
    ObservedRecords(cfg, p, authorized, s, scope, runtime, kind, payload, io);
    var before := FindTask(p.tasks, runtime, child);
    var e := Seen(before, runtime, kind, payload, p.revision + 1);
    SeenIsSound(p, runtime, kind, payload, p.revision + 1);
    SeenLays(before, runtime, kind, payload, p.revision + 1);
    RecordedSays(cfg, p.(revision := p.revision + 1), authorized, s, scope, child, e, io);
  }

  lemma SeenLays(before: Option<Task>, runtime: string, kind: string, payload: Payload, revision: nat)
    ensures var e := Seen(before, runtime, kind, payload, revision);
            && e.runtime == runtime && e.kind == kind
            && LaidOver(if before.Some? then before.value.event.payload else map[], payload, e.payload)
  {
  }

  /** The session is bound, and what the task says is what the store holds as terminal for the child. */
  ghost predicate Overruled(cfg: Config, p: Projection, authorized: string -> bool, s: Store, scope: Scope,
                            runtime: string, child: Option<Child>, io: Io, out: Event) {
    var b := BindingOf(p.bindings, runtime);
    && b.Some? && authorized(b.value.profile)
    && exists r :: r in s.rows && r.key == Key(scope, b.value.profile, b.value.durable, child)
        && IsTerminal(r.event.payload) && SaysSame(r.event, out)
  }

  /** A payload laid over another: what it says that is not empty counts, and of the other what it does not say. */
  ghost predicate LaidOver(under: Payload, over: Payload, out: Payload) {
    forall k :: var says := k in over && over[k] != Text("");
                && (k in out <==> says || k in under)
                && (says ==> out[k] == over[k]) && (!says && k in under ==> out[k] == under[k])
  }

  lemma RecordedSays(cfg: Config, q: Projection, authorized: string -> bool, s: Store, scope: Scope, child: Child, e: Event, io: Io)
    requires Inv(cfg, s)
    ensures var r := Recorded(cfg, q, authorized, s, scope, child, e, io);
            r.2 ==> |r.0.tasks| > 0 && var newest := r.0.tasks[|r.0.tasks| - 1];
                    && newest.runtime == e.runtime && newest.child == child
                    && (SaysSame(newest.event, e)
                        || Overruled(cfg, q, authorized, s, scope, e.runtime, ChildKey(e.payload), io, newest.event))
  {
    var b := BindingOf(q.bindings, e.runtime);
    if b.Some? && authorized(b.value.profile) {
      var f := e.(binding := b);
      PruneKeeps(cfg, s, io.now.first);
      var prior := Find(Prune(cfg, s, io.now.first).rows, KeyOf(scope, f));
      assert prior.Some? ==> prior.value in s.rows;
    }
  }

  lemma {:induction false} AskedIsFound(pending: seq<Asked>, rid: string, profile: string)
    ensures ProfileAsked(Awaiting(pending, Asked(rid, profile)), rid) == Some(profile)
    ensures |Awaiting(pending, Asked(rid, profile))| <= |pending| + 1
  {
    if pending != [] && pending[0].rid != rid {
      AskedIsFound(pending[1..], rid, profile);
    }
  }

  /**
   * A request of an identified, authorized profile with room among those that wait: its reply finds the
   * profile, and binds.
   */
  lemma AskedThenBound(cfg: Config, p: Projection, s: Store, scope: Scope, rid: string, profile: string,
                       runtime: string, durable: string, authorized: string -> bool, io: nat -> Io)
    requires ProjectionInv(p) && Inv(cfg, s) && |p.pending| < MAX_ROWS
    requires IsIdentifier(profile) && authorized(profile) && IsIdentifier(runtime) && IsIdentifier(durable)
    ensures var q := Requested(p, rid, profile, authorized);
            var t := Replied(cfg, q, authorized, s, scope, rid, Some(Session(None, Some(runtime), Some(durable))), io).0;
            BindingOf(t.bindings, runtime) == Some(Binding(runtime, durable, profile, true))
  {
    AskedIsFound(p.pending, rid, profile);
    var q := Requested(p, rid, profile, authorized);
    var b := Binding(runtime, durable, profile, true);
    var q1 := q.(pending := Recovery.Answered(q.pending, rid));
    LearnedIsBound(q1, b);
    RepersistedBindings(cfg, Learned(q1, b), authorized, s, scope, runtime, 0, io);
  }

  lemma {:induction false} RepersistedBindings(cfg: Config, p: Projection, authorized: string -> bool, s: Store, scope: Scope,
                                               runtime: string, i: nat, io: nat -> Io)
    ensures Repersisted(cfg, p, authorized, s, scope, runtime, i, io).0.bindings == p.bindings
    decreases |p.tasks| - i
  {
    if i < |p.tasks| {
      if p.tasks[i].runtime != runtime {
        RepersistedBindings(cfg, p, authorized, s, scope, runtime, i + 1, io);
      } else {
        var (e, t, ok) := Persisted(cfg, p.bindings, authorized, s, scope, p.tasks[i].event, io(i));
        RepersistedBindings(cfg, p.(tasks := p.tasks[i := p.tasks[i].(event := e)]), authorized, t, scope, runtime, i + 1, io);
      }
    }
  }

  /**
   * A stored row as history shows it is not live, and unless it is terminal its status is unknown; all
   * else stands as stored.
   */
  lemma HistoricalIsUnknown(e: Event)
    ensures var x := Historical(e);
            && x.runtime == e.runtime && x.kind == e.kind && x.revision == e.revision
            && (e.binding.Some? ==>
                  x.binding == Some(Binding(e.binding.value.runtime, e.binding.value.durable, e.binding.value.profile, false)))
            && (if IsTerminal(e.payload) then x.payload == e.payload
                else x.payload.Keys == e.payload.Keys + {"status"} && x.payload["status"] == Text("unknown")
                     && forall k :: k in e.payload && k != "status" ==> x.payload[k] == e.payload[k])
  {
  }

  /**
   * A snapshot shows at most 64 stored events; one that does not say that it was cut short leaves out
   * nothing it may show.
   */
  lemma UncutShowsAll(cfg: Config, s: Store, scope: Scope, authorized: string -> bool, now: real, r: Row)
    requires Inv(cfg, s)
    ensures var (t, events, cut) := Snapshot(cfg, s, scope, authorized, now);
            && |events| <= 64
            && (!cut && r in s.rows && Shows(r, scope, authorized) ==> r.expires > now && Historical(r.event) in events)
            && (s.truncated ==> cut)
  {
    UnexpiredIsPart(s.rows, now);
    if !Snapshot(cfg, s, scope, authorized, now).2 && r in s.rows && Shows(r, scope, authorized) {
      AllUnexpired(s.rows, now);
      AllAreShown(Prune(cfg, s, now).rows, scope, authorized, r);
    }
  }

  lemma {:induction false} AllUnexpired(rows: seq<Row>, now: real)
    requires |Unexpired(rows, now)| == |rows|
    ensures Unexpired(rows, now) == rows && forall r :: r in rows ==> r.expires > now
    decreases |rows|
  {
    if rows != [] {
      UnexpiredIsPart(rows[1..], now);
      AllUnexpired(rows[1..], now);
      assert rows == [rows[0]] + rows[1..];
    }
  }

  /** An observation that makes room by giving up another child's task says that something was cut. */
  lemma DisplacingIsTold(cfg: Config, p: Projection, authorized: string -> bool, s: Store, scope: Scope,
                         runtime: string, kind: string, payload: Payload, oversized: bool, io: Io, x: Task)
    requires ProjectionInv(p) && x in p.tasks
    requires ChildKey(payload).None? || x.runtime != runtime || x.child != ChildKey(payload).value
    ensures var q := Observed(cfg, p, authorized, s, scope, runtime, kind, payload, oversized, io).0;
            (x !in q.tasks ==> q.truncated) && |q.tasks| <= 64 && (p.truncated ==> q.truncated)
  {
    if !oversized && ChildKey(payload).Some? {
      var child := ChildKey(payload).value;
      var before := FindTask(p.tasks, runtime, child);
      if before.None? || !IsTerminal(before.value.event.payload) {
        ObservedRecords(cfg, p, authorized, s, scope, runtime, kind, payload, io);
        RecordedTells(cfg, p.(revision := p.revision + 1), authorized, s, scope, child,
                      Seen(before, runtime, kind, payload, p.revision + 1), io, x);
      }
    }
  }

  lemma RecordedTells(cfg: Config, q: Projection, authorized: string -> bool,
    s: Store, scope: Scope, child: Child, e: Event, io: Io, x: Task)
    requires |q.tasks| <= MAX_ROWS && x in q.tasks && (x.runtime != e.runtime || x.child != child)
    ensures var r := Recorded(cfg, q, authorized, s, scope, child, e, io).0;
            (x !in r.tasks ==> r.truncated) && |r.tasks| <= 64 && (q.truncated ==> r.truncated)
  {
    var kept := DropTask(q.tasks, e.runtime, child);
    assert x in kept;
  }

  /** A request waits for its reply if and only if its profile is an identifier and authorized. */
  lemma WaitsIff(p: Projection, rid: string, profile: string, authorized: string -> bool)
    requires |p.pending| < MAX_ROWS
    ensures var q := Requested(p, rid, profile, authorized);
            if IsIdentifier(profile) && authorized(profile) then ProfileAsked(q.pending, rid) == Some(profile) else q == p
  {
    AskedIsFound(p.pending, rid, profile);
  }
}
