/**
 * What a lease keeps and hands over: exactly which frames are gone, exactly when a reattaching
 * client is told of a gap, exactly when a full queue severs it, and that whoever takes what is
 * queued gets all of it, in order.
 */
module Retention {
  import opened Common
  import opened Machine
  import opened SessionLease

  // --------------------------------------------------------- what one trim drops

  /** With everything behind it the frame at a position is over a cap, or it is too old. */
  predicate Overdue(l: Limits, es: seq<Event>, k: nat, now: real)
    requires k < |es|
  {
    |es| - k > l.maxEvents || Sizes(es[k..]) > l.maxBytes || now - es[k].at > l.maxAge
  }

  /** Whether a frame is overdue depends on it and on what comes after it only. */
  lemma OverdueInSuffix(l: Limits, es: seq<Event>, j: nat, k: nat, now: real)
    requires j + k < |es|
    ensures Overdue(l, es[j..], k, now) <==> Overdue(l, es, j + k, now)
  {
    assert es[j..][k..] == es[j + k..];
  }

  /** How many frames a trim drops. */
  function Drops(l: Limits, now: real, r: Ring): (d: int) {
    |r.events| - |Trimmed(l, now, r).0.events|
  }

  /** A trim drops frames from the old end. */
  lemma {:induction false} TrimIsSuffix(l: Limits, now: real, r: Ring)
    requires r.bytes == Sizes(r.events)
    ensures var (t, d) := (Trimmed(l, now, r).0, Drops(l, now, r));
            && 0 <= d <= |r.events| && t.events == r.events[d..] && t.bytes == Sizes(t.events)
            && t.trimmed == if d == 0 then r.trimmed else r.events[d - 1].num
    decreases |r.events|
  {
    if MustDrop(l, now, r) {
      TrimIsSuffix(l, now, DropOldest(r));
    }
  }

  /** It drops only overdue frames, and stops at the first that is not. */
  lemma {:induction false} TrimDropsOverdue(l: Limits, now: real, r: Ring, k: nat)
    requires r.bytes == Sizes(r.events) && k < |r.events|
    ensures k < Drops(l, now, r) ==> Overdue(l, r.events, k, now)
    ensures k == Drops(l, now, r) ==> !Overdue(l, r.events, k, now)
    decreases |r.events|
  {
    assert r.events[0..] == r.events;
    if MustDrop(l, now, r) {
      TrimIsSuffix(l, now, DropOldest(r));
      if k > 0 {
        TrimDropsOverdue(l, now, DropOldest(r), k - 1);
        OverdueInSuffix(l, r.events, 1, k - 1, now);
      }
    }
  }

  lemma {:induction false} SizesOfSuffix(es: seq<Event>, k: nat)
    requires k <= |es|
    ensures Sizes(es[k..]) <= Sizes(es)
    decreases k
  {
    if k == 0 {
      assert es[0..] == es;
    } else {
      assert es[1..][k - 1..] == es[k..];
      SizesOfSuffix(es[1..], k - 1);
    }
  }

  /** A trim reports an overflow exactly when it finds the ring over a cap. */
  lemma OverflowIff(l: Limits, now: real, r: Ring)
    requires r.bytes == Sizes(r.events)
    ensures Trimmed(l, now, r).1 <==> OverCap(l, r)
  {
    if OverCap(l, r) {
      assert r.events != [];
    } else {
      NoOverflow(l, now, r);
    }
  }

  lemma {:induction false} NoOverflow(l: Limits, now: real, r: Ring)
    requires r.bytes == Sizes(r.events) && !OverCap(l, r)
    ensures !Trimmed(l, now, r).1
    decreases |r.events|
  {
    if MustDrop(l, now, r) {
      NoOverflow(l, now, DropOldest(r));
    }
  }

  // -------------------------------------------------------------- watched runs

  /**
   * A lease with what its steps have shown: all frames retained, the clock reading of the last
   * trim, whether the clock has never gone back, and the frames that some trim found overdue.
   */
  datatype Watch = Watch(s: Lease, frames: seq<Event>, clock: Option<real>, steady: bool, found: set<nat>)

  /** The clock reading of a step that trims the ring. */
  function TrimTime(s: Lease, op: Op): Option<real> {
    match op
    case Retain(_, now) => Some(now)
    case Trim(now) => Some(now)
    case Attach(cursor, recovery, replace, now) => if Refuses(s, cursor, recovery && replace) then None else Some(now)
    case _ => None
  }

  /** When an attach is refused. */
  predicate Refuses(s: Lease, cursor: nat, mayReplace: bool) {
    s.released || cursor > MAX_CURSOR || cursor > s.lastSeq || (s.current.Some? && !mayReplace)
  }

  function FramesAfter(frames: seq<Event>, op: Op): seq<Event> {
    if op.Retain? then frames + [Event(|frames| + 1, op.text, Utf8Size(op.text), op.now)] else frames
  }

  /** The frame of a number is overdue. */
  predicate Due(l: Limits, frames: seq<Event>, n: nat, now: real) {
    0 < n <= |frames| && Overdue(l, frames, n - 1, now)
  }

  function OverdueNumbers(l: Limits, frames: seq<Event>, now: real): (r: set<nat>) {
    set n: nat | n <= |frames| && Due(l, frames, n, now)
  }

  function WatchStep(cfg: Config, w: Watch, op: Op): (Watch, Reply) {
    var (s, reply) := Step(cfg, w.s, op);
    var frames := FramesAfter(w.frames, op);
    match TrimTime(w.s, op)
    case None => (w.(s := s, frames := frames), reply)
    case Some(now) =>
      (Watch(s, frames, Some(now), w.steady && (w.clock.Some? ==> w.clock.value <= now),
             w.found + OverdueNumbers(cfg.limits, frames, now)), reply)
  }

  function Watcher(cfg: Config): (Watch, Op) -> (Watch, Reply) {
    (w, op) => WatchStep(cfg, w, op)
  }

  const Unwatched := Watch(Initial, [], None, true, {})

  /** Watching changes nothing. */
  lemma {:induction false} WatchedRun(cfg: Config, w: Watch, ops: seq<Op>)
    ensures Run(Watcher(cfg), w, ops).0.s == Run(Stepper(cfg), w.s, ops).0
    decreases |ops|
  {
    if ops != [] {
      WatchedRun(cfg, Watcher(cfg)(w, ops[0]).0, ops[1..]);
    }
  }

  ghost predicate InSequence(frames: seq<Event>) {
    forall i {:trigger frames[i]} :: 0 <= i < |frames| ==> frames[i].num == i + 1
  }

  /** The ring is the end of the frames. */
  ghost predicate Holds(r: Ring, frames: seq<Event>) {
    r.trimmed <= |frames| && r.events == frames[r.trimmed..] && r.bytes == Sizes(r.events)
  }

  /** Since a number only overdue frames went, and the first one left is not overdue. */
  ghost predicate TrimmedTo(l: Limits, before: nat, t: Ring, frames: seq<Event>, now: real) {
    && Holds(t, frames) && before <= t.trimmed
    && (forall n: nat {:trigger Due(l, frames, n, now)} :: before < n <= t.trimmed ==> Due(l, frames, n, now))
    && !Due(l, frames, t.trimmed + 1, now)
  }

  lemma DueInRing(l: Limits, now: real, r: Ring, frames: seq<Event>, n: nat)
    requires Holds(r, frames) && r.trimmed < n <= |frames|
    ensures n <= r.trimmed + Drops(l, now, r) ==> Due(l, frames, n, now)
    ensures n == r.trimmed + Drops(l, now, r) + 1 ==> !Due(l, frames, n, now)
  {
    TrimDropsOverdue(l, now, r, n - 1 - r.trimmed);
    OverdueInSuffix(l, frames, r.trimmed, n - 1 - r.trimmed, now);
  }

  lemma TrimHolds(l: Limits, now: real, r: Ring, frames: seq<Event>)
    requires InSequence(frames) && Holds(r, frames)
    ensures Holds(Trimmed(l, now, r).0, frames) && 0 <= Drops(l, now, r)
    ensures Trimmed(l, now, r).0.trimmed == r.trimmed + Drops(l, now, r)
  {
    TrimIsSuffix(l, now, r);
    var d := Drops(l, now, r);
    if d > 0 {
      assert r.events[d - 1] == frames[r.trimmed + d - 1];
    }
    assert frames[r.trimmed..][d..] == frames[r.trimmed + d..];
  }

  lemma TrimLinked(l: Limits, now: real, r: Ring, frames: seq<Event>)
    requires InSequence(frames) && Holds(r, frames)
    ensures TrimmedTo(l, r.trimmed, Trimmed(l, now, r).0, frames, now)
  {
    TrimHolds(l, now, r, frames);
    var d := Drops(l, now, r);
    forall n: nat | r.trimmed < n <= r.trimmed + d
      ensures Due(l, frames, n, now)
    {
      DueInRing(l, now, r, frames, n);
    }
    if r.trimmed + d < |frames| {
      DueInRing(l, now, r, frames, r.trimmed + d + 1);
    }
  }

  lemma AppendHolds(r: Ring, frames: seq<Event>, e: Event)
    requires Holds(r, frames)
    ensures Holds(Ring(r.events + [e], r.bytes + e.size, r.trimmed), frames + [e])
  {
    SizesAppend(r.events, e);
  }

  // ----------------------------------------------------------------- invariant

  /** In an unreleased lease exactly the frames that are overdue at the last trim are gone. */
  ghost predicate Exact(l: Limits, frames: seq<Event>, clock: Option<real>, trimmed: nat) {
    forall n: nat :: 0 < n <= |frames| ==> (n <= trimmed <==> OverdueAtTrim(l, frames, clock, n))
  }

  /** The frame was overdue at the last trim. */
  predicate OverdueAtTrim(l: Limits, frames: seq<Event>, clock: Option<real>, n: nat) {
    clock.Some? && Due(l, frames, n, clock.value)
  }

  /** Frames came in the order of their times, none after the last trim. */
  ghost predicate InTime(frames: seq<Event>, clock: Option<real>) {
    && (forall i, j :: 0 <= i <= j < |frames| ==> frames[i].at <= frames[j].at)
    && (forall i {:trigger frames[i]} :: 0 <= i < |frames| ==> clock.Some? && frames[i].at <= clock.value)
  }

  /** The frames are the history with numbers and sizes, and the ring is their end. */
  ghost predicate Linked(w: Watch) {
    && InSequence(w.frames) && |w.frames| == |w.s.history|
    && (forall i {:trigger w.frames[i]} :: 0 <= i < |w.frames| ==>
          w.frames[i].text == w.s.history[i] && w.frames[i].size == Utf8Size(w.s.history[i]))
    && (!w.s.released ==> w.s.lastSeq == |w.frames| && Holds(w.s.ring, w.frames))
  }

  ghost predicate Inv(l: Limits, w: Watch) {
    && Linked(w) && (w.steady ==> InTime(w.frames, w.clock))
    && (!w.s.released ==> forall n: nat :: 0 < n <= w.s.ring.trimmed ==> n in w.found)
    && (!w.s.released && w.steady ==> Exact(l, w.frames, w.clock, w.s.ring.trimmed))
  }

  /** A step that does not trim leaves ring and frames alone, unless it releases the lease. */
  lemma QuietStep(cfg: Config, w: Watch, op: Op)
    requires TrimTime(w.s, op).None?
    ensures var t := WatchStep(cfg, w, op).0;
            t.frames == w.frames && t.s.history == w.s.history
            && (t.s.released || (t.s.ring == w.s.ring && t.s.lastSeq == w.s.lastSeq && !w.s.released))
  {
  }

  lemma RetainedIs(cfg: Config, s: Lease, text: string, now: real)
    ensures var t := Retained(cfg, s, text, now);
            t.ring == Appended(cfg, s, text, now).0 && t.lastSeq == s.lastSeq + 1 && t.history == s.history + [text]
            && t.released == s.released
  {
  }

  lemma AppendTrims(l: Limits, now: real, r: Ring, frames: seq<Event>, e: Event)
    requires InSequence(frames) && Holds(r, frames) && e.num == |frames| + 1
    ensures TrimmedTo(l, r.trimmed, Trimmed(l, now, Ring(r.events + [e], r.bytes + e.size, r.trimmed)).0, frames + [e], now)
  {
    AppendHolds(r, frames, e);
    TrimLinked(l, now, Ring(r.events + [e], r.bytes + e.size, r.trimmed), frames + [e]);
  }

  lemma RetainTrims(cfg: Config, w: Watch, text: string, now: real)
    requires Linked(w) && !w.s.released
    ensures TrimmedTo(cfg.limits, w.s.ring.trimmed, Appended(cfg, w.s, text, now).0, FramesAfter(w.frames, Retain(text, now)), now)
  {
    AppendTrims(cfg.limits, now, w.s.ring, w.frames, Event(|w.frames| + 1, text, Utf8Size(text), now));
  }

  lemma TrimStep(cfg: Config, w: Watch, op: Op)
    requires Linked(w) && TrimTime(w.s, op).Some?
    ensures var t := WatchStep(cfg, w, op).0;
            && Linked(t) && t.s.released == w.s.released
            && (!t.s.released ==> TrimmedTo(cfg.limits, w.s.ring.trimmed, t.s.ring, t.frames, TrimTime(w.s, op).value))
  {
    match op
    case Retain(text, now) =>
      RetainedIs(cfg, w.s, text, now);
      if !w.s.released {
        RetainTrims(cfg, w, text, now);
      }
    case Trim(now) => if !w.s.released { TrimLinked(cfg.limits, now, w.s.ring, w.frames); }
    case Attach(_, _, _, now) => TrimLinked(cfg.limits, now, w.s.ring, w.frames);
    case _ =>
  }

  /** What was overdue stays overdue as frames are added and the clock goes on. */
  lemma DueStays(l: Limits, frames: seq<Event>, more: seq<Event>, n: nat, now: real, later: real)
    requires Due(l, frames, n, now) && frames <= more && now <= later
    ensures Due(l, more, n, later)
  {
    assert more[n - 1..][..|frames| - (n - 1)] == frames[n - 1..];
    SizesOfPrefix(more[n - 1..], |frames| - (n - 1));
  }

  lemma {:induction false} SizesOfPrefix(es: seq<Event>, k: nat)
    requires k <= |es|
    ensures Sizes(es[..k]) <= Sizes(es)
    decreases k
  {
    if k > 0 {
      assert es[..k][1..] == es[1..][..k - 1];
      SizesOfPrefix(es[1..], k - 1);
    }
  }

  /** A younger frame with less behind it is not overdue if an older one is not. */
  lemma YoungerIsNotDue(l: Limits, frames: seq<Event>, m: nat, n: nat, now: real)
    requires 0 < m <= n <= |frames| && frames[m - 1].at <= frames[n - 1].at && !Due(l, frames, m, now)
    ensures !Due(l, frames, n, now)
  {
    assert frames[m - 1..][n - m..] == frames[n - 1..];
    SizesOfSuffix(frames[m - 1..], n - m);
  }

  lemma ExactAfterTrim(cfg: Config, w: Watch, op: Op)
    requires Inv(cfg.limits, w) && TrimTime(w.s, op).Some?
    requires var t := WatchStep(cfg, w, op).0; t.steady && !t.s.released && InTime(t.frames, t.clock)
    ensures var t := WatchStep(cfg, w, op).0; Exact(cfg.limits, t.frames, t.clock, t.s.ring.trimmed)
  {
    var l, t := cfg.limits, WatchStep(cfg, w, op).0;
    var now := TrimTime(w.s, op).value;
    TrimStep(cfg, w, op);
    forall n: nat | 0 < n <= |t.frames|
      ensures n <= t.s.ring.trimmed <==> Due(l, t.frames, n, now)
    {
      if n <= w.s.ring.trimmed {
        assert OverdueAtTrim(l, w.frames, w.clock, n);
        DueStays(l, w.frames, t.frames, n, w.clock.value, now);
      } else if n > t.s.ring.trimmed {
        YoungerIsNotDue(l, t.frames, t.s.ring.trimmed + 1, n, now);
      }
    }
  }

  lemma TrimKeepsTime(cfg: Config, w: Watch, op: Op)
    requires Linked(w) && InTime(w.frames, w.clock) && TrimTime(w.s, op).Some? && WatchStep(cfg, w, op).0.steady
    ensures var t := WatchStep(cfg, w, op).0; InTime(t.frames, t.clock)
  {
  }

  lemma TrimFinds(cfg: Config, w: Watch, op: Op)
    requires Inv(cfg.limits, w) && TrimTime(w.s, op).Some? && !WatchStep(cfg, w, op).0.s.released
    ensures var t := WatchStep(cfg, w, op).0; forall n: nat :: 0 < n <= t.s.ring.trimmed ==> n in t.found
  {
    var t := WatchStep(cfg, w, op).0;
    var now := TrimTime(w.s, op).value;
    TrimStep(cfg, w, op);
    forall n: nat | 0 < n <= t.s.ring.trimmed
      ensures n in t.found
    {
      if n > w.s.ring.trimmed {
        assert Due(cfg.limits, t.frames, n, now);
      }
    }
  }

  lemma QuietKeeps(cfg: Config, w: Watch, op: Op)
    requires Inv(cfg.limits, w) && TrimTime(w.s, op).None?
    ensures Inv(cfg.limits, WatchStep(cfg, w, op).0)
  {
    var t := WatchStep(cfg, w, op).0;
    QuietStep(cfg, w, op);
    assert t == w.(s := t.s);
  }

  lemma StepKeeps(cfg: Config, w: Watch, op: Op)
    requires Inv(cfg.limits, w)
    ensures Inv(cfg.limits, WatchStep(cfg, w, op).0)
  {
    var t := WatchStep(cfg, w, op).0;
    if TrimTime(w.s, op).None? {
      QuietKeeps(cfg, w, op);
    } else {
      TrimStep(cfg, w, op);
      if t.steady {
        TrimKeepsTime(cfg, w, op);
      }
      if !t.s.released {
        TrimFinds(cfg, w, op);
        if t.steady {
          ExactAfterTrim(cfg, w, op);
        }
      }
    }
  }

  lemma EveryRunKeeps(cfg: Config, ops: seq<Op>)
    ensures Inv(cfg.limits, Run(Watcher(cfg), Unwatched, ops).0)
  {
    var inv := (w: Watch) => Inv(cfg.limits, w);
    forall w, op | inv(w)
      ensures inv(Watcher(cfg)(w, op).0)
    {
      StepKeeps(cfg, w, op);
    }
    RunInvariant(Watcher(cfg), inv, Unwatched, ops);
  }

  // ------------------------------------------------------------------ theorems

  /** In every run, whatever the clock does: a frame that is gone was found overdue by some trim. */
  lemma GoneWasOverdue(cfg: Config, ops: seq<Op>, n: nat)
    requires var s := Run(Stepper(cfg), Initial, ops).0; !s.released && 0 < n <= s.ring.trimmed
    ensures n in Run(Watcher(cfg), Unwatched, ops).0.found
  {
    WatchedRun(cfg, Unwatched, ops);
    EveryRunKeeps(cfg, ops);
  }

  /**
   * In every run with a clock that does not go back: a frame is gone if and only if, at the last
   * trim, it was older than the age limit or the frames from it to the newest were over a cap.
   */
  lemma GoneIffOverdue(cfg: Config, ops: seq<Op>, n: nat)
    requires var w := Run(Watcher(cfg), Unwatched, ops).0; w.steady && !w.s.released && 0 < n <= |w.frames|
    ensures var w := Run(Watcher(cfg), Unwatched, ops).0;
            n <= w.s.ring.trimmed <==> OverdueAtTrim(cfg.limits, w.frames, w.clock, n)
  {
    EveryRunKeeps(cfg, ops);
  }

  /**
   * In every run with such a clock: an attach is accepted exactly unless the lease is released, the
   * cursor is out of range or ahead, or another attachment stays; an accepted one is told of a gap
   * exactly when the first frame that it missed is overdue; and without one it gets every frame
   * after its cursor.
   */
  lemma AttachGetsAllIff(cfg: Config, ops: seq<Op>, cursor: nat, recovery: bool, replace: bool, now: real)
    requires var w := Run(Watcher(cfg), Unwatched, ops).0; w.steady && (w.clock.Some? ==> w.clock.value <= now)
    ensures var w := Run(Watcher(cfg), Unwatched, ops).0;
            var (t, refusal) := Attached(cfg, w.s, cursor, recovery, replace, now);
            && (refusal.None? <==> !Refuses(w.s, cursor, recovery && replace))
            && (refusal.None? ==>
                  && t.current == Some(|w.s.atts|) && |t.atts| == |w.s.atts| + 1 && w.s.lastSeq == |w.frames|
                  && var a := t.atts[|w.s.atts|];
                     && a.detached.None? && a.preamble && a.complete == recovery && a.recovery == recovery && a.live == []
                     && (a.gap <==> Due(cfg.limits, w.frames, cursor + 1, now))
                     && (!a.gap ==> a.replay == w.frames[cursor..])
                     && (a.gap ==> t.ring.trimmed <= |w.frames| && a.replay == w.frames[t.ring.trimmed..]))
  {
    EveryRunKeeps(cfg, ops);
    var w := Run(Watcher(cfg), Unwatched, ops).0;
    var op := Attach(cursor, recovery, replace, now);
    if !Refuses(w.s, cursor, recovery && replace) {
      TrimStep(cfg, w, op);
      TrimKeepsTime(cfg, w, op);
      ExactAfterTrim(cfg, w, op);
      AcceptedGets(cfg, WatchStep(cfg, w, op).0, cursor, recovery, now);
    }
  }

  /** What an attachment made from a ring just trimmed is told and gets. */
  lemma AcceptedGets(cfg: Config, w: Watch, cursor: nat, recovery: bool, now: real)
    requires Linked(w) && !w.s.released && Exact(cfg.limits, w.frames, w.clock, w.s.ring.trimmed)
        && w.clock == Some(now) && cursor <= |w.frames|
    ensures var a := NewAttachment(w.s.ring, cursor, recovery);
            && (a.gap <==> Due(cfg.limits, w.frames, cursor + 1, now))
            && (!a.gap ==> a.replay == w.frames[cursor..])
            && (a.gap ==> w.s.ring.trimmed <= |w.frames| && a.replay == w.frames[w.s.ring.trimmed..])
  {
    var ring := w.s.ring;
    AfterIsSuffix(ring.events, ring.trimmed, cursor);
    if cursor < |w.frames| {
      assert cursor + 1 <= ring.trimmed <==> OverdueAtTrim(cfg.limits, w.frames, w.clock, cursor + 1);
    }
  }

  // ------------------------------------------------------------ delivery

  /**
   * A frame that comes in while somebody is attached is queued, behind what is queued already, if
   * and only if the queue has room for it; if not, the attachment loses its place and keeps its queue.
   */
  lemma DeliveredIffRoom(cfg: Config, ops: seq<Op>, text: string, now: real)
    requires var s := Run(Stepper(cfg), Initial, ops).0; s.current.Some?
    ensures var s := Run(Stepper(cfg), Initial, ops).0;
            && HasCurrent(s) && !s.released
            && Delivers(cfg, s, s.current.value, LiveItem(cfg, s.atts[s.current.value], s.lastSeq + 1, text), Retained(cfg, s, text, now))
  {
    SessionLease.EveryRunKeeps(cfg, ops);
    var s := Run(Stepper(cfg), Initial, ops).0;
    var i := s.current.value;
    var s' := s.(ring := Appended(cfg, s, text, now).0, lastSeq := s.lastSeq + 1, history := s.history + [text]);
    DeliverIff(cfg, s', i, LiveItem(cfg, s.atts[i], s.lastSeq + 1, text));
  }

  /** The same for the answer to a request of the attachment. */
  lemma AnsweredIffRoom(cfg: Config, ops: seq<Op>, text: string)
    requires var s := Run(Stepper(cfg), Initial, ops).0; s.current.Some?
    ensures var s := Run(Stepper(cfg), Initial, ops).0;
            HasCurrent(s) && Delivers(cfg, s, s.current.value, Local(text), Step(cfg, s, Answer(s.current.value, text)).0)
  {
    SessionLease.EveryRunKeeps(cfg, ops);
    var s := Run(Stepper(cfg), Initial, ops).0;
    DeliverIff(cfg, s, s.current.value, Local(text));
  }

  /** The attachment gets the item if its queue has room, or else loses its place. */
  ghost predicate Delivers(cfg: Config, s: Lease, i: nat, item: Item, t: Lease)
    requires i < |s.atts|
  {
    var a := s.atts[i];
    var room := |a.live| < cfg.limits.maxEvents && WireSizes(a.live) + Utf8Size(item.wire) <= cfg.limits.maxBytes;
    && |t.atts| == |s.atts|
    && (if room then t.current == Some(i) && t.atts[i].detached.None? && Held(cfg, t.atts[i]) == Held(cfg, a) + [Yield(item)]
        else t.current.None? && t.atts[i].detached == Some(Backpressure) && Held(cfg, t.atts[i]) == Held(cfg, a))
  }

  lemma DeliverIff(cfg: Config, s: Lease, i: nat, item: Item)
    requires i < |s.atts| && s.current == Some(i) && s.atts[i].detached.None? && s.atts[i].liveBytes == WireSizes(s.atts[i].live)
    ensures Delivers(cfg, s, i, item, Delivered(cfg, s, i, item))
  {
    var b := DeliveredIs(cfg, s, i, item);
    HeldSnoc(cfg, s.atts[i], item);
    DetachHolds(cfg, s.atts[i], Backpressure);
  }

  lemma DeliveredIs(cfg: Config, s: Lease, i: nat, item: Item) returns (b: Attachment)
    requires i < |s.atts| && s.current == Some(i) && s.atts[i].detached.None? && s.atts[i].liveBytes == WireSizes(s.atts[i].live)
    ensures var (a, t) := (s.atts[i], Delivered(cfg, s, i, item));
            var room := |a.live| < cfg.limits.maxEvents && WireSizes(a.live) + Utf8Size(item.wire) <= cfg.limits.maxBytes;
            && |t.atts| == |s.atts| && t.atts[i] == b && t.current == (if room then Some(i) else None)
            && b == if room then Queued(a, item) else MarkDetached(a, Backpressure)
  {
    b := Delivered(cfg, s, i, item).atts[i];
  }

  lemma HeldSnoc(cfg: Config, a: Attachment, item: Item)
    ensures Held(cfg, Queued(a, item)) == Held(cfg, a) + [Yield(item)]
  {
    var b := Queued(a, item);
    YieldsSnoc(a.live, item);
    assert HeldLive(b) == HeldLive(a) + [Yield(item)];
    ReplaysAgree(cfg, b, a, a.replay);
    assert HeldReplay(cfg, b) == HeldReplay(cfg, a) + [Yield(item)];
  }

  /** A cap is noted as reached exactly when a frame finds nobody attached, no recovery, and the ring with it over a cap. */
  lemma CapReachedIff(cfg: Config, ops: seq<Op>, text: string, now: real)
    requires !Run(Stepper(cfg), Initial, ops).0.released
    ensures var s := Run(Stepper(cfg), Initial, ops).0;
            Retained(cfg, s, text, now).capReached <==>
              s.capReached
              || (s.current.None? && !s.recoveryEnabled
                  && (|s.ring.events| + 1 > cfg.limits.maxEvents || Sizes(s.ring.events) + Utf8Size(text) > cfg.limits.maxBytes))
  {
    SessionLease.EveryRunKeeps(cfg, ops);
    var s := Run(Stepper(cfg), Initial, ops).0;
    AppendedOverflowIff(cfg, s, text, now);
    RetainedCap(cfg, s, text, now);
  }

  lemma AppendedOverflowIff(cfg: Config, s: Lease, text: string, now: real)
    requires s.ring.bytes == Sizes(s.ring.events)
    ensures Appended(cfg, s, text, now).1 <==>
              |s.ring.events| + 1 > cfg.limits.maxEvents || Sizes(s.ring.events) + Utf8Size(text) > cfg.limits.maxBytes
  {
    var e := Event(s.lastSeq + 1, text, Utf8Size(text), now);
    SizesAppend(s.ring.events, e);
    OverflowIff(cfg.limits, now, Ring(s.ring.events + [e], s.ring.bytes + e.size, s.ring.trimmed));
  }

  lemma RetainedCap(cfg: Config, s: Lease, text: string, now: real)
    requires s.current.Some? ==> s.current.value < |s.atts|
    ensures Retained(cfg, s, text, now).capReached <==>
              s.capReached || (s.current.None? && !s.recoveryEnabled && Appended(cfg, s, text, now).1)
  {
  }

  // ------------------------------------------------------------- taking it all

  function Yields(items: seq<Item>): (outs: seq<Output>) {
    if items == [] then [] else [Yield(items[0])] + Yields(items[1..])
  }

  function Replays(cfg: Config, a: Attachment, es: seq<Event>): (outs: seq<Output>) {
    if es == [] then [] else [Yield(ReplayItem(cfg, a, es[0]))] + Replays(cfg, a, es[1..])
  }

  lemma {:induction false} YieldsSnoc(items: seq<Item>, item: Item)
    ensures Yields(items + [item]) == Yields(items) + [Yield(item)]
  {
    if items == [] {
      assert [item][1..] == [] && items + [item] == [item];
    } else {
      assert (items + [item])[1..] == items[1..] + [item];
      YieldsSnoc(items[1..], item);
    }
  }

  /** A replayed frame is sent as itself, or for a recovering client in an envelope that says so. */
  lemma {:induction false} ReplaysAreMarked(cfg: Config, a: Attachment, es: seq<Event>, k: nat)
    requires k < |es|
    ensures |Replays(cfg, a, es)| == |es|
    ensures var wire := if a.recovery then cfg.wrap(es[k].num, es[k].text, true) else es[k].text;
            Replays(cfg, a, es)[k] == Yield(Numbered(es[k].num, es[k].text, wire))
  {
    if |es| > 1 {
      ReplaysAreMarked(cfg, a, es[1..], if k > 0 then k - 1 else 0);
    }
  }

  /** How a replayed frame is sent depends on the kind of the attachment only. */
  lemma {:induction false} ReplaysAgree(cfg: Config, a: Attachment, b: Attachment, es: seq<Event>)
    requires a.recovery == b.recovery
    ensures Replays(cfg, a, es) == Replays(cfg, b, es)
  {
    if es != [] {
      ReplaysAgree(cfg, a, b, es[1..]);
    }
  }

  /** What an attachment holds: what it will put out, in this order. */
  function Held(cfg: Config, a: Attachment): seq<Output> {
    if a.preamble then [Preamble] + HeldReplay(cfg, a) else HeldReplay(cfg, a)
  }

  function HeldReplay(cfg: Config, a: Attachment): seq<Output> {
    Replays(cfg, a, a.replay) + HeldLive(a)
  }

  function HeldLive(a: Attachment): seq<Output> {
    if a.complete then [ReplayComplete] + Yields(a.live) else Yields(a.live)
  }

  /** The next output is the first of what is held; when nothing is, the attachment waits or is at its end. */
  lemma NextTakesFirst(cfg: Config, a: Attachment)
    ensures var (b, out) := Next(cfg, false, a);
            if Held(cfg, a) != [] then out == Held(cfg, a)[0] && Held(cfg, b) == Held(cfg, a)[1..] && b.detached == a.detached
            else b == a && out == if a.detached.Some? then Gone(a.detached.value) else Blocked
  {
    var b := Next(cfg, false, a).0;
    ReplaysAgree(cfg, a, b, b.replay);
    assert [] + HeldLive(a) == HeldLive(a);
    if !a.preamble && a.replay != [] {
      Regroup(Yield(ReplayItem(cfg, a, a.replay[0])), Replays(cfg, a, a.replay[1..]), HeldLive(a));
    } else if a.preamble {
      Regroup(Preamble, [], HeldReplay(cfg, a));
    } else if a.complete {
      Regroup(ReplayComplete, [], Yields(a.live));
    }
  }

  lemma Regroup(first: Output, xs: seq<Output>, ys: seq<Output>)
    ensures ([first] + xs) + ys == [first] + (xs + ys) && ([first] + (xs + ys))[1..] == xs + ys && [] + ys == ys
  {
  }

  function Takes(i: nat, n: nat): (ops: seq<Op>)
    ensures |ops| == n
  {
    seq(n, k => Take(i))
  }

  function Gots(outs: seq<Output>): (rs: seq<Reply>)
    ensures |rs| == |outs|
  {
    seq(|outs|, k requires 0 <= k < |outs| => Got(outs[k]))
  }

  lemma EmptyHasYielded(cfg: Config, a: Attachment)
    requires Held(cfg, a) == []
    ensures Yielded(a) == Stream(a)
  {
    assert a.replay == [] && a.live == [];
    assert EventPairs([]) == [] && Pairs([]) == [];
  }

  lemma TakeIs(cfg: Config, s: Lease, i: nat)
    requires !s.released && i < |s.atts|
    ensures var (b, out) := Next(cfg, false, s.atts[i]); Step(cfg, s, Take(i)) == (s.(atts := s.atts[i := b]), Got(out))
  {
  }

  lemma TakeOne(cfg: Config, s: Lease, i: nat) returns (b: Attachment)
    requires !s.released && i < |s.atts| && Held(cfg, s.atts[i]) != []
    ensures Step(cfg, s, Take(i)) == (s.(atts := s.atts[i := b]), Got(Held(cfg, s.atts[i])[0]))
    ensures Held(cfg, b) == Held(cfg, s.atts[i])[1..] && b.detached == s.atts[i].detached && Stream(b) == Stream(s.atts[i])
  {
    TakeIs(cfg, s, i);
    b := Next(cfg, false, s.atts[i]).0;
    NextTakesFirst(cfg, s.atts[i]);
    NextKeepsStream(cfg, false, s.atts[i]);
  }

  /** Steps that take the first of what is held take all of it. */
  lemma {:induction false} TakesInOrder(step: (Lease, Op) -> (Lease, Reply),
    held: Lease -> seq<Output>, inv: Lease -> bool, s: Lease, i: nat)
    requires inv(s)
    requires forall t {:trigger held(t)} :: inv(t) && held(t) != [] ==>
               var (u, reply) := step(t, Take(i)); inv(u) && reply == Got(held(t)[0]) && held(u) == held(t)[1..]
    ensures var (t, replies) := Run(step, s, Takes(i, |held(s)|)); inv(t) && held(t) == [] && replies == Gots(held(s))
    decreases |held(s)|
  {
    var n := |held(s)|;
    if n == 0 {
      assert Takes(i, 0) == [];
    } else {
      assert Takes(i, n)[0] == Take(i) && Takes(i, n)[1..] == Takes(i, n - 1);
      TakesInOrder(step, held, inv, step(s, Take(i)).0, i);
      assert Gots(held(s)) == [Got(held(s)[0])] + Gots(held(s)[1..]);
    }
  }

  /**
   * Whoever takes from an attachment of an unreleased lease as often as it holds outputs gets them
   * all, in order; then it has yielded every frame of its stream and holds nothing.
   */
  lemma TakesAll(cfg: Config, s: Lease, i: nat)
    requires !s.released && i < |s.atts|
    ensures var held := Held(cfg, s.atts[i]);
            var (t, replies) := Run(Stepper(cfg), s, Takes(i, |held|));
            && replies == Gots(held) && |t.atts| == |s.atts| && Held(cfg, t.atts[i]) == []
            && t.atts[i].detached == s.atts[i].detached && Yielded(t.atts[i]) == Stream(s.atts[i])
  {
    var n, stream, detached := |s.atts|, Stream(s.atts[i]), s.atts[i].detached;
    var held := (t: Lease) => if i < |t.atts| then Held(cfg, t.atts[i]) else [];
    var inv := (t: Lease) => !t.released && |t.atts| == n && i < n && Stream(t.atts[i]) == stream && t.atts[i].detached == detached;
    forall t | inv(t) && held(t) != []
      ensures var (u, reply) := Stepper(cfg)(t, Take(i)); inv(u) && reply == Got(held(t)[0]) && held(u) == held(t)[1..]
    {
      var b := TakeOne(cfg, t, i);
    }
    TakesInOrder(Stepper(cfg), held, inv, s, i);
    EmptyHasYielded(cfg, Run(Stepper(cfg), s, Takes(i, |held(s)|)).0.atts[i]);
  }

  /** Losing its place, or a full queue, leaves an attachment what it holds; release and replacement take it away. */
  lemma DetachHolds(cfg: Config, a: Attachment, reason: Reason)
    ensures var b := MarkDetached(a, reason);
            && b.detached == (if a.detached.Some? then a.detached else Some(reason)) && b.taken == a.taken
            && Held(cfg, b) == if reason == LeaseReleased || reason == Replaced then [] else Held(cfg, a)
  {
    ReplaysAgree(cfg, MarkDetached(a, reason), a, MarkDetached(a, reason).replay);
  }

  // ----------------------------------------------------------------- sizes

  /** The UTF-8 form of a character (section 3 of RFC 3629). */
  function Utf8Of(c: char): (b: Bytes) {
    var n := c as int;
    if n < 0x80 then [n as Byte]
    else if n < 0x800 then [(0xC0 + n / 0x40) as Byte, (0x80 + n % 0x40) as Byte]
    else if n < 0x1_0000 then [(0xE0 + n / 0x1000) as Byte, (0x80 + n / 0x40 % 0x40) as Byte, (0x80 + n % 0x40) as Byte]
    else [(0xF0 + n / 0x4_0000) as Byte, (0x80 + n / 0x1000 % 0x40) as Byte, (0x80 + n / 0x40 % 0x40) as Byte, (0x80 + n % 0x40) as Byte]
  }

  function Utf8(s: string): (b: Bytes) {
    if s == [] then [] else Utf8(s[..|s| - 1]) + Utf8Of(s[|s| - 1])
  }

  /** The size of a text that the caps count is the length of its UTF-8 form. */
  lemma {:induction false} SizeIsUtf8(s: string)
    ensures Utf8Size(s) == |Utf8(s)|
  {
    if s != [] {
      SizeIsUtf8(s[..|s| - 1]);
    }
  }
}
