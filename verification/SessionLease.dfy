/**
 * A lease on one Hermes session: every frame is numbered and kept in a bounded ring,
 * handed to the attachment of the moment, if there is one, and replayed to the next from its cursor.
 *
 * The lease is a step system; each step is one stretch of the program without suspension.
 * `history` records every retained frame and `taken` every frame an attachment has yielded:
 * they are the yardstick of the theorems and influence no step.
 */
module SessionLease {
  import opened Common
  import opened Machine

  const MAX_CURSOR := 0x7FFF_FFFF_FFFF_FFFF

  datatype Limits = Limits(maxEvents: nat, maxBytes: nat, maxAge: real)

  /** The limits and the JSON wrapping of frames for recovering clients. */
  datatype Config = Config(limits: Limits, wrap: (nat, string, bool) -> string)

  datatype Event = Event(num: nat, text: string, size: nat, at: real)

  /** A queued output: a numbered frame with the text sent for it, or a local answer. */
  datatype Item = Numbered(num: nat, text: string, wire: string) | Local(wire: string)

  datatype Reason = LeaseReleased | Replaced | Backpressure | Severed

  datatype Attachment = Attachment(
    cursor: nat, start: nat, gap: bool, recovery: bool,
    preamble: bool, replay: seq<Event>, complete: bool, live: seq<Item>, liveBytes: int,
    detached: Option<Reason>, taken: seq<Item>)

  /** The retained suffix of the history. */
  datatype Ring = Ring(events: seq<Event>, bytes: int, trimmed: nat)

  datatype Lease = Lease(
    ring: Ring, lastSeq: nat, current: Option<nat>, atts: seq<Attachment>,
    recoveryEnabled: bool, released: bool, capReached: bool, history: seq<string>)

  function Utf8Size(s: string): (n: nat)
    ensures n >= |s|
  {
    if s == [] then 0
    else
      var c := s[|s| - 1] as int;
      Utf8Size(s[..|s| - 1]) + (if c < 0x80 then 1 else if c < 0x800 then 2 else if c < 0x1_0000 then 3 else 4)
  }

  // ------------------------------------------------------------------ ring

  predicate OverCap(l: Limits, r: Ring) {
    |r.events| > l.maxEvents || r.bytes > l.maxBytes
  }

  predicate MustDrop(l: Limits, now: real, r: Ring) {
    r.events != [] && (OverCap(l, r) || now - r.events[0].at > l.maxAge)
  }

  function DropOldest(r: Ring): Ring
    requires r.events != []
  {
    Ring(r.events[1..], r.bytes - r.events[0].size, r.events[0].num)
  }

  /** Drop the oldest events until the caps and the age limit hold; true if a cap forced a drop. */
  function Trimmed(l: Limits, now: real, r: Ring): (res: (Ring, bool))
    decreases |r.events|
  {
    if !MustDrop(l, now, r) then (r, false)
    else
      var (r', overflow) := Trimmed(l, now, DropOldest(r));
      (r', overflow || OverCap(l, r))
  }

  function Sizes(es: seq<Event>): (n: nat) {
    if es == [] then 0 else es[0].size + Sizes(es[1..])
  }

  /** The ring holds exactly the last frames of the history, numbered, with its byte count. */
  ghost predicate Retains(r: Ring, history: seq<string>) {
    && r.trimmed + |r.events| == |history|
    && r.bytes == Sizes(r.events)
    && forall i {:trigger r.events[i]} :: 0 <= i < |r.events| ==>
         && r.events[i].num == r.trimmed + 1 + i
         && r.events[i].text == history[r.trimmed + i]
  }

  lemma {:induction false} SizesAppend(es: seq<Event>, e: Event)
    ensures Sizes(es + [e]) == Sizes(es) + e.size
  {
    if es == [] {
      assert es + [e] == [e] && [e][1..] == [];
    } else {
      assert (es + [e])[1..] == es[1..] + [e];
      SizesAppend(es[1..], e);
    }
  }

  /** Trimming keeps the suffix property and reaches the caps. */
  lemma {:induction false} TrimmedRetains(l: Limits, now: real, r: Ring, history: seq<string>)
    requires Retains(r, history)
    ensures var r' := Trimmed(l, now, r).0;
            && Retains(r', history) && r.trimmed <= r'.trimmed
            && !OverCap(l, r')
            && r'.events == r.events[r'.trimmed - r.trimmed..]
    decreases |r.events|
  {
    if MustDrop(l, now, r) {
      var d := DropOldest(r);
      assert r.events[0].num == r.trimmed + 1;
      forall i | 0 <= i < |d.events|
        ensures d.events[i].num == d.trimmed + 1 + i && d.events[i].text == history[d.trimmed + i]
      {
        assert d.events[i] == r.events[i + 1];
      }
      TrimmedRetains(l, now, d, history);
    } else {
      assert r.events == [] ==> Sizes(r.events) == 0;
    }
  }

  // ----------------------------------------------------------- attachments

  /** Detaching: replacement and release also discard what is queued. */
  function MarkDetached(a: Attachment, reason: Reason): Attachment {
    var b := if reason == LeaseReleased || reason == Replaced
             then a.(preamble := false, complete := false, replay := [], live := [], liveBytes := 0) else a;
    if b.detached.None? then b.(detached := Some(reason)) else b
  }

  function Detached(s: Lease, i: nat, reason: Reason): Lease
    requires i < |s.atts|
  {
    s.(current := if s.current == Some(i) then None else s.current, atts := s.atts[i := MarkDetached(s.atts[i], reason)])
  }

  /** Queue one output for the attachment, or sever it when its queue is full. */
  function Delivered(cfg: Config, s: Lease, i: nat, item: Item): Lease
    requires i < |s.atts|
  {
    var a := s.atts[i];
    var size := Utf8Size(item.wire);
    if |a.live| >= cfg.limits.maxEvents || a.liveBytes + size > cfg.limits.maxBytes then Detached(s, i, Backpressure)
    else s.(atts := s.atts[i := a.(live := a.live + [item], liveBytes := a.liveBytes + size)])
  }

  predicate HasCurrent(s: Lease) {
    s.current.Some? && s.current.value < |s.atts|
  }

  /** Fence the lease at once: no current attachment, and its queue discarded. */
  function Released(s: Lease): Lease {
    if s.released then s
    else
      s.(released := true, current := None,
         atts := if HasCurrent(s) then s.atts[s.current.value := MarkDetached(s.atts[s.current.value], LeaseReleased)]
                 else s.atts)
  }

  /** A frame whose bookkeeping fails has already taken a number; the pump then releases the lease. */
  function RetainFailed(s: Lease): Lease {
    Released(s.(lastSeq := s.lastSeq + 1))
  }

  /** The ring after one more frame, and whether a cap was exceeded. */
  function Appended(cfg: Config, s: Lease, text: string, now: real): (Ring, bool) {
    var e := Event(s.lastSeq + 1, text, Utf8Size(text), now);
    Trimmed(cfg.limits, now, Ring(s.ring.events + [e], s.ring.bytes + e.size, s.ring.trimmed))
  }

  function LiveItem(cfg: Config, a: Attachment, num: nat, text: string): Item {
    Numbered(num, text, if a.recovery then cfg.wrap(num, text, false) else text)
  }

  function Retained(cfg: Config, s: Lease, text: string, now: real): Lease
  {
    var n := s.lastSeq + 1;
    var (ring, overflow) := Appended(cfg, s, text, now);
    var s' := s.(ring := ring, lastSeq := n, history := s.history + [text]);
    if !HasCurrent(s) then s'.(capReached := s.capReached || (overflow && !s.recoveryEnabled))
    else Delivered(cfg, s', s.current.value, LiveItem(cfg, s.atts[s.current.value], n, text))
  }

  datatype Refusal = LeaseGone | InvalidCursor | CursorAhead | AlreadyAttached

  function AttachRefusal(s: Lease, cursor: nat, mayReplace: bool): Option<Refusal> {
    if s.released then Some(LeaseGone)
    else if cursor > MAX_CURSOR then Some(InvalidCursor)
    else if cursor > s.lastSeq then Some(CursorAhead)
    else if s.current.Some? && !mayReplace then Some(AlreadyAttached)
    else None
  }

  /** The retained events after a cursor. */
  function After(es: seq<Event>, cursor: nat): (r: seq<Event>) {
    if es == [] then []
    else if es[0].num > cursor then [es[0]] + After(es[1..], cursor) else After(es[1..], cursor)
  }

  function NewAttachment(ring: Ring, cursor: nat, recovery: bool): Attachment {
    Attachment(cursor, Max(cursor, ring.trimmed), cursor < ring.trimmed, recovery,
               true, After(ring.events, cursor), recovery, [], 0, None, [])
  }

  function Attached(cfg: Config, s: Lease, cursor: nat, recovery: bool, replace: bool, now: real): (r: (Lease, Option<Refusal>))
  {
    var refusal := AttachRefusal(s, cursor, recovery && replace);
    if refusal.Some? then (s, refusal)
    else
      var ring := Trimmed(cfg.limits, now, s.ring).0;
      var atts := if !HasCurrent(s) then s.atts
                  else s.atts[s.current.value := MarkDetached(s.atts[s.current.value], Replaced)];
      (s.(ring := ring, current := Some(|s.atts|), atts := atts + [NewAttachment(ring, cursor, recovery)],
          recoveryEnabled := s.recoveryEnabled || recovery), None)
  }

  datatype Output = Preamble | Yield(item: Item) | ReplayComplete | Blocked | Gone(reason: Reason)

  function ReplayItem(cfg: Config, a: Attachment, e: Event): Item {
    Numbered(e.num, e.text, if a.recovery then cfg.wrap(e.num, e.text, true) else e.text)
  }

  /** The next output of an attachment: preamble, replay, replay-complete, live, then its end. */
  function Next(cfg: Config, released: bool, a: Attachment): (r: (Attachment, Output)) {
    if released then (a, Gone(LeaseReleased))
    else if a.preamble then (a.(preamble := false), Preamble)
    else if a.replay != [] then
      var item := ReplayItem(cfg, a, a.replay[0]);
      (a.(replay := a.replay[1..], taken := a.taken + [item]), Yield(item))
    else if a.complete then (a.(complete := false), ReplayComplete)
    else if a.live != [] then
      var item := a.live[0];
      (a.(live := a.live[1..], liveBytes := a.liveBytes - Utf8Size(item.wire),
          taken := if item.Numbered? then a.taken + [item] else a.taken), Yield(item))
    else if a.detached.Some? then (a, Gone(a.detached.value))
    else (a, Blocked)
  }

  // ----------------------------------------------------------------- steps

  datatype Op =
    | Retain(text: string, now: real)
    | FailRetain
    | Answer(i: nat, text: string)
    | Attach(cursor: nat, recovery: bool, replace: bool, now: real)
    | Trim(now: real)
    | Detach(i: nat)
    | Take(i: nat)
    | Release
    | FinishRelease

  datatype Reply = Done | Refused(refusal: Refusal) | Got(output: Output)

  function Step(cfg: Config, s: Lease, op: Op): (r: (Lease, Reply))
  {
    match op
    case Retain(text, now) => (Retained(cfg, s, text, now), Done)
    case FailRetain => (RetainFailed(s), Done)
    case Answer(i, text) =>
      if s.released || s.current != Some(i) || i >= |s.atts| then (s, Done) else (Delivered(cfg, s, i, Local(text)), Done)
    case Attach(cursor, recovery, replace, now) =>
      var (s', refusal) := Attached(cfg, s, cursor, recovery, replace, now);
      (s', if refusal.Some? then Refused(refusal.value) else Done)
    case Trim(now) => (s.(ring := Trimmed(cfg.limits, now, s.ring).0), Done)
    case Detach(i) => if i < |s.atts| then (Detached(s, i, Severed), Done) else (s, Done)
    case Take(i) =>
      if i < |s.atts| then
        var (a, out) := Next(cfg, s.released, s.atts[i]);
        (s.(atts := s.atts[i := a]), Got(out))
      else (s, Done)
    case Release => (Released(s), Done)
    case FinishRelease => (if s.released then s.(ring := s.ring.(events := [], bytes := 0)) else s, Done)
  }

  const Initial := Lease(Ring([], 0, 0), 0, None, [], false, false, false, [])

  function Stepper(cfg: Config): (Lease, Op) -> (Lease, Reply) {
    (s, op) => Step(cfg, s, op)
  }

  // ------------------------------------------------------------- invariant

  /** A frame as the client sees it: its number and its text. */
  type Pair = (nat, string)

  function Pairs(items: seq<Item>): (ps: seq<Pair>) {
    if items == [] then []
    else
      var last := items[|items| - 1];
      Pairs(items[..|items| - 1]) + (if last.Numbered? then [(last.num, last.text)] else [])
  }

  function EventPairs(es: seq<Event>): (ps: seq<Pair>)
    ensures |ps| == |es|
  {
    seq(|es|, i requires 0 <= i < |es| => (es[i].num, es[i].text))
  }

  /** Everything an attachment has yielded and still holds, in the order of its outputs. */
  function Stream(a: Attachment): (ps: seq<Pair>) {
    Pairs(a.taken) + EventPairs(a.replay) + Pairs(a.live)
  }

  /** A contiguous run of the history that begins just after `start`. */
  ghost predicate IsRun(ps: seq<Pair>, start: nat, history: seq<string>) {
    && start + |ps| <= |history|
    && forall i {:trigger ps[i]} :: 0 <= i < |ps| ==> ps[i] == (start + 1 + i, history[start + i])
  }

  function WireSizes(items: seq<Item>): (n: nat) {
    if items == [] then 0 else Utf8Size(items[0].wire) + WireSizes(items[1..])
  }

  ghost predicate Sound(l: Limits, a: Attachment, history: seq<string>) {
    && IsRun(Stream(a), a.start, history)
    && a.cursor <= a.start && (a.gap <==> a.cursor < a.start)
    && |a.live| <= l.maxEvents && a.liveBytes == WireSizes(a.live) <= l.maxBytes
    && (forall i :: 0 <= i < |a.taken| ==> a.taken[i].Numbered?)
  }

  /** Every attachment is sound. */
  ghost predicate AllSound(l: Limits, atts: seq<Attachment>, history: seq<string>) {
    forall i {:trigger atts[i]} :: 0 <= i < |atts| ==> Sound(l, atts[i], history)
  }

  /** Exactly the current attachment is not detached. */
  ghost predicate OneLive(atts: seq<Attachment>, current: Option<nat>) {
    && (current.Some? ==> current.value < |atts|)
    && forall i {:trigger atts[i]} :: 0 <= i < |atts| ==> (atts[i].detached.None? <==> current == Some(i))
  }

  /** The live attachment has, or has had, every frame after its start. */
  ghost predicate UpToDate(a: Attachment, history: seq<string>) {
    a.start + |Stream(a)| == |history|
  }

  ghost predicate Inv(l: Limits, s: Lease) {
    && (!s.released ==> Retains(s.ring, s.history) && s.lastSeq == |s.history| && !OverCap(l, s.ring))
    && (s.released ==> s.current.None?)
    && OneLive(s.atts, s.current) && AllSound(l, s.atts, s.history)
    && (s.current.Some? ==> UpToDate(s.atts[s.current.value], s.history))
  }

  lemma SetSound(l: Limits, atts: seq<Attachment>, i: nat, a: Attachment, history: seq<string>)
    requires AllSound(l, atts, history) && i < |atts| && Sound(l, a, history)
    ensures AllSound(l, atts[i := a], history)
  {
    var updated := atts[i := a];
    forall j | 0 <= j < |updated|
      ensures Sound(l, updated[j], history)
    {
      assert j != i ==> updated[j] == atts[j];
    }
  }

  /** Replacing an attachment by a detached one leaves at most the other live. */
  lemma SetLive(atts: seq<Attachment>, current: Option<nat>, i: nat, a: Attachment)
    requires OneLive(atts, current) && i < |atts|
    ensures a.detached.Some? ==> OneLive(atts[i := a], if current == Some(i) then None else current)
    ensures a.detached == atts[i].detached ==> OneLive(atts[i := a], current)
  {
  }

  lemma PairsSnoc(items: seq<Item>, item: Item)
    ensures Pairs(items + [item]) == Pairs(items) + (if item.Numbered? then [(item.num, item.text)] else [])
  {
    assert (items + [item])[..|items|] == items;
  }

  lemma {:induction false} PairsCons(items: seq<Item>)
    requires items != []
    ensures Pairs(items) == (if items[0].Numbered? then [(items[0].num, items[0].text)] else []) + Pairs(items[1..])
  {
    var n := |items| - 1;
    if n == 0 {
      assert items[..0] == [] && items[1..] == [];
    } else {
      PairsCons(items[..n]);
      assert items[..n][1..] == items[1..][..n - 1];
    }
  }

  lemma {:induction false} WireSizesSnoc(items: seq<Item>, item: Item)
    ensures WireSizes(items + [item]) == WireSizes(items) + Utf8Size(item.wire)
  {
    if items == [] {
      assert items + [item] == [item] && [item][1..] == [];
    } else {
      assert (items + [item])[1..] == items[1..] + [item];
      WireSizesSnoc(items[1..], item);
    }
  }

  /** Moving a frame from the front of one part to the end of the part before it. */
  lemma Shift(t: seq<Pair>, p: seq<Pair>, r: seq<Pair>, l: seq<Pair>)
    ensures (t + p) + r + l == t + (p + r) + l
  {
    assert (t + p) + r == t + (p + r);
  }

  lemma ReplayKeepsStream(cfg: Config, a: Attachment)
    requires a.replay != []
    ensures Stream(a.(replay := a.replay[1..], taken := a.taken + [ReplayItem(cfg, a, a.replay[0])])) == Stream(a)
  {
    var p: Pair := (a.replay[0].num, a.replay[0].text);
    PairsSnoc(a.taken, ReplayItem(cfg, a, a.replay[0]));
    assert EventPairs(a.replay) == [p] + EventPairs(a.replay[1..]);
    Shift(Pairs(a.taken), [p], EventPairs(a.replay[1..]), Pairs(a.live));
  }

  lemma LiveKeepsStream(a: Attachment)
    requires a.replay == [] && a.live != []
    ensures var taken := if a.live[0].Numbered? then a.taken + [a.live[0]] else a.taken;
            Stream(a.(live := a.live[1..], liveBytes := a.liveBytes - Utf8Size(a.live[0].wire), taken := taken)) == Stream(a)
  {
    PairsSnoc(a.taken, a.live[0]);
    PairsCons(a.live);
    var p := if a.live[0].Numbered? then [(a.live[0].num, a.live[0].text)] else [];
    assert EventPairs(a.replay) == [];
    var t, l := Pairs(a.taken), Pairs(a.live[1..]);
    assert (t + p) + [] + l == t + [] + (p + l);
  }

  /** Consuming an output moves a frame from what is held to what was yielded. */
  lemma NextKeepsStream(cfg: Config, released: bool, a: Attachment)
    ensures Stream(Next(cfg, released, a).0) == Stream(a)
  {
    if a.replay != [] {
      ReplayKeepsStream(cfg, a);
    } else if a.live != [] {
      LiveKeepsStream(a);
    }
  }

  /** An output shortens the queue, with its byte count, and only adds frames to what was yielded. */
  lemma NextBookkeeping(cfg: Config, released: bool, a: Attachment)
    requires a.liveBytes == WireSizes(a.live)
    requires forall i :: 0 <= i < |a.taken| ==> a.taken[i].Numbered?
    ensures var b := Next(cfg, released, a).0;
            && |b.live| <= |a.live| && b.liveBytes == WireSizes(b.live) <= a.liveBytes
            && (forall i :: 0 <= i < |b.taken| ==> b.taken[i].Numbered?)
  {
  }

  lemma NextIsSound(cfg: Config, released: bool, a: Attachment, history: seq<string>)
    requires Sound(cfg.limits, a, history)
    ensures Sound(cfg.limits, Next(cfg, released, a).0, history)
  {
    NextKeepsStream(cfg, released, a);
    NextBookkeeping(cfg, released, a);
    SameStreamIsSound(cfg.limits, a, Next(cfg, released, a).0, history);
  }

  lemma SameStreamIsSound(l: Limits, a: Attachment, b: Attachment, history: seq<string>)
    requires Sound(l, a, history) && Stream(b) == Stream(a)
    requires b.start == a.start && b.cursor == a.cursor && b.gap == a.gap
    requires |b.live| <= |a.live| && b.liveBytes == WireSizes(b.live) <= a.liveBytes
    requires forall i :: 0 <= i < |b.taken| ==> b.taken[i].Numbered?
    ensures Sound(l, b, history)
  {
  }

  /** Detaching leaves a prefix of the stream, at least what was yielded. */
  lemma DetachedIsSound(l: Limits, a: Attachment, reason: Reason, history: seq<string>)
    requires Sound(l, a, history)
    ensures Sound(l, MarkDetached(a, reason), history) && MarkDetached(a, reason).detached.Some?
  {
    var b := MarkDetached(a, reason);
    assert Pairs([]) == [] && EventPairs([]) == [];
    assert Stream(b) == Stream(a)[..|Stream(b)|];
  }

  /** A new frame at the end of a stream that was up to date. */
  lemma DeliveredIsSound(l: Limits, a: Attachment, item: Item, history: seq<string>)
    requires Sound(l, a, history)
    requires |a.live| < l.maxEvents && a.liveBytes + Utf8Size(item.wire) <= l.maxBytes
    requires item.Numbered? ==> a.start + |Stream(a)| + 1 == item.num == |history| && item.text == history[item.num - 1]
    ensures var a' := a.(live := a.live + [item], liveBytes := a.liveBytes + Utf8Size(item.wire));
            Sound(l, a', history) && |Stream(a')| == |Stream(a)| + if item.Numbered? then 1 else 0
  {
    PairsSnoc(a.live, item);
    WireSizesSnoc(a.live, item);
    var a' := a.(live := a.live + [item], liveBytes := a.liveBytes + Utf8Size(item.wire));
    assert Stream(a') == Stream(a) + (if item.Numbered? then [(item.num, item.text)] else []);
  }

  lemma LongerHistory(l: Limits, a: Attachment, history: seq<string>, text: string)
    requires Sound(l, a, history)
    ensures Sound(l, a, history + [text])
  {
  }

  /** The retained events after a cursor are the end of the ring. */
  lemma {:induction false} AfterIsSuffix(es: seq<Event>, trimmed: nat, cursor: nat)
    requires forall i :: 0 <= i < |es| ==> es[i].num == trimmed + 1 + i
    requires cursor <= trimmed + |es|
    ensures After(es, cursor) == es[Max(cursor, trimmed) - trimmed..]
  {
    if es != [] {
      forall i | 0 <= i < |es| - 1
        ensures es[1..][i].num == trimmed + 1 + 1 + i
      {
        assert es[1..][i] == es[i + 1];
      }
      if cursor <= trimmed {
        AfterIsSuffix(es[1..], trimmed + 1, cursor);
        assert es[1..][0..] == es[1..] && es == [es[0]] + es[1..] && es[0..] == es;
      } else {
        AfterIsSuffix(es[1..], trimmed + 1, cursor);
        assert es[1..][cursor - trimmed - 1..] == es[cursor - trimmed..];
      }
    }
  }

  /** A new attachment holds the history after its cursor, or after what was lost of it. */
  lemma NewAttachmentIsSound(l: Limits, ring: Ring, cursor: nat, recovery: bool, history: seq<string>)
    requires Retains(ring, history) && cursor <= |history|
    ensures var a := NewAttachment(ring, cursor, recovery);
            Sound(l, a, history) && UpToDate(a, history) && a.detached.None?
  {
    var a := NewAttachment(ring, cursor, recovery);
    assert Pairs([]) == [];
    assert Stream(a) == EventPairs(a.replay);
    NewReplayIsRun(ring, cursor, history);
  }

  lemma NewReplayIsRun(ring: Ring, cursor: nat, history: seq<string>)
    requires Retains(ring, history) && cursor <= |history|
    ensures var start := Max(cursor, ring.trimmed);
            var ps := EventPairs(After(ring.events, cursor));
            IsRun(ps, start, history) && start + |ps| == |history|
  {
    AfterIsSuffix(ring.events, ring.trimmed, cursor);
    var start := Max(cursor, ring.trimmed);
    var es := After(ring.events, cursor);
    forall i | 0 <= i < |es|
      ensures EventPairs(es)[i] == (start + 1 + i, history[start + i])
    {
      assert es[i] == ring.events[start - ring.trimmed + i];
    }
  }

  // ------------------------------------------------------ steps keep it all

  lemma DetachKeeps(l: Limits, s: Lease, i: nat, reason: Reason)
    requires Inv(l, s) && i < |s.atts|
    ensures Inv(l, Detached(s, i, reason))
  {
    var a := MarkDetached(s.atts[i], reason);
    DetachedIsSound(l, s.atts[i], reason, s.history);
    SetSound(l, s.atts, i, a, s.history);
    SetLive(s.atts, s.current, i, a);
  }

  lemma ReleaseKeeps(l: Limits, s: Lease)
    requires Inv(l, s) || Inv(l, s.(lastSeq := s.lastSeq - if s.lastSeq > 0 then 1 else 0))
    ensures Inv(l, Released(s))
  {
    if !s.released && HasCurrent(s) {
      var i := s.current.value;
      var a := MarkDetached(s.atts[i], LeaseReleased);
      DetachedIsSound(l, s.atts[i], LeaseReleased, s.history);
      SetSound(l, s.atts, i, a, s.history);
      SetLive(s.atts, s.current, i, a);
    }
  }

  lemma LongerAll(l: Limits, atts: seq<Attachment>, history: seq<string>, text: string)
    requires AllSound(l, atts, history)
    ensures AllSound(l, atts, history + [text])
  {
    forall i | 0 <= i < |atts|
      ensures Sound(l, atts[i], history + [text])
    {
      LongerHistory(l, atts[i], history, text);
    }
  }

  lemma RetainKeeps(cfg: Config, s: Lease, text: string, now: real)
    requires Inv(cfg.limits, s)
    ensures Inv(cfg.limits, Retained(cfg, s, text, now))
  {
    LongerAll(cfg.limits, s.atts, s.history, text);
    if !s.released {
      AppendKeeps(cfg, s, text, now);
    }
    if HasCurrent(s) {
      RetainDelivers(cfg, s, text, now);
    }
  }

  lemma RetainDelivers(cfg: Config, s: Lease, text: string, now: real)
    requires Inv(cfg.limits, s) && HasCurrent(s)
    requires AllSound(cfg.limits, s.atts, s.history + [text])
    ensures var t := Retained(cfg, s, text, now);
            && AllSound(cfg.limits, t.atts, s.history + [text]) && OneLive(t.atts, t.current)
            && (t.current.Some? ==> UpToDate(t.atts[t.current.value], s.history + [text]))
  {
    var i := s.current.value;
    assert UpToDate(s.atts[i], s.history);
    var s' := s.(ring := Appended(cfg, s, text, now).0, lastSeq := s.lastSeq + 1, history := s.history + [text]);
    DeliverKeeps(cfg, s', i, LiveItem(cfg, s.atts[i], s.lastSeq + 1, text));
  }

  lemma SeverKeeps(l: Limits, s: Lease, i: nat, reason: Reason)
    requires AllSound(l, s.atts, s.history) && OneLive(s.atts, s.current) && s.current == Some(i)
    ensures var s' := Detached(s, i, reason);
            AllSound(l, s'.atts, s.history) && OneLive(s'.atts, s'.current) && s'.current.None?
  {
    DetachedIsSound(l, s.atts[i], reason, s.history);
    SetSound(l, s.atts, i, MarkDetached(s.atts[i], reason), s.history);
    SetLive(s.atts, s.current, i, MarkDetached(s.atts[i], reason));
  }

  /** Delivery to the current attachment: it stays up to date, or it is severed. */
  lemma DeliverKeeps(cfg: Config, s: Lease, i: nat, item: Item)
    requires AllSound(cfg.limits, s.atts, s.history) && OneLive(s.atts, s.current) && s.current == Some(i)
    requires var n := s.atts[i].start + |Stream(s.atts[i])|;
             if item.Numbered? then n + 1 == item.num == |s.history| && item.text == s.history[n] else n == |s.history|
    ensures var s' := Delivered(cfg, s, i, item);
            && AllSound(cfg.limits, s'.atts, s.history) && OneLive(s'.atts, s'.current)
            && (s'.current.Some? ==> s'.current == Some(i) && UpToDate(s'.atts[i], s.history))
  {
    var l, a := cfg.limits, s.atts[i];
    if |a.live| >= l.maxEvents || a.liveBytes + Utf8Size(item.wire) > l.maxBytes {
      SeverKeeps(l, s, i, Backpressure);
    } else {
      QueueKeeps(l, s, i, item);
    }
  }

  function Queued(a: Attachment, item: Item): Attachment {
    a.(live := a.live + [item], liveBytes := a.liveBytes + Utf8Size(item.wire))
  }

  lemma QueueKeeps(l: Limits, s: Lease, i: nat, item: Item)
    requires AllSound(l, s.atts, s.history) && OneLive(s.atts, s.current) && s.current == Some(i)
    requires |s.atts[i].live| < l.maxEvents && s.atts[i].liveBytes + Utf8Size(item.wire) <= l.maxBytes
    requires var n := s.atts[i].start + |Stream(s.atts[i])|;
             if item.Numbered? then n + 1 == item.num == |s.history| && item.text == s.history[n] else n == |s.history|
    ensures var b := Queued(s.atts[i], item);
            && AllSound(l, s.atts[i := b], s.history) && OneLive(s.atts[i := b], s.current) && UpToDate(b, s.history)
  {
    var a := s.atts[i];
    QueuedIsSound(l, a, item, s.history);
    SetSound(l, s.atts, i, Queued(a, item), s.history);
    SetLive(s.atts, s.current, i, Queued(a, item));
  }

  lemma QueuedIsSound(l: Limits, a: Attachment, item: Item, history: seq<string>)
    requires Sound(l, a, history)
    requires |a.live| < l.maxEvents && a.liveBytes + Utf8Size(item.wire) <= l.maxBytes
    requires var n := a.start + |Stream(a)|;
             if item.Numbered? then n + 1 == item.num == |history| && item.text == history[n] else n == |history|
    ensures Sound(l, Queued(a, item), history) && UpToDate(Queued(a, item), history)
  {
    DeliveredIsSound(l, a, item, history);
  }

  lemma AppendKeeps(cfg: Config, s: Lease, text: string, now: real)
    requires Retains(s.ring, s.history) && s.lastSeq == |s.history|
    ensures Retains(Appended(cfg, s, text, now).0, s.history + [text]) && !OverCap(cfg.limits, Appended(cfg, s, text, now).0)
  {
    var e := Event(s.lastSeq + 1, text, Utf8Size(text), now);
    SizesAppend(s.ring.events, e);
    TrimmedRetains(cfg.limits, now, Ring(s.ring.events + [e], s.ring.bytes + e.size, s.ring.trimmed), s.history + [text]);
  }

  lemma AnswerKeeps(cfg: Config, s: Lease, i: nat, text: string)
    requires Inv(cfg.limits, s) && s.current == Some(i)
    ensures Inv(cfg.limits, Delivered(cfg, s, i, Local(text)))
  {
    DeliverKeeps(cfg, s, i, Local(text));
  }

  lemma AttachKeeps(cfg: Config, s: Lease, cursor: nat, recovery: bool, replace: bool, now: real)
    requires Inv(cfg.limits, s)
    ensures Inv(cfg.limits, Attached(cfg, s, cursor, recovery, replace, now).0)
  {
    if AttachRefusal(s, cursor, recovery && replace).None? {
      var l, ring := cfg.limits, Trimmed(cfg.limits, now, s.ring).0;
      TrimmedRetains(l, now, s.ring, s.history);
      NewAttachmentIsSound(l, ring, cursor, recovery, s.history);
      var atts := s.atts;
      if HasCurrent(s) {
        var i := s.current.value;
        var a := MarkDetached(s.atts[i], Replaced);
        DetachedIsSound(l, s.atts[i], Replaced, s.history);
        SetSound(l, s.atts, i, a, s.history);
        SetLive(s.atts, s.current, i, a);
        atts := s.atts[i := a];
      }
      PushAttachment(l, atts, NewAttachment(ring, cursor, recovery), s.history);
    }
  }

  lemma PushAttachment(l: Limits, atts: seq<Attachment>, a: Attachment, history: seq<string>)
    requires AllSound(l, atts, history) && OneLive(atts, None) && Sound(l, a, history) && a.detached.None?
    ensures AllSound(l, atts + [a], history) && OneLive(atts + [a], Some(|atts|))
  {
    var all := atts + [a];
    forall j | 0 <= j < |all|
      ensures Sound(l, all[j], history) && (all[j].detached.None? <==> j == |atts|)
    {
      assert all[j] == if j < |atts| then atts[j] else a;
    }
  }

  lemma TakeKeeps(cfg: Config, s: Lease, i: nat)
    requires Inv(cfg.limits, s) && i < |s.atts|
    ensures Inv(cfg.limits, s.(atts := s.atts[i := Next(cfg, s.released, s.atts[i]).0]))
  {
    var a := Next(cfg, s.released, s.atts[i]).0;
    NextIsSound(cfg, s.released, s.atts[i], s.history);
    NextKeepsStream(cfg, s.released, s.atts[i]);
    SetSound(cfg.limits, s.atts, i, a, s.history);
    SetLive(s.atts, s.current, i, a);
  }

  lemma StepKeeps(cfg: Config, s: Lease, op: Op)
    requires Inv(cfg.limits, s)
    ensures Inv(cfg.limits, Step(cfg, s, op).0)
  {
    match op
    case Retain(text, now) => RetainKeeps(cfg, s, text, now);
    case FailRetain => ReleaseKeeps(cfg.limits, s.(lastSeq := s.lastSeq + 1));
    case Answer(i, text) => if !s.released && s.current == Some(i) { AnswerKeeps(cfg, s, i, text); }
    case Attach(cursor, recovery, replace, now) => AttachKeeps(cfg, s, cursor, recovery, replace, now);
    case Trim(now) => if !s.released { TrimmedRetains(cfg.limits, now, s.ring, s.history); }
    case Detach(i) => if i < |s.atts| { DetachKeeps(cfg.limits, s, i, Severed); }
    case Take(i) => if i < |s.atts| { TakeKeeps(cfg, s, i); }
    case Release => ReleaseKeeps(cfg.limits, s);
    case FinishRelease =>
  }

  // -------------------------------------------------------------- theorems

  /** The invariant holds after every run of steps. */
  lemma EveryRunKeeps(cfg: Config, ops: seq<Op>)
    ensures Inv(cfg.limits, Run(Stepper(cfg), Initial, ops).0)
  {
    var inv := (s: Lease) => Inv(cfg.limits, s);
    forall s, op | inv(s)
      ensures inv(Stepper(cfg)(s, op).0)
    {
      StepKeeps(cfg, s, op);
    }
    assert Sizes([]) == 0;
    RunInvariant(Stepper(cfg), inv, Initial, ops);
  }

  /** An unreleased lease retains exactly the frames after `trimmed`, with the texts of the history, within both caps. */
  lemma RingIsExact(cfg: Config, ops: seq<Op>, n: nat)
    requires !Run(Stepper(cfg), Initial, ops).0.released
    ensures var s := Run(Stepper(cfg), Initial, ops).0;
            && ((exists e :: e in s.ring.events && e.num == n) <==> s.ring.trimmed < n <= s.lastSeq)
            && (forall e :: e in s.ring.events && e.num == n ==> 0 < n <= |s.history| && e.text == s.history[n - 1])
            && |s.ring.events| <= cfg.limits.maxEvents && Sizes(s.ring.events) <= cfg.limits.maxBytes
  {
    EveryRunKeeps(cfg, ops);
    var s := Run(Stepper(cfg), Initial, ops).0;
    if s.ring.trimmed < n <= s.lastSeq {
      var e := s.ring.events[n - s.ring.trimmed - 1];
      assert e in s.ring.events && e.num == n;
    }
  }

  /** What an attachment has yielded, as numbered frames. */
  function Yielded(a: Attachment): (ps: seq<Pair>) {
    Pairs(a.taken)
  }

  /**
   * After every run, each attachment has yielded the frames that follow its start, one by one:
   * frame start + 1 first, none missing, none twice, none altered.
   */
  lemma YieldedIsARun(cfg: Config, ops: seq<Op>, i: nat)
    requires i < |Run(Stepper(cfg), Initial, ops).0.atts|
    ensures var s := Run(Stepper(cfg), Initial, ops).0;
            var a := s.atts[i];
            IsRun(Yielded(a), a.start, s.history) && |Yielded(a)| == |a.taken|
  {
    EveryRunKeeps(cfg, ops);
    SoundYields(cfg.limits, Run(Stepper(cfg), Initial, ops).0.atts[i], Run(Stepper(cfg), Initial, ops).0.history);
  }

  lemma SoundYields(l: Limits, a: Attachment, history: seq<string>)
    requires Sound(l, a, history)
    ensures IsRun(Yielded(a), a.start, history) && |Yielded(a)| == |a.taken|
  {
    AllNumbered(a.taken);
    var ps, all := Yielded(a), Stream(a);
    forall i | 0 <= i < |ps|
      ensures ps[i] == (a.start + 1 + i, history[a.start + i])
    {
      assert ps[i] == all[i];
    }
  }

  lemma {:induction false} AllNumbered(items: seq<Item>)
    requires forall i :: 0 <= i < |items| ==> items[i].Numbered?
    ensures |Pairs(items)| == |items|
  {
    if items != [] {
      AllNumbered(items[..|items| - 1]);
    }
  }

  /** An attach reports a gap exactly when some frame after the cursor is no longer retained. */
  lemma GapIsLoss(cfg: Config, ops: seq<Op>, cursor: nat, recovery: bool, replace: bool, now: real)
    requires var s := Run(Stepper(cfg), Initial, ops).0; Attached(cfg, s, cursor, recovery, replace, now).1.None?
    ensures var s := Run(Stepper(cfg), Initial, ops).0;
            var s' := Attached(cfg, s, cursor, recovery, replace, now).0;
            var a := s'.atts[|s.atts|];
            && s'.current == Some(|s.atts|) && a.start == Max(cursor, s'.ring.trimmed)
            && (a.gap <==> exists n: nat :: cursor < n <= s.lastSeq && Lost(s'.ring, n))
  {
    EveryRunKeeps(cfg, ops);
    var s := Run(Stepper(cfg), Initial, ops).0;
    TrimmedRetains(cfg.limits, now, s.ring, s.history);
    var ring := Trimmed(cfg.limits, now, s.ring).0;
    if cursor < ring.trimmed {
      assert Lost(ring, cursor + 1);
    }
    forall n: nat | cursor < n <= s.lastSeq && Lost(ring, n)
      ensures cursor < ring.trimmed
    {
      NotLost(ring, s.history, n);
    }
  }

  /** A number beyond what was trimmed, and not beyond the history, is retained. */
  lemma NotLost(ring: Ring, history: seq<string>, n: nat)
    requires Retains(ring, history) && n <= |history|
    ensures ring.trimmed < n ==> !Lost(ring, n)
  {
    if ring.trimmed < n {
      assert ring.events[n - ring.trimmed - 1].num == n;
    }
  }

  ghost predicate Lost(r: Ring, n: nat) {
    forall i :: 0 <= i < |r.events| ==> r.events[i].num != n
  }

  /** Attachments of one client, each without a gap and each resumed where the one before ended. */
  ghost predicate Chain(s: Lease, ks: seq<nat>) {
    ks == []
    || (var init, i := ks[..|ks| - 1], ks[|ks| - 1];
        && Chain(s, init)
        && i < |s.atts| && !s.atts[i].gap
        && s.atts[i].cursor == if init == [] then 0 else End(s, init[|init| - 1]))
  }

  /** The number of the last frame an attachment has yielded, or where it started. */
  function End(s: Lease, i: nat): nat {
    if i < |s.atts| then s.atts[i].start + |s.atts[i].taken| else 0
  }

  /** All the texts a client got through a list of attachments. */
  function Collected(s: Lease, ks: seq<nat>): (ts: seq<string>) {
    if ks == [] then []
    else
      var i := ks[|ks| - 1];
      Collected(s, ks[..|ks| - 1])
      + if i < |s.atts| then var ps := Yielded(s.atts[i]); seq(|ps|, k requires 0 <= k < |ps| => ps[k].1) else []
  }

  lemma {:induction false} ChainCollects(l: Limits, s: Lease, ks: seq<nat>)
    requires Inv(l, s) && Chain(s, ks)
    ensures ks != [] ==> End(s, ks[|ks| - 1]) <= |s.history|
    ensures Collected(s, ks) == s.history[..if ks == [] then 0 else End(s, ks[|ks| - 1])]
  {
    if ks != [] {
      var init, i := ks[..|ks| - 1], ks[|ks| - 1];
      ChainCollects(l, s, init);
      var a := s.atts[i];
      SoundYields(l, a, s.history);
      assert a.cursor == if init == [] then 0 else End(s, init[|init| - 1]);
      var ps := Yielded(a);
      assert seq(|ps|, k requires 0 <= k < |ps| => ps[k].1) == s.history[a.start..a.start + |ps|];
    }
  }

  /**
   * The law of the lease: in every run, a client that reattaches at the number of the last frame
   * it consumed, and is told of no gap, has received the history from the first frame on,
   * each frame once, in order, unaltered.
   */
  lemma GapFreeReattachesYieldHistory(cfg: Config, ops: seq<Op>, ks: seq<nat>)
    requires Chain(Run(Stepper(cfg), Initial, ops).0, ks) && ks != []
    ensures var s := Run(Stepper(cfg), Initial, ops).0;
            End(s, ks[|ks| - 1]) <= |s.history| && Collected(s, ks) == s.history[..End(s, ks[|ks| - 1])]
  {
    EveryRunKeeps(cfg, ops);
    ChainCollects(cfg.limits, Run(Stepper(cfg), Initial, ops).0, ks);
  }

  // ------------------------------------------------------------------ wire

  /** The text sent for a frame: the frame itself, or its wrapping for a recovering client. */
  ghost predicate Worded(cfg: Config, recovery: bool, item: Item) {
    item.Numbered? ==>
      if recovery then item.wire == cfg.wrap(item.num, item.text, true) || item.wire == cfg.wrap(item.num, item.text, false)
      else item.wire == item.text
  }

  /** A frame queued as it came is not marked as a replay. */
  ghost predicate WordedLive(cfg: Config, recovery: bool, item: Item) {
    item.Numbered? ==> item.wire == if recovery then cfg.wrap(item.num, item.text, false) else item.text
  }

  ghost predicate WordedAttachment(cfg: Config, a: Attachment) {
    && (forall i {:trigger a.live[i]} :: 0 <= i < |a.live| ==> WordedLive(cfg, a.recovery, a.live[i]))
    && (forall i {:trigger a.taken[i]} :: 0 <= i < |a.taken| ==> Worded(cfg, a.recovery, a.taken[i]))
  }

  ghost predicate AllWorded(cfg: Config, atts: seq<Attachment>) {
    forall i {:trigger atts[i]} :: 0 <= i < |atts| ==> WordedAttachment(cfg, atts[i])
  }

  lemma SetWorded(cfg: Config, atts: seq<Attachment>, i: nat, a: Attachment)
    requires AllWorded(cfg, atts) && i < |atts| && WordedAttachment(cfg, a)
    ensures AllWorded(cfg, atts[i := a])
  {
  }

  lemma MarkedIsWorded(cfg: Config, a: Attachment, reason: Reason)
    requires WordedAttachment(cfg, a)
    ensures WordedAttachment(cfg, MarkDetached(a, reason))
  {
  }

  lemma QueuedIsWorded(cfg: Config, a: Attachment, item: Item)
    requires WordedAttachment(cfg, a) && WordedLive(cfg, a.recovery, item)
    ensures WordedAttachment(cfg, a.(live := a.live + [item], liveBytes := a.liveBytes + Utf8Size(item.wire)))
  {
  }

  lemma DeliveredIsWorded(cfg: Config, s: Lease, i: nat, item: Item)
    requires AllWorded(cfg, s.atts) && i < |s.atts| && WordedLive(cfg, s.atts[i].recovery, item)
    ensures AllWorded(cfg, Delivered(cfg, s, i, item).atts)
  {
    var a := s.atts[i];
    MarkedIsWorded(cfg, a, Backpressure);
    QueuedIsWorded(cfg, a, item);
    SetWorded(cfg, s.atts, i, MarkDetached(a, Backpressure));
    SetWorded(cfg, s.atts, i, a.(live := a.live + [item], liveBytes := a.liveBytes + Utf8Size(item.wire)));
  }

  lemma RetainedIsWorded(cfg: Config, s: Lease, text: string, now: real)
    requires AllWorded(cfg, s.atts)
    ensures AllWorded(cfg, Retained(cfg, s, text, now).atts)
  {
    if HasCurrent(s) {
      var i := s.current.value;
      var item := LiveItem(cfg, s.atts[i], s.lastSeq + 1, text);
      var s' := s.(ring := Appended(cfg, s, text, now).0, lastSeq := s.lastSeq + 1, history := s.history + [text]);
      LiveItemIsWorded(cfg, s.atts[i], s.lastSeq + 1, text);
      DeliveredIsWorded(cfg, s', i, item);
      assert Retained(cfg, s, text, now) == Delivered(cfg, s', i, item);
    }
  }

  lemma LiveItemIsWorded(cfg: Config, a: Attachment, num: nat, text: string)
    ensures WordedLive(cfg, a.recovery, LiveItem(cfg, a, num, text))
  {
  }

  lemma AttachedIsWorded(cfg: Config, s: Lease, cursor: nat, recovery: bool, replace: bool, now: real)
    requires AllWorded(cfg, s.atts)
    ensures AllWorded(cfg, Attached(cfg, s, cursor, recovery, replace, now).0.atts)
  {
    if HasCurrent(s) {
      MarkedIsWorded(cfg, s.atts[s.current.value], Replaced);
      SetWorded(cfg, s.atts, s.current.value, MarkDetached(s.atts[s.current.value], Replaced));
    }
  }

  lemma NextIsWorded(cfg: Config, released: bool, a: Attachment)
    requires WordedAttachment(cfg, a)
    ensures WordedAttachment(cfg, Next(cfg, released, a).0)
  {
    var b := Next(cfg, released, a).0;
    forall i | 0 <= i < |b.live|
      ensures WordedLive(cfg, a.recovery, b.live[i])
    {
      assert b.live[i] == a.live[i + |a.live| - |b.live|];
    }
  }

  lemma StepKeepsWording(cfg: Config, s: Lease, op: Op)
    requires AllWorded(cfg, s.atts)
    ensures AllWorded(cfg, Step(cfg, s, op).0.atts)
  {
    match op
    case Retain(text, now) => RetainedIsWorded(cfg, s, text, now);
    case Answer(i, text) => if i < |s.atts| { DeliveredIsWorded(cfg, s, i, Local(text)); }
    case Detach(i) =>
      if i < |s.atts| {
        MarkedIsWorded(cfg, s.atts[i], Severed);
        SetWorded(cfg, s.atts, i, MarkDetached(s.atts[i], Severed));
      }
    case Take(i) =>
      if i < |s.atts| {
        NextIsWorded(cfg, s.released, s.atts[i]);
        SetWorded(cfg, s.atts, i, Next(cfg, s.released, s.atts[i]).0);
      }
    case Attach(cursor, recovery, replace, now) => AttachedIsWorded(cfg, s, cursor, recovery, replace, now);
    case _ =>
      if HasCurrent(s) {
        MarkedIsWorded(cfg, s.atts[s.current.value], LeaseReleased);
        SetWorded(cfg, s.atts, s.current.value, MarkDetached(s.atts[s.current.value], LeaseReleased));
      }
  }

  /** In every run, what an attachment yields for a frame is exactly that frame's text on the wire. */
  lemma EveryRunIsWorded(cfg: Config, ops: seq<Op>)
    ensures AllWorded(cfg, Run(Stepper(cfg), Initial, ops).0.atts)
  {
    var inv := (s: Lease) => AllWorded(cfg, s.atts);
    forall s, op | inv(s)
      ensures inv(Stepper(cfg)(s, op).0)
    {
      StepKeepsWording(cfg, s, op);
    }
    RunInvariant(Stepper(cfg), inv, Initial, ops);
  }
}
