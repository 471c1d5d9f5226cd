/**
 * The lease and its attachments as objects that are updated in place, each method tied to
 * the step of SessionLease that it performs.
 */
module LeaseObjects {
  import opened Common
  import opened Steps = SessionLease

  /** What one connection reads of a lease: replay first, then live items, then the end. */
  class LeaseAttachment {
    const cursor: nat
    const replayGap: bool
    const recovery: bool
    var preamble: bool
    var replay: seq<Event>
    var complete: bool
    var live: seq<Item>
    var liveBytes: int
    var detached: Option<Reason>
    ghost const start: nat
    ghost const index: nat  // its position among all the attachments of the lease
    ghost var taken: seq<Item>

    ghost function View(): Attachment
      reads this
    {
      Attachment(cursor, start, replayGap, recovery, preamble, replay, complete, live, liveBytes, detached, taken)
    }

    constructor (ring: Ring, replay: seq<Event>, cursor: nat, recovery: bool, ghost index: nat)
      requires replay == After(ring.events, cursor)
      ensures View() == NewAttachment(ring, cursor, recovery) && this.index == index
    {
      this.index := index;
      this.cursor, this.recovery, replayGap := cursor, recovery, cursor < ring.trimmed;
      preamble, complete, this.replay := true, recovery, replay;
      live, liveBytes, detached := [], 0, None;
      start, taken := Max(cursor, ring.trimmed), [];
    }

    method MarkDetached(reason: Reason)
      modifies this
      ensures View() == Steps.MarkDetached(old(View()), reason)
    {
      if reason == LeaseReleased || reason == Replaced {
        preamble, complete := false, false;
        replay, live, liveBytes := [], [], 0;
      }
      if detached.None? {
        detached := Some(reason);
      }
    }

    /** The next output in order; Blocked stands for waiting until something arrives. */
    method NextText(cfg: Config, released: bool) returns (out: Output)
      modifies this
      ensures (View(), out) == Next(cfg, released, old(View()))
    {
      if released {
        return Gone(LeaseReleased);
      }
      if preamble {
        preamble := false;
        return Preamble;
      }
      if replay != [] {
        var event := replay[0];
        replay := replay[1..];
        var wire := if recovery then cfg.wrap(event.num, event.text, true) else event.text;
        out := Yield(Numbered(event.num, event.text, wire));
        taken := taken + [out.item];
        return;
      }
      if complete {
        complete := false;
        return ReplayComplete;
      }
      if live != [] {
        var item := live[0];
        live := live[1..];
        liveBytes := liveBytes - Utf8Size(item.wire);
        if item.Numbered? {
          taken := taken + [item];
        }
        return Yield(item);
      }
      out := if detached.Some? then Gone(detached.value) else Blocked;
    }
  }

  ghost function Views(objects: seq<LeaseAttachment>): (vs: seq<Attachment>)
    reads objects
    ensures |vs| == |objects|
    ensures forall i {:trigger vs[i]} :: 0 <= i < |objects| ==> vs[i] == objects[i].View()
  {
    seq(|objects|, i requires 0 <= i < |objects| reads objects => objects[i].View())
  }

  /** When only one object differs from earlier views, only its view changed. */
  lemma ViewsSet(objects: seq<LeaseAttachment>, before: seq<Attachment>, i: nat)
    requires i < |objects| == |before|
    requires forall j {:trigger before[j]} :: 0 <= j < |objects| && j != i ==> before[j] == objects[j].View()
    ensures Views(objects) == before[i := objects[i].View()]
  {
  }

  lemma ViewsSame(objects: seq<LeaseAttachment>, before: seq<Attachment>)
    requires |objects| == |before|
    requires forall j {:trigger before[j]} :: 0 <= j < |objects| ==> before[j] == objects[j].View()
    ensures Views(objects) == before
  {
  }

  lemma ViewsSnoc(objects: seq<LeaseAttachment>, last: LeaseAttachment)
    ensures Views(objects + [last]) == Views(objects) + [last.View()]
  {
    assert (objects + [last])[..|objects|] == objects;
  }

  /** The retained frames, their numbering and the place of the current attachment. */
  class SessionLease {
    const cfg: Config
    var events: seq<Event>
    var ringBytes: int
    var lastSeq: nat
    var trimmedThrough: nat
    var attachment: LeaseAttachment?
    var recoveryEnabled: bool
    var released: bool
    var capReached: bool
    ghost var registry: seq<LeaseAttachment>
    ghost var history: seq<string>

    ghost predicate Valid()
      reads this
    {
      && (forall i {:trigger registry[i]} :: 0 <= i < |registry| ==> registry[i].index == i)
      && (attachment != null ==> attachment.index < |registry| && registry[attachment.index] == attachment)
    }

    ghost function View(): Lease
      reads this, registry
    {
      Lease(Ring(events, ringBytes, trimmedThrough), lastSeq,
            if attachment == null then None else Some(attachment.index), Views(registry),
            recoveryEnabled, released, capReached, history)
    }

    constructor (cfg: Config)
      ensures Valid() && this.cfg == cfg && View() == Initial && registry == []
    {
      this.cfg := cfg;
      events, ringBytes, lastSeq, trimmedThrough := [], 0, 0, 0;
      attachment, recoveryEnabled, released, capReached := null, false, false, false;
      registry, history := [], [];
    }

    /** Drop from the old end until count, bytes and age are within limits. */
    method Trim(now: real) returns (overflow: bool)
      modifies this`events, this`ringBytes, this`trimmedThrough
      ensures (Ring(events, ringBytes, trimmedThrough), overflow)
           == Trimmed(cfg.limits, now, old(Ring(events, ringBytes, trimmedThrough)))
    {
      overflow := false;
      ghost var start := Ring(events, ringBytes, trimmedThrough);
      while events != [] && (|events| > cfg.limits.maxEvents || ringBytes > cfg.limits.maxBytes
                             || now - events[0].at > cfg.limits.maxAge)
        invariant var rest := Trimmed(cfg.limits, now, Ring(events, ringBytes, trimmedThrough));
                  Trimmed(cfg.limits, now, start) == (rest.0, overflow || rest.1)
        decreases |events|
      {
        var dropped := events[0];
        events := events[1..];
        ringBytes := ringBytes - dropped.size;
        trimmedThrough := dropped.num;
        if |events| + 1 > cfg.limits.maxEvents || ringBytes + dropped.size > cfg.limits.maxBytes {
          overflow := true;
        }
      }
    }

    /** Only the attachment that holds the place can give it up; the ring is kept. */
    method Detach(target: LeaseAttachment, reason: Reason)
      requires Valid() && target.index < |registry| && registry[target.index] == target
      modifies this`attachment, target
      ensures Valid() && registry == old(registry)
      ensures View() == Detached(old(View()), target.index, reason)
    {
      ghost var before := Views(registry);
      if attachment == target {
        attachment := null;
      }
      target.MarkDetached(reason);
      ViewsSet(registry, before, target.index);
    }

    /** Queue one output for the current attachment, or sever it when its queue is full. */
    method Deliver(item: Item)
      requires Valid() && attachment != null
      modifies this`attachment, attachment
      ensures Valid() && registry == old(registry)
      ensures View() == Delivered(cfg, old(View()), old(attachment.index), item)
    {
      ghost var before := Views(registry);
      var target := attachment;
      var size := Utf8Size(item.wire);
      if |target.live| >= cfg.limits.maxEvents || target.liveBytes + size > cfg.limits.maxBytes {
        Detach(target, Backpressure);
      } else {
        target.live := target.live + [item];
        target.liveBytes := target.liveBytes + size;
        ViewsSet(registry, before, target.index);
      }
    }

    /** Number a frame and put it in the ring. */
    method Append(text: string, now: real) returns (overflow: bool)
      requires Valid()
      modifies this`events, this`ringBytes, this`trimmedThrough, this`lastSeq, this`history
      ensures Valid() && lastSeq == old(lastSeq) + 1 && history == old(history) + [text]
      ensures (Ring(events, ringBytes, trimmedThrough), overflow) == Appended(cfg, old(View()), text, now)
      ensures Views(registry) == old(Views(registry))
    {
      lastSeq := lastSeq + 1;
      var size := Utf8Size(text);
      events := events + [Event(lastSeq, text, size, now)];
      ringBytes := ringBytes + size;
      history := history + [text];
      overflow := Trim(now);
    }

    method Retain(text: string, now: real)
      requires Valid()
      modifies this, attachment
      ensures Valid() && registry == old(registry)
      ensures View() == Retained(cfg, old(View()), text, now)
    {
      var overflow := Append(text, now);
      if attachment == null {
        if overflow && !recoveryEnabled {
          capReached := true;
        }
      } else {
        var wire := if attachment.recovery then cfg.wrap(lastSeq, text, false) else text;
        Deliver(Numbered(lastSeq, text, wire));
      }
    }

    /** A frame whose bookkeeping raises has its number already; the pump then releases the lease. */
    method RetainFails()
      requires Valid()
      modifies this, registry
      ensures Valid() && registry == old(registry)
      ensures View() == RetainFailed(old(View()))
    {
      ghost var before := Views(registry);
      lastSeq := lastSeq + 1;
      ViewsSame(registry, before);
      Release();
    }

    /** The events after a cursor, in order. */
    method ReplayAfter(cursor: nat) returns (replay: seq<Event>)
      ensures replay == After(events, cursor)
    {
      replay := [];
      for i := 0 to |events|
        invariant After(events, cursor) == replay + After(events[i..], cursor)
      {
        assert events[i..][0] == events[i] && events[i..][1..] == events[i + 1..];
        if events[i].num > cursor {
          replay := replay + [events[i]];
        }
      }
    }

    /** Invalidate the current attachment, if there is one, in favour of a successor. */
    method Invalidate()
      requires Valid()
      modifies this`attachment, attachment
      ensures Valid() && attachment == null && registry == old(registry)
      ensures var s := old(View());
              Views(registry)
              == if s.current.None? then s.atts
                 else s.atts[s.current.value := Steps.MarkDetached(s.atts[s.current.value], Replaced)]
    {
      if attachment != null {
        ghost var before := Views(registry);
        var target := attachment;
        attachment := null;
        target.MarkDetached(Replaced);
        ViewsSet(registry, before, target.index);
      }
    }

    /** Make a new attachment the current one. */
    method Publish(cursor: nat, recovery: bool) returns (added: LeaseAttachment)
      requires Valid() && attachment == null
      modifies this`attachment, this`registry, this`recoveryEnabled
      ensures Valid() && fresh(added) && attachment == added && added.index == old(|registry|)
      ensures registry == old(registry) + [added] && recoveryEnabled == (old(recoveryEnabled) || recovery)
      ensures Views(registry) == old(Views(registry)) + [NewAttachment(Ring(events, ringBytes, trimmedThrough), cursor, recovery)]
    {
      ghost var before := Views(registry);
      var replay := ReplayAfter(cursor);
      added := new LeaseAttachment(Ring(events, ringBytes, trimmedThrough), replay, cursor, recovery, |registry|);
      recoveryEnabled := recoveryEnabled || recovery;
      ViewsSame(registry, before);
      ViewsSnoc(registry, added);
      attachment, registry := added, registry + [added];
    }

    /** Both: the successor takes over without the lease being detached in between. */
    method TakeOver(cursor: nat, recovery: bool) returns (added: LeaseAttachment)
      requires Valid()
      modifies this`attachment, this`registry, this`recoveryEnabled, attachment
      ensures Valid() && fresh(added) && attachment == added && added.index == old(|registry|)
      ensures registry == old(registry) + [added] && recoveryEnabled == (old(recoveryEnabled) || recovery)
      ensures var s := old(View());
              Views(registry)
              == (if s.current.None? then s.atts
                  else s.atts[s.current.value := Steps.MarkDetached(s.atts[s.current.value], Replaced)])
                 + [NewAttachment(s.ring, cursor, recovery)]
    {
      Invalidate();
      added := Publish(cursor, recovery);
    }

    /** A new attachment takes the place of the former one, or is refused; its replay starts after the cursor. */
    method Attach(cursor: nat, recovery: bool, replace: bool, now: real) returns (refusal: Option<Refusal>, added: LeaseAttachment?)
      requires Valid()
      modifies this, attachment
      ensures Valid()
      ensures (View(), refusal) == Attached(cfg, old(View()), cursor, recovery, replace, now)
      ensures if refusal.None? then added != null && registry == old(registry) + [added] else registry == old(registry)
      ensures refusal.None? ==> fresh(added) && attachment == added
    {
      if released {
        return Some(LeaseGone), null;
      }
      if cursor > MAX_CURSOR {
        return Some(InvalidCursor), null;
      }
      if cursor > lastSeq {
        return Some(CursorAhead), null;
      }
      if attachment != null && !(recovery && replace) {
        return Some(AlreadyAttached), null;
      }
      var overflow := Trim(now);
      assert Views(registry) == old(Views(registry));
      added := TakeOver(cursor, recovery);
      refusal := None;
    }

    /** Fence the lease at once; releasing again changes nothing. */
    method Release()
      requires Valid()
      modifies this, registry
      ensures Valid() && registry == old(registry)
      ensures View() == Released(old(View()))
    {
      ghost var before := Views(registry);
      if !released {
        released := true;
        var target := attachment;
        attachment := null;
        if target != null {
          target.MarkDetached(LeaseReleased);
          ViewsSet(registry, before, target.index);
        } else {
          ViewsSame(registry, before);
        }
      }
    }
  }
}
