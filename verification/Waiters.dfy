/**
 * Who gets the outcome of a submission: every duplicate that was made to wait is answered once,
 * with the outcome that was recorded, or still waits; and exactly when a new submission is fed.
 */
module Waiters {
  import opened Common
  import opened Machine
  import opened Submissions

  /** A duplicate waits for the outcome of a submission. */
  predicate Waits(s: Ledger, sid: string, w: Waiter) {
    var i := Find(s.records, sid);
    i < |s.records| && w in s.records[i].waiters
  }

  function One(b: bool): nat {
    if b then 1 else 0
  }

  /** A step makes a duplicate wait that did not before. */
  predicate Joins(s: Ledger, op: Op, sid: string, w: Waiter) {
    && op.Submit? && op.sid == sid && w == Waiter(op.rid, op.attachment) && !Waits(s, sid, w)
    && var i := Find(s.records, sid);
       i < |s.records| && s.records[i].outcome.None? && |s.records[i].waiters| < MAX_WAITERS
  }

  /** A step answers a duplicate: it settles the record of the submission and has it among its answers. */
  predicate Answers(cap: nat, s: Ledger, op: Op, sid: string, w: Waiter) {
    var (t, reply) := Step(cap, s, op);
    && reply.Settled? && w in reply.answers
    && var i := Find(s.records, sid);
       && i < |s.records| && s.records[i].outcome.None?
       && i < |t.records| && t.records[i].sid == sid && t.records[i].outcome == Some(reply.outcome)
  }

  function Joined(cap: nat, s: Ledger, ops: seq<Op>, sid: string, w: Waiter): (n: nat)
    decreases |ops|
  {
    if ops == [] then 0 else One(Joins(s, ops[0], sid, w)) + Joined(cap, Step(cap, s, ops[0]).0, ops[1..], sid, w)
  }

  function Answered(cap: nat, s: Ledger, ops: seq<Op>, sid: string, w: Waiter): (n: nat)
    decreases |ops|
  {
    if ops == [] then 0 else One(Answers(cap, s, ops[0], sid, w)) + Answered(cap, Step(cap, s, ops[0]).0, ops[1..], sid, w)
  }

  /** Nobody waits for a record that has its outcome, and nobody waits twice. */
  ghost predicate Tidy(s: Ledger) {
    && Distinct(s.records)
    && forall i {:trigger s.records[i]} :: 0 <= i < |s.records| ==>
         && (s.records[i].outcome.Some? ==> s.records[i].waiters == [])
         && |s.records[i].waiters| <= MAX_WAITERS
  }

  lemma FindIs(rs: seq<Record>, i: nat)
    requires Distinct(rs) && i < |rs|
    ensures Find(rs, rs[i].sid) == i
  {
    var j := Find(rs, rs[i].sid);
    assert j < |rs| && rs[j].sid == rs[i].sid;
  }

  /** Replacing a record by one of the same submission changes only who waits for that one. */
  lemma ReplacedWaits(s: Ledger, i: nat, r: Record, sid: string, w: Waiter)
    requires Distinct(s.records) && i < |s.records| && r.sid == s.records[i].sid
    ensures var t := s.records[i := r];
            && Distinct(t) && Find(t, sid) == Find(s.records, sid)
            && (Find(s.records, sid) < |s.records| ==>
              t[Find(s.records, sid)] == if sid == r.sid then r else s.records[Find(s.records, sid)])
  {
    var t := s.records[i := r];
    FindIs(s.records, i);
    var j := Find(s.records, sid);
    if j < |s.records| {
      assert t[j].sid == sid;
      FindIs(t, j);
    }
  }

  /** Evicting a settled record takes nobody's place. */
  lemma EvictionWaits(s: Ledger, e: nat, sid: string, w: Waiter)
    requires Tidy(s) && e < |s.records| && s.records[e].outcome.Some?
    ensures var t := s.(records := Without(s.records, e)); Tidy(t) && (Waits(t, sid, w) <==> Waits(s, sid, w))
  {
    var rs, ts := s.records, Without(s.records, e);
    forall j | 0 <= j < |ts|
      ensures ts[j] == rs[if j < e then j else j + 1]
    {
      WithoutAt(rs, e, j);
    }
    var i := Find(rs, sid);
    if i < |rs| && i != e {
      var j := if i < e then i else i - 1;
      assert ts[j] == rs[i];
      FindIs(ts, j);
    }
  }

  lemma AddedWaits(s: Ledger, r: Record, sid: string, w: Waiter)
    requires Tidy(s) && Find(s.records, r.sid) == |s.records| && r.waiters == [] && r.outcome.None?
    ensures var t := s.(records := s.records + [r]); Tidy(t) && (Waits(t, sid, w) <==> Waits(s, sid, w))
  {
    var t := s.records + [r];
    var i := Find(s.records, sid);
    if i < |s.records| {
      assert t[i] == s.records[i];
      FindIs(t, i);
    }
  }

  lemma OpenedWaits(cap: nat, s: Ledger, sub: string, rid: Rid, feed: Feed, sid: string, w: Waiter)
    requires Tidy(s) && Find(s.records, sub) == |s.records|
    ensures var t := Opened(cap, s, sub, rid, feed).0; Tidy(t) && (Waits(t, sid, w) <==> Waits(s, sid, w))
  {
    var r := Roomy(cap, s);
    if r.Some? {
      var e := FirstSettled(s.records);
      if |s.records| >= cap {
        EvictionWaits(s, e, sid, w);
        if Find(r.value.records, sub) < |r.value.records| {
          WithoutAt(s.records, e, Find(r.value.records, sub));
        }
      }
      var u := s.(records := r.value.records);
      AddedWaits(u, Record(sub, rid, None, [], s.next), sid, w);
    }
  }

  lemma RepeatedWaits(s: Ledger, i: nat, rid: Rid, attachment: nat, sid: string, w: Waiter)
    requires Tidy(s) && i < |s.records|
    ensures var t := Repeated(s, i, rid, attachment).0;
            var joins := sid == s.records[i].sid && w == Waiter(rid, attachment) && !Waits(s, sid, w)
                         && s.records[i].outcome.None? && |s.records[i].waiters| < MAX_WAITERS;
            Tidy(t) && One(Waits(t, sid, w)) == One(Waits(s, sid, w)) + One(joins)
  {
    FindIs(s.records, i);
    var r := s.records[i].(waiters := s.records[i].waiters + [Waiter(rid, attachment)]);
    ReplacedWaits(s, i, r, sid, w);
  }

  lemma RespondedWaits(cap: nat, s: Ledger, k: nat, body: Option<string>, sid: string, w: Waiter)
    requires Tidy(s) && k < |s.flight|
    ensures var t := Responded(s, k, body).0;
            Tidy(t) && One(Waits(t, sid, w)) + One(Answers(cap, s, Respond(k, body), sid, w)) == One(Waits(s, sid, w))
  {
    var q := s.flight[k];
    if q.rid.Some? && body.Some? {
      var i := FirstMatch(s.records, q.rid.value);
      if i < |s.records| {
        var r := s.records[i].(outcome := OutcomeOf(body, q.number), waiters := []);
        var t := Responded(s, k, body).0;
        assert t.records == s.records[i := r];
        FindIs(s.records, i);
        ReplacedWaits(s, i, r, sid, w);
        assert Waits(t, sid, w) <==> Waits(s, sid, w) && sid != r.sid;
      }
    }
  }

  lemma StepWaits(cap: nat, s: Ledger, op: Op, sid: string, w: Waiter)
    requires Tidy(s)
    ensures var t := Step(cap, s, op).0;
            && Tidy(t)
            && One(Waits(s, sid, w)) + One(Joins(s, op, sid, w)) == One(Answers(cap, s, op, sid, w)) + One(Waits(t, sid, w))
  {
    match op
    case Submit(sub, rid, attachment, feed) =>
      var i := Find(s.records, sub);
      if i < |s.records| {
        RepeatedWaits(s, i, rid, attachment, sid, w);
      } else {
        OpenedWaits(cap, s, sub, rid, feed, sid, w);
      }
    case Respond(k, body) =>
      if k < |s.flight| {
        RespondedWaits(cap, s, k, body, sid, w);
      }
    case Other(_) =>
  }

  lemma {:induction false} RunWaits(cap: nat, s: Ledger, ops: seq<Op>, sid: string, w: Waiter)
    requires Tidy(s)
    ensures var t := Run(Stepper(cap), s, ops).0;
            One(Waits(s, sid, w)) + Joined(cap, s, ops, sid, w) == Answered(cap, s, ops, sid, w) + One(Waits(t, sid, w))
    decreases |ops|
  {
    if ops != [] {
      StepWaits(cap, s, ops[0], sid, w);
      RunWaits(cap, Step(cap, s, ops[0]).0, ops[1..], sid, w);
    }
  }

  /**
   * In every run: as often as a duplicate was made to wait for a submission, it was answered in the
   * very step that recorded the outcome, but for the last time if it still waits.
   */
  lemma WaitersAreAnswered(cap: nat, ops: seq<Op>, sid: string, w: Waiter)
    ensures var t := Run(Stepper(cap), Empty, ops).0;
            Joined(cap, Empty, ops, sid, w) == Answered(cap, Empty, ops, sid, w) + One(Waits(t, sid, w))
  {
    RunWaits(cap, Empty, ops, sid, w);
  }

  lemma {:induction false} RunIsTidy(cap: nat, s: Ledger, ops: seq<Op>)
    requires Tidy(s)
    ensures Tidy(Run(Stepper(cap), s, ops).0)
    decreases |ops|
  {
    if ops != [] {
      StepWaits(cap, s, ops[0], "", Waiter(None, 0));
      RunIsTidy(cap, Step(cap, s, ops[0]).0, ops[1..]);
    }
  }

  /**
   * In every run at most eight duplicates wait for a record, and a further one is dropped if and only if
   * eight others wait.
   */
  lemma EightMayWait(cap: nat, ops: seq<Op>, sid: string, rid: Rid, attachment: nat, feed: Feed)
    ensures var s := Run(Stepper(cap), Empty, ops).0;
            var i := Find(s.records, sid);
            && (forall k :: 0 <= k < |s.records| ==> |s.records[k].waiters| <= 8)
            && (i < |s.records| && s.records[i].outcome.None? ==>
                  var reply := Step(cap, s, Submit(sid, rid, attachment, feed)).1;
                  reply == if |s.records[i].waiters| == 8 && Waiter(rid, attachment) !in s.records[i].waiters then Dropped else Waiting)
  {
    RunIsTidy(cap, Empty, ops);
  }

  /**
   * A submission without a record that Hermes accepts is fed if and only if there is a free place or
   * a settled record to give way: then it is in flight under its own number, with a record that waits.
   */
  lemma FedIffRoom(cap: nat, s: Ledger, sid: string, rid: Rid, attachment: nat)
    requires Find(s.records, sid) == |s.records|
    ensures var (t, reply) := Step(cap, s, Submit(sid, rid, attachment, Accepted));
            var room := |s.records| < cap || exists i :: 0 <= i < |s.records| && s.records[i].outcome.Some?;
            && (reply == if room then Forwarded else Exhausted)
            && (room ==>
                  && t.flight == s.flight + [Request(s.next, rid)] && |t.log| > 0 && t.log[|t.log| - 1] == Fed(sid, s.next)
                  && |t.records| > 0 && t.records[|t.records| - 1] == Record(sid, rid, None, [], s.next))
            && (!room ==> t.flight == s.flight && t.records == s.records && t.log == s.log)
  {
  }
}
