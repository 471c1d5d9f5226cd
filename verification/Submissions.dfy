/**
 * Deduplication of `prompt.submit`: the ledger that decides whether a submission reaches
 * Hermes, waits for the outcome of the first one, or is answered with it.
 *
 * Requests are numbered in the order in which they arrive; the number of the request that
 * created a record, and that of the request Hermes answered, tell where an outcome came from.
 * The log of feeds and evictions influences no step.
 */
module Submissions {
  import opened Common
  import opened Machine

  const MAX_WAITERS := 8

  /** What Hermes answered, and to which request. */
  datatype Outcome = Outcome(body: string, to: nat)

  /** A JSON-RPC identifier; a request may lack one, a response to be matched may not. */
  type Rid = Option<string>

  /** A duplicate waiting for the outcome: its own request id and its attachment. */
  datatype Waiter = Waiter(rid: Rid, attachment: nat)

  datatype Record = Record(sid: string, rid: Rid, outcome: Option<Outcome>, waiters: seq<Waiter>, number: nat)

  /** A request that reached Hermes and is not answered yet. */
  datatype Request = Request(number: nat, rid: Rid)

  datatype Entry = Fed(sid: string, number: nat) | Refused(sid: string, number: nat) | Evicted(record: Record)

  /** The ledger, the requests in flight, the next request number and the log. */
  datatype Ledger = Ledger(records: seq<Record>, flight: seq<Request>, next: nat, log: seq<Entry>)

  /** How the inner socket took the text: accepted, a transport error, or refused by the method policy. */
  datatype Feed = Accepted | TransportError | PolicyError

  datatype Reply =
    | Forwarded | ForwardFailed(feed: Feed) | Exhausted | Waiting | Dropped
    | Answered(rid: Rid, outcome: Outcome) | Settled(answers: seq<Waiter>, outcome: Outcome) | Unmatched

  /** The position of the record of a submission, if it has one. */
  function Find(rs: seq<Record>, sid: string): (i: nat)
    ensures i <= |rs| && (i < |rs| ==> rs[i].sid == sid)
    ensures forall j :: 0 <= j < i ==> rs[j].sid != sid
  {
    if rs == [] then 0 else if rs[0].sid == sid then 0 else 1 + Find(rs[1..], sid)
  }

  /** The first record with an outcome, which is the one to evict. */
  function FirstSettled(rs: seq<Record>): (i: nat)
    ensures i <= |rs| && (i < |rs| ==> rs[i].outcome.Some?)
    ensures forall j :: 0 <= j < i ==> rs[j].outcome.None?
  {
    if rs == [] then 0 else if rs[0].outcome.Some? then 0 else 1 + FirstSettled(rs[1..])
  }

  /** The first record that still waits for a response with this id. */
  function FirstMatch(rs: seq<Record>, rid: string): (i: nat)
    ensures i <= |rs| && (i < |rs| ==> rs[i].outcome.None? && rs[i].rid == Some(rid))
    ensures forall j :: 0 <= j < i ==> !(rs[j].outcome.None? && rs[j].rid == Some(rid))
  {
    if rs == [] then 0 else if rs[0].outcome.None? && rs[0].rid == Some(rid) then 0 else 1 + FirstMatch(rs[1..], rid)
  }

  function Without<T>(s: seq<T>, i: nat): (r: seq<T>)
    requires i < |s|
    ensures |r| == |s| - 1
  {
    s[..i] + s[i + 1..]
  }

  /** Make room for one more record; nothing to evict means the ledger is exhausted. */
  function Roomy(cap: nat, s: Ledger): (r: Option<Ledger>) {
    if |s.records| < cap then Some(s)
    else
      var i := FirstSettled(s.records);
      if i == |s.records| then None
      else Some(s.(records := Without(s.records, i), log := s.log + [Evicted(s.records[i])]))
  }

  /** A submission without a record: recorded, then forwarded to Hermes. */
  function Opened(cap: nat, s: Ledger, sid: string, rid: Rid, feed: Feed): (r: (Ledger, Reply)) {
    match Roomy(cap, s)
    case None => (s.(next := s.next + 1), Exhausted)
    case Some(t) =>
      var added := t.(next := s.next + 1, records := t.records + [Record(sid, rid, None, [], s.next)]);
      match feed
      case Accepted =>
        (added.(flight := t.flight + [Request(s.next, rid)], log := t.log + [Fed(sid, s.next)]), Forwarded)
      case TransportError => (t.(next := s.next + 1), ForwardFailed(feed))
      case PolicyError => (added.(log := t.log + [Refused(sid, s.next)]), ForwardFailed(feed))
  }

  /** A submission with a record: answered from it, or made to wait for it. */
  function Repeated(s: Ledger, i: nat, rid: Rid, attachment: nat): (r: (Ledger, Reply))
    requires i < |s.records|
  {
    var rec := s.records[i];
    var s' := s.(next := s.next + 1);
    if rec.outcome.Some? then (s', Answered(rid, rec.outcome.value))
    else if Waiter(rid, attachment) in rec.waiters then (s', Waiting)
    else if |rec.waiters| < MAX_WAITERS then
      (s'.(records := s.records[i := rec.(waiters := rec.waiters + [Waiter(rid, attachment)])]), Waiting)
    else (s', Dropped)
  }

  function Submitted(cap: nat, s: Ledger, sid: string, rid: Rid, attachment: nat, feed: Feed): (r: (Ledger, Reply)) {
    var i := Find(s.records, sid);
    if i < |s.records| then Repeated(s, i, rid, attachment) else Opened(cap, s, sid, rid, feed)
  }

  /** Any other request that reaches Hermes. */
  function Forward(s: Ledger, rid: Rid): Ledger {
    s.(next := s.next + 1, flight := s.flight + [Request(s.next, rid)])
  }

  /**
   * A response settles the first waiting record with its id and answers the waiters of that record;
   * one with neither a result nor an error leaves it waiting.
   */
  function Recorded(s: Ledger, rid: string, outcome: Option<Outcome>): (r: (Ledger, Reply)) {
    var i := FirstMatch(s.records, rid);
    if i == |s.records| || outcome.None? then (s, Unmatched)
    else
      (s.(records := s.records[i := s.records[i].(outcome := outcome, waiters := [])]),
       Settled(s.records[i].waiters, outcome.value))
  }

  /** Hermes answers the request at position k of those in flight, with a result or error, or with neither. */
  function Responded(s: Ledger, k: nat, body: Option<string>): (r: (Ledger, Reply))
    requires k < |s.flight|
  {
    var q := s.flight[k];
    var s' := s.(flight := Without(s.flight, k));
    if q.rid.None? then (s', Unmatched) else Recorded(s', q.rid.value, OutcomeOf(body, q.number))
  }

  function OutcomeOf(body: Option<string>, number: nat): Option<Outcome> {
    if body.Some? then Some(Outcome(body.value, number)) else None
  }

  datatype Op =
    | Submit(sid: string, rid: Rid, attachment: nat, feed: Feed)
    | Other(rid: Rid)
    | Respond(k: nat, body: Option<string>)

  function Step(cap: nat, s: Ledger, op: Op): (r: (Ledger, Reply)) {
    match op
    case Submit(sid, rid, attachment, feed) => Submitted(cap, s, sid, rid, attachment, feed)
    case Other(rid) => (Forward(s, rid), Forwarded)
    case Respond(k, body) => if k < |s.flight| then Responded(s, k, body) else (s, Unmatched)
  }

  function Stepper(cap: nat): (Ledger, Op) -> (Ledger, Reply) {
    (s, op) => Step(cap, s, op)
  }

  const Empty := Ledger([], [], 0, [])

  // ---------------------------------------------------------- conservation

  /** How often a submission was taken up: fed to Hermes, or refused with its record kept. */
  function Taken(log: seq<Entry>, sid: string): (n: nat) {
    if log == [] then 0
    else
      var e := log[|log| - 1];
      Taken(log[..|log| - 1], sid) + (if (e.Fed? || e.Refused?) && e.sid == sid then 1 else 0)
  }

  function FedCount(log: seq<Entry>, sid: string): (n: nat)
    ensures n <= Taken(log, sid)
  {
    if log == [] then 0
    else
      var e := log[|log| - 1];
      FedCount(log[..|log| - 1], sid) + (if e.Fed? && e.sid == sid then 1 else 0)
  }

  function EvictedCount(log: seq<Entry>, sid: string): (n: nat) {
    if log == [] then 0
    else
      var e := log[|log| - 1];
      EvictedCount(log[..|log| - 1], sid) + (if e.Evicted? && e.record.sid == sid then 1 else 0)
  }

  ghost predicate Distinct(rs: seq<Record>) {
    forall i, j {:trigger rs[i], rs[j]} :: 0 <= i < j < |rs| ==> rs[i].sid != rs[j].sid
  }

  function Held(rs: seq<Record>, sid: string): (n: nat) {
    if Find(rs, sid) < |rs| then 1 else 0
  }

  ghost predicate Balanced(s: Ledger, sid: string) {
    Taken(s.log, sid) == EvictedCount(s.log, sid) + Held(s.records, sid)
  }

  ghost predicate Inv(cap: nat, s: Ledger) {
    && |s.records| <= cap && Distinct(s.records)
    && (forall sid {:trigger Balanced(s, sid)} :: Balanced(s, sid))
    && (forall i {:trigger s.log[i]} :: 0 <= i < |s.log| && s.log[i].Evicted? ==> s.log[i].record.outcome.Some?)
  }

  lemma LogSnoc(log: seq<Entry>, e: Entry, sid: string)
    ensures Taken(log + [e], sid) == Taken(log, sid) + (if (e.Fed? || e.Refused?) && e.sid == sid then 1 else 0)
    ensures EvictedCount(log + [e], sid) == EvictedCount(log, sid) + (if e.Evicted? && e.record.sid == sid then 1 else 0)
    ensures FedCount(log + [e], sid) == FedCount(log, sid) + (if e.Fed? && e.sid == sid then 1 else 0)
  {
    assert (log + [e])[..|log|] == log;
  }

  lemma HeldIff(rs: seq<Record>, sid: string)
    ensures Held(rs, sid) == 1 <==> exists i :: 0 <= i < |rs| && rs[i].sid == sid
  {
  }

  lemma EvictionKeeps(s: Ledger, i: nat, t: Ledger)
    requires Distinct(s.records) && i < |s.records|
    requires t == s.(records := Without(s.records, i), log := s.log + [Evicted(s.records[i])])
    ensures Distinct(t.records)
    ensures forall sid :: Balanced(s, sid) ==> Balanced(t, sid)
  {
    forall sid | Balanced(s, sid)
      ensures Balanced(t, sid)
    {
      LogSnoc(s.log, Evicted(s.records[i]), sid);
      WithoutHeld(s.records, i, sid);
    }
  }

  lemma WithoutHeld(rs: seq<Record>, i: nat, sid: string)
    requires Distinct(rs) && i < |rs|
    ensures Distinct(Without(rs, i))
    ensures Held(Without(rs, i), sid) == Held(rs, sid) - if rs[i].sid == sid then 1 else 0
  {
    var w := Without(rs, i);
    HeldIff(rs, sid);
    HeldIff(w, sid);
    forall j | 0 <= j < |w|
      ensures w[j] == rs[if j < i then j else j + 1]
    {
    }
    if j :| 0 <= j < |rs| && rs[j].sid == sid && j != i {
      assert w[if j < i then j else j - 1].sid == sid;
    }
  }

  lemma AppendHeld(rs: seq<Record>, r: Record, sid: string)
    requires Distinct(rs) && Held(rs, r.sid) == 0
    ensures Distinct(rs + [r])
    ensures Held(rs + [r], sid) == Held(rs, sid) + if r.sid == sid then 1 else 0
  {
    var w := rs + [r];
    HeldIff(rs, r.sid);
    HeldIff(rs, sid);
    HeldIff(w, sid);
    if r.sid == sid {
      assert w[|rs|].sid == sid;
    }
    if j :| 0 <= j < |rs| && rs[j].sid == sid {
      assert w[j].sid == sid;
    }
  }

  lemma UpdateHeld(rs: seq<Record>, i: nat, r: Record, sid: string)
    requires Distinct(rs) && i < |rs| && r.sid == rs[i].sid
    ensures Distinct(rs[i := r]) && Held(rs[i := r], sid) == Held(rs, sid)
  {
    var w := rs[i := r];
    HeldIff(rs, sid);
    HeldIff(w, sid);
    assert forall j :: 0 <= j < |rs| ==> w[j].sid == rs[j].sid;
  }

  /** Making room keeps the books, and the room is there. */
  lemma RoomyKeeps(cap: nat, s: Ledger)
    requires cap > 0 && Inv(cap, s) && Roomy(cap, s).Some?
    ensures Inv(cap, Roomy(cap, s).value) && |Roomy(cap, s).value.records| < cap
    ensures var t := Roomy(cap, s).value;
            && t.flight == s.flight && t.next == s.next
            && (forall sid :: Held(s.records, sid) == 0 ==> Held(t.records, sid) == 0)
  {
    var i := FirstSettled(s.records);
    if |s.records| >= cap && i < |s.records| {
      var t := Roomy(cap, s).value;
      EvictionKeeps(s, i, t);
      forall sid | Held(s.records, sid) == 0
        ensures Held(t.records, sid) == 0
      {
        WithoutHeld(s.records, i, sid);
      }
      forall sid
        ensures Balanced(t, sid)
      {
        assert Balanced(s, sid);
      }
    }
  }

  lemma AddKeeps(cap: nat, t: Ledger, r: Record, e: Entry, u: Ledger)
    requires Inv(cap, t) && |t.records| < cap && Held(t.records, r.sid) == 0
    requires (e.Fed? || e.Refused?) && e.sid == r.sid
    requires u.records == t.records + [r] && u.log == t.log + [e]
    ensures Inv(cap, u)
  {
    forall sid
      ensures Balanced(u, sid)
    {
      assert Balanced(t, sid);
      LogSnoc(t.log, e, sid);
      AppendHeld(t.records, r, sid);
    }
    AppendHeld(t.records, r, r.sid);
  }

  lemma ReplaceKeeps(cap: nat, s: Ledger, i: nat, r: Record, u: Ledger)
    requires Inv(cap, s) && i < |s.records| && r.sid == s.records[i].sid
    requires u.records == s.records[i := r] && u.log == s.log
    ensures Inv(cap, u)
  {
    forall sid
      ensures Balanced(u, sid)
    {
      assert Balanced(s, sid);
      UpdateHeld(s.records, i, r, sid);
    }
    UpdateHeld(s.records, i, r, r.sid);
  }

  lemma SameBooks(cap: nat, s: Ledger, u: Ledger)
    requires Inv(cap, s) && u.records == s.records && u.log == s.log
    ensures Inv(cap, u)
  {
    forall sid
      ensures Balanced(u, sid)
    {
      assert Balanced(s, sid);
    }
  }

  lemma OpenedKeeps(cap: nat, s: Ledger, sid: string, rid: Rid, feed: Feed)
    requires cap > 0 && Inv(cap, s) && Held(s.records, sid) == 0
    ensures Inv(cap, Opened(cap, s, sid, rid, feed).0)
  {
    var u := Opened(cap, s, sid, rid, feed).0;
    if Roomy(cap, s).None? {
      SameBooks(cap, s, u);
    } else {
      RoomyKeeps(cap, s);
      var t := Roomy(cap, s).value;
      match feed
      case TransportError => SameBooks(cap, t, u);
      case Accepted => AddKeeps(cap, t, Record(sid, rid, None, [], s.next), Fed(sid, s.next), u);
      case PolicyError => AddKeeps(cap, t, Record(sid, rid, None, [], s.next), Refused(sid, s.next), u);
    }
  }

  lemma StepKeeps(cap: nat, s: Ledger, op: Op)
    requires cap > 0 && Inv(cap, s)
    ensures Inv(cap, Step(cap, s, op).0)
  {
    var u := Step(cap, s, op).0;
    match op
    case Submit(sid, rid, attachment, feed) =>
      var i := Find(s.records, sid);
      if i == |s.records| {
        OpenedKeeps(cap, s, sid, rid, feed);
      } else if u.records == s.records {
        SameBooks(cap, s, u);
      } else {
        var r := s.records[i];
        ReplaceKeeps(cap, s, i, r.(waiters := r.waiters + [Waiter(rid, attachment)]), u);
      }
    case Other(rid) => SameBooks(cap, s, u);
    case Respond(k, body) =>
      if u.records == s.records {
        SameBooks(cap, s, u);
      } else {
        var i := FirstMatch(s.records, s.flight[k].rid.value);
        ReplaceKeeps(cap, s, i, s.records[i].(outcome := OutcomeOf(body, s.flight[k].number), waiters := []), u);
      }
  }

  /**
   * In every run: the table stays within its cap with one record per submission, only records
   * with an outcome are evicted, and a submission is fed to Hermes at most once more often than
   * its record was evicted; so never twice while the record is retained.
   */
  lemma FedAtMostOnce(cap: nat, ops: seq<Op>, sid: string)
    requires cap > 0
    ensures var s := Run(Stepper(cap), Empty, ops).0;
            && |s.records| <= cap && Distinct(s.records)
            && (forall i {:trigger s.log[i]} :: 0 <= i < |s.log| && s.log[i].Evicted? ==> s.log[i].record.outcome.Some?)
            && Taken(s.log, sid) == EvictedCount(s.log, sid) + Held(s.records, sid)
            && FedCount(s.log, sid) <= EvictedCount(s.log, sid) + 1
  {
    var inv := (s: Ledger) => Inv(cap, s);
    forall s, op | inv(s)
      ensures inv(Stepper(cap)(s, op).0)
    {
      StepKeeps(cap, s, op);
    }
    forall id
      ensures Balanced(Empty, id)
    {
    }
    RunInvariant(Stepper(cap), inv, Empty, ops);
    assert Balanced(Run(Stepper(cap), Empty, ops).0, sid);
  }

  // -------------------------------------------------------------- outcomes

  /** A later record is new, or continues an earlier one whose outcome, once there, it keeps. */
  ghost predicate Continues(s: Ledger, r: Record) {
    r.number >= s.next
    || exists i :: 0 <= i < |s.records| && Succeeds(s.records[i], r)
  }

  ghost predicate Succeeds(q: Record, r: Record) {
    && q.number == r.number && q.sid == r.sid && q.rid == r.rid
    && (q.outcome.Some? ==> r.outcome == q.outcome)
  }

  ghost predicate Evolves(s: Ledger, t: Ledger) {
    s.next <= t.next && forall j {:trigger t.records[j]} :: 0 <= j < |t.records| ==> Continues(s, t.records[j])
  }

  lemma StepEvolves(cap: nat, s: Ledger, op: Op)
    ensures Evolves(s, Step(cap, s, op).0)
  {
    var t := Step(cap, s, op).0;
    forall j | 0 <= j < |t.records|
      ensures Continues(s, t.records[j])
    {
      if t.records[j].number < s.next {
        var i := Origin(cap, s, op, j);
        assert Succeeds(s.records[i], t.records[j]);
      }
    }
  }

  /** The position in the earlier table from which a record of the later one came. */
  lemma Origin(cap: nat, s: Ledger, op: Op, j: nat) returns (i: nat)
    requires j < |Step(cap, s, op).0.records| && Step(cap, s, op).0.records[j].number < s.next
    ensures i < |s.records| && Succeeds(s.records[i], Step(cap, s, op).0.records[j])
  {
    if op.Submit? && Find(s.records, op.sid) == |s.records| {
      i := OriginOfOpened(cap, s, op.sid, op.rid, op.feed, j);
    } else {
      i := j;
    }
  }

  lemma OriginOfOpened(cap: nat, s: Ledger, sid: string, rid: Rid, feed: Feed, j: nat) returns (i: nat)
    requires var t := Opened(cap, s, sid, rid, feed).0; j < |t.records| && t.records[j].number < s.next
    ensures i < |s.records| && s.records[i] == Opened(cap, s, sid, rid, feed).0.records[j]
  {
    i := j;
    var e := FirstSettled(s.records);
    if |s.records| >= cap && e < |s.records| {
      i := if j < e then j else j + 1;
      assert j < |Without(s.records, e)| ==> Without(s.records, e)[j] == s.records[i];
    }
  }

  lemma EvolvesTransitive(s: Ledger, t: Ledger, u: Ledger)
    requires Evolves(s, t) && Evolves(t, u)
    ensures Evolves(s, u)
  {
    forall j | 0 <= j < |u.records|
      ensures Continues(s, u.records[j])
    {
      if u.records[j].number < t.next {
        assert Continues(t, u.records[j]);
        var i :| 0 <= i < |t.records| && Succeeds(t.records[i], u.records[j]);
        assert Continues(s, t.records[i]);
        if t.records[i].number < s.next {
          var h :| 0 <= h < |s.records| && Succeeds(s.records[h], t.records[i]);
          assert Succeeds(s.records[h], u.records[j]);
        }
      }
    }
  }

  lemma {:induction false} RunEvolves(step: (Ledger, Op) -> (Ledger, Reply), s: Ledger, ops: seq<Op>)
    requires forall t, op {:trigger step(t, op)} :: Evolves(t, step(t, op).0)
    ensures Evolves(s, Run(step, s, ops).0)
    decreases |ops|
  {
    if ops == [] {
      forall j | 0 <= j < |s.records|
        ensures Continues(s, s.records[j])
      {
        assert Succeeds(s.records[j], s.records[j]);
      }
    } else {
      RunEvolves(step, step(s, ops[0]).0, ops[1..]);
      EvolvesTransitive(s, step(s, ops[0]).0, Run(step, s, ops).0);
    }
  }

  /** A recorded outcome never changes: whatever follows, its record keeps it for as long as it is there. */
  lemma OutcomeIsFinal(cap: nat, s: Ledger, ops: seq<Op>)
    ensures Evolves(s, Run(Stepper(cap), s, ops).0)
  {
    forall t, op
      ensures Evolves(t, Stepper(cap)(t, op).0)
    {
      StepEvolves(cap, t, op);
    }
    RunEvolves(Stepper(cap), s, ops);
  }

  /** Every duplicate of a settled submission is answered with its outcome and reaches neither Hermes nor the log. */
  lemma DuplicateIsAnswered(cap: nat, s: Ledger, sid: string, rid: Rid, attachment: nat, feed: Feed)
    requires Find(s.records, sid) < |s.records|
    ensures var (t, reply) := Submitted(cap, s, sid, rid, attachment, feed);
            var r := s.records[Find(s.records, sid)];
            && t.flight == s.flight && t.log == s.log && |t.records| == |s.records|
            && (r.outcome.Some? ==> reply == Answered(rid, r.outcome.value))
            && (r.outcome.None? ==>
                  (Waiter(rid, attachment) in t.records[Find(s.records, sid)].waiters && reply == Waiting)
                  || (|r.waiters| >= MAX_WAITERS && t.records == s.records && reply == Dropped))
  {
  }

  // ---------------------------------------------------------------- origin

  /** Every recorded outcome answers the request that made the record. */
  ghost predicate Genuine(s: Ledger) {
    forall i {:trigger s.records[i]} :: 0 <= i < |s.records| && s.records[i].outcome.Some? ==>
      s.records[i].outcome.value.to == s.records[i].number
  }

  /** Every recorded outcome is genuine, and so is every one that the next response can record. */
  ghost predicate Safe(s: Ledger) {
    Genuine(s) && forall k, body {:trigger Responded(s, k, body)} :: 0 <= k < |s.flight| ==> Genuine(Responded(s, k, body).0)
  }

  /** The first record that waits for the id of a request in flight, if there is one, is the record of that request. */
  ghost predicate Aligned(s: Ledger) {
    forall k {:trigger s.flight[k]} :: 0 <= k < |s.flight| && s.flight[k].rid.Some? ==> Attributed(s.records, s.flight[k])
  }

  predicate Attributed(rs: seq<Record>, q: Request)
    requires q.rid.Some?
  {
    var i := FirstMatch(rs, q.rid.value);
    i < |rs| ==> rs[i].number == q.number
  }

  /** Requests carry different numbers, all smaller than the next one. */
  ghost predicate Numbered(s: Ledger) {
    && (forall k, l {:trigger s.flight[k], s.flight[l]} :: 0 <= k < l < |s.flight| ==> s.flight[k].number != s.flight[l].number)
    && (forall k {:trigger s.flight[k]} :: 0 <= k < |s.flight| ==> s.flight[k].number < s.next)
    && (forall i {:trigger s.records[i]} :: 0 <= i < |s.records| ==> s.records[i].number < s.next)
  }

  /** Some record waits for a response with this id. */
  predicate Awaited(s: Ledger, rid: string) {
    exists i :: 0 <= i < |s.records| && s.records[i].outcome.None? && s.records[i].rid == Some(rid)
  }

  /** Some request in flight has this id. */
  predicate InFlight(s: Ledger, rid: string) {
    exists k :: 0 <= k < |s.flight| && s.flight[k].rid == Some(rid)
  }

  /**
   * Ids are used with care: a submission that reaches Hermes has an id that no waiting record and
   * no request in flight uses, one that the policy refuses does not newly claim the id of a request
   * in flight, and any other request has an id that no record waits for. A request without an id
   * is always fine. A response with neither result nor error leaves its record waiting, so its id
   * stays taken.
   */
  predicate Careful(cap: nat, s: Ledger, op: Op) {
    match op
    case Submit(sid, rid, _, feed) =>
      Find(s.records, sid) < |s.records| || rid.None? || Roomy(cap, s).None? ||
      (match feed
       case Accepted => !Awaited(s, rid.value) && !InFlight(s, rid.value)
       case TransportError => true
       case PolicyError => Awaited(s, rid.value) || !InFlight(s, rid.value))
    case Other(rid) => rid.None? || !Awaited(s, rid.value)
    case Respond(_, _) => true
  }

  /** The next response is right, whichever it is, exactly when requests and waiting records are aligned. */
  lemma SafeIffAligned(s: Ledger)
    requires Genuine(s)
    ensures Safe(s) <==> Aligned(s)
  {
    forall k, body | 0 <= k < |s.flight|
      ensures Genuine(Responded(s, k, body).0) <==> (s.flight[k].rid.Some? && body.Some? ==> Attributed(s.records, s.flight[k]))
    {
      ResponseIsGenuineIff(s, k, body);
    }
    if Safe(s) {
      forall k | 0 <= k < |s.flight| && s.flight[k].rid.Some?
        ensures Attributed(s.records, s.flight[k])
      {
        assert Genuine(Responded(s, k, Some("")).0);
      }
    }
  }

  lemma ResponseIsGenuineIff(s: Ledger, k: nat, body: Option<string>)
    requires Genuine(s) && k < |s.flight|
    ensures Genuine(Responded(s, k, body).0) <==> (s.flight[k].rid.Some? && body.Some? ==> Attributed(s.records, s.flight[k]))
  {
    if s.flight[k].rid.Some? && body.Some? {
      var i := FirstMatch(s.records, s.flight[k].rid.value);
      if i < |s.records| {
        assert Responded(s, k, body).0.records[i].outcome == Some(Outcome(body.value, s.flight[k].number));
      }
    }
  }

  lemma {:induction false} MatchAppend(rs: seq<Record>, r: Record, rid: string)
    ensures FirstMatch(rs + [r], rid) ==
              if FirstMatch(rs, rid) < |rs| then FirstMatch(rs, rid)
              else if r.outcome.None? && r.rid == Some(rid) then |rs| else |rs| + 1
  {
    if rs == [] {
      assert rs + [r] == [r] && [r][1..] == [];
    } else {
      assert (rs + [r])[1..] == rs[1..] + [r];
      MatchAppend(rs[1..], r, rid);
    }
  }

  /** Evicting a settled record attributes every request as before. */
  lemma EvictionAttributes(rs: seq<Record>, e: nat, q: Request)
    requires e < |rs| && rs[e].outcome.Some? && q.rid.Some?
    ensures Attributed(Without(rs, e), q) <==> Attributed(rs, q)
    ensures FirstMatch(Without(rs, e), q.rid.value) == |rs| - 1 <==> FirstMatch(rs, q.rid.value) == |rs|
  {
    EvictionMatch(rs, e, q.rid.value);
  }

  lemma WithoutAt<T>(s: seq<T>, i: nat, j: nat)
    requires i < |s| && j < |s| - 1
    ensures Without(s, i)[j] == s[if j < i then j else j + 1]
  {
  }

  /** The first match after an eviction is the first match before it. */
  lemma EvictionMatch(rs: seq<Record>, e: nat, rid: string)
    requires e < |rs| && rs[e].outcome.Some?
    ensures var i, j := FirstMatch(rs, rid), FirstMatch(Without(rs, e), rid);
            && (j == |rs| - 1 <==> i == |rs|)
            && (i < |rs| ==> j == (if i < e then i else i - 1) && Without(rs, e)[j] == rs[i])
  {
    var i := FirstMatch(rs, rid);
    var t := Without(rs, e);
    var j := if i < e then i else i - 1;
    forall l | 0 <= l < j
      ensures !(t[l].outcome.None? && t[l].rid == Some(rid))
    {
      WithoutAt(rs, e, l);
    }
    if i < |rs| {
      WithoutAt(rs, e, j);
    }
    FirstMatchIsUnique(t, rid, j);
  }

  lemma RoomAttributes(cap: nat, s: Ledger, q: Request)
    requires Roomy(cap, s).Some? && q.rid.Some?
    ensures var t := Roomy(cap, s).value;
            && (Attributed(t.records, q) <==> Attributed(s.records, q))
            && (FirstMatch(t.records, q.rid.value) == |t.records| <==> FirstMatch(s.records, q.rid.value) == |s.records|)
  {
    if |s.records| >= cap {
      EvictionAttributes(s.records, FirstSettled(s.records), q);
    }
  }

  lemma AwaitedIffMatched(s: Ledger, rid: string)
    ensures Awaited(s, rid) <==> FirstMatch(s.records, rid) < |s.records|
  {
  }

  /** How a record added at the end changes the attribution of a request. */
  lemma AddedAttributes(rs: seq<Record>, r: Record, q: Request)
    requires q.rid.Some? && r.outcome.None?
    ensures Attributed(rs + [r], q) <==>
              if FirstMatch(rs, q.rid.value) < |rs| || r.rid != q.rid then Attributed(rs, q) else r.number == q.number
  {
    MatchAppend(rs, r, q.rid.value);
  }

  /** A submission that opens a record keeps ledgers aligned exactly when it is careful. */
  lemma OpenedAlignedIff(cap: nat, s: Ledger, sid: string, rid: Rid, feed: Feed)
    requires Aligned(s) && Numbered(s) && Find(s.records, sid) == |s.records|
    ensures Aligned(Opened(cap, s, sid, rid, feed).0) <==> Careful(cap, s, Submit(sid, rid, 0, feed))
  {
    var u := Opened(cap, s, sid, rid, feed).0;
    if Roomy(cap, s).Some? {
      var t := Roomy(cap, s).value;
      var r := Record(sid, rid, None, [], s.next);
      forall q: Request | q.rid.Some?
        ensures Attributed(t.records, q) <==> Attributed(s.records, q)
        ensures FirstMatch(t.records, q.rid.value) < |t.records| <==> Awaited(s, q.rid.value)
        ensures Attributed(t.records + [r], q) <==>
                  if Awaited(s, q.rid.value) || rid != q.rid then Attributed(s.records, q) else s.next == q.number
      {
        RoomAttributes(cap, s, q);
        AwaitedIffMatched(s, q.rid.value);
        AddedAttributes(t.records, r, q);
      }
      match feed
      case Accepted => AcceptedAlignedIff(s, u, t.records + [r], rid);
      case TransportError =>
      case PolicyError => RefusedAlignedIff(s, u, t.records + [r], rid);
    }
  }

  lemma AcceptedAlignedIff(s: Ledger, u: Ledger, rs: seq<Record>, rid: Rid)
    requires Aligned(s) && Numbered(s) && u.records == rs && u.flight == s.flight + [Request(s.next, rid)]
    requires forall q: Request {:trigger Attributed(rs, q)} :: q.rid.Some? ==>
               (Attributed(rs, q) <==> if Awaited(s, q.rid.value) || rid != q.rid then Attributed(s.records, q) else s.next == q.number)
    ensures Aligned(u) <==> rid.None? || (!Awaited(s, rid.value) && !InFlight(s, rid.value))
  {
    var n := |s.flight|;
    assert u.flight[n] == Request(s.next, rid) && forall k :: 0 <= k < n ==> u.flight[k] == s.flight[k];
    if rid.Some? && Awaited(s, rid.value) {
      AwaitedIffMatched(s, rid.value);
      assert !Attributed(s.records, u.flight[n]);
    } else if rid.Some? && InFlight(s, rid.value) {
      var k :| 0 <= k < n && s.flight[k].rid == Some(rid.value);
      assert !Attributed(rs, u.flight[k]);
    } else {
      forall k | 0 <= k <= n && u.flight[k].rid.Some?
        ensures Attributed(rs, u.flight[k])
      {
        if k < n {
          assert Attributed(s.records, s.flight[k]);
        }
      }
    }
  }

  lemma RefusedAlignedIff(s: Ledger, u: Ledger, rs: seq<Record>, rid: Rid)
    requires Aligned(s) && Numbered(s) && u.records == rs && u.flight == s.flight
    requires forall q: Request {:trigger Attributed(rs, q)} :: q.rid.Some? ==>
               (Attributed(rs, q) <==> if Awaited(s, q.rid.value) || rid != q.rid then Attributed(s.records, q) else s.next == q.number)
    ensures Aligned(u) <==> rid.None? || Awaited(s, rid.value) || !InFlight(s, rid.value)
  {
    if rid.Some? && !Awaited(s, rid.value) && InFlight(s, rid.value) {
      var k :| 0 <= k < |s.flight| && s.flight[k].rid == Some(rid.value);
      assert !Attributed(rs, u.flight[k]);
    } else {
      forall k | 0 <= k < |u.flight| && u.flight[k].rid.Some?
        ensures Attributed(rs, u.flight[k])
      {
        assert Attributed(s.records, s.flight[k]);
      }
    }
  }

  lemma ForwardAlignedIff(s: Ledger, rid: Rid)
    requires Aligned(s) && Numbered(s)
    ensures Aligned(Forward(s, rid)) <==> rid.None? || !Awaited(s, rid.value)
  {
    var u := Forward(s, rid);
    var n := |s.flight|;
    assert u.flight[n] == Request(s.next, rid) && forall k :: 0 <= k < n ==> u.flight[k] == s.flight[k];
    if rid.Some? {
      AwaitedIffMatched(s, rid.value);
      assert Attributed(s.records, u.flight[n]) <==> !Awaited(s, rid.value);
    }
  }

  /** Settling the first record of an id leaves every other request attributed, since no two carry one number. */
  lemma RespondAligned(s: Ledger, k: nat, body: Option<string>)
    requires Aligned(s) && Numbered(s) && k < |s.flight|
    ensures Aligned(Responded(s, k, body).0)
  {
    var q, u := s.flight[k], Responded(s, k, body).0;
    forall h | 0 <= h < |u.flight| && u.flight[h].rid.Some?
      ensures Attributed(u.records, u.flight[h])
    {
      var l := if h < k then h else h + 1;
      assert u.flight[h] == s.flight[l] && s.flight[l].number != q.number;
      assert Attributed(s.records, s.flight[l]);
      if q.rid.Some? {
        var i := FirstMatch(s.records, q.rid.value);
        if i < |s.records| && body.Some? {
          assert Attributed(s.records, q);
          SettledMatch(s.records, i, u.records[i], s.flight[l].rid.value);
        }
      }
    }
  }

  lemma SettledMatch(rs: seq<Record>, i: nat, r: Record, rid: string)
    requires i < |rs| && r.outcome.Some? && FirstMatch(rs, rid) != i
    ensures FirstMatch(rs[i := r], rid) == FirstMatch(rs, rid)
  {
    FirstMatchIsUnique(rs[i := r], rid, FirstMatch(rs, rid));
  }

  lemma RepeatedAligned(s: Ledger, i: nat, rid: Rid, attachment: nat)
    requires Aligned(s) && i < |s.records|
    ensures Aligned(Repeated(s, i, rid, attachment).0)
  {
    var u := Repeated(s, i, rid, attachment).0;
    forall k | 0 <= k < |u.flight| && u.flight[k].rid.Some?
      ensures Attributed(u.records, u.flight[k])
    {
      assert Attributed(s.records, s.flight[k]);
      FirstMatchIsUnique(u.records, s.flight[k].rid.value, FirstMatch(s.records, s.flight[k].rid.value));
    }
  }

  /** A step keeps the ledger aligned exactly when it is careful. */
  lemma StepAlignedIff(cap: nat, s: Ledger, op: Op)
    requires Aligned(s) && Numbered(s)
    ensures Aligned(Step(cap, s, op).0) <==> Careful(cap, s, op)
  {
    match op
    case Respond(k, body) =>
      if k < |s.flight| {
        RespondAligned(s, k, body);
      }
    case Submit(sid, rid, attachment, feed) =>
      var i := Find(s.records, sid);
      if i < |s.records| {
        RepeatedAligned(s, i, rid, attachment);
      } else {
        OpenedAlignedIff(cap, s, sid, rid, feed);
      }
    case Other(rid) => ForwardAlignedIff(s, rid);
  }

  lemma StepIsNumbered(cap: nat, s: Ledger, op: Op)
    requires Numbered(s)
    ensures Numbered(Step(cap, s, op).0)
  {
    match op
    case Respond(k, body) => if k < |s.flight| { RespondIsNumbered(s, k, body); }
    case Submit(sid, rid, _, feed) => if Find(s.records, sid) == |s.records| { OpenedIsNumbered(cap, s, sid, rid, feed); }
    case Other(_) =>
  }

  lemma RespondIsNumbered(s: Ledger, k: nat, body: Option<string>)
    requires Numbered(s) && k < |s.flight|
    ensures Numbered(Responded(s, k, body).0)
  {
    forall h | 0 <= h < |s.flight| - 1
      ensures Without(s.flight, k)[h] == s.flight[if h < k then h else h + 1]
    {
      WithoutAt(s.flight, k, h);
    }
  }

  lemma OpenedIsNumbered(cap: nat, s: Ledger, sid: string, rid: Rid, feed: Feed)
    requires Numbered(s)
    ensures Numbered(Opened(cap, s, sid, rid, feed).0)
  {
    if Roomy(cap, s).Some? {
      var t := Roomy(cap, s).value;
      forall i | 0 <= i < |t.records|
        ensures t.records[i].number < s.next
      {
        if |s.records| >= cap {
          WithoutAt(s.records, FirstSettled(s.records), i);
        }
      }
    }
  }

  /** From an aligned ledger every step keeps outcomes genuine, careful or not. */
  lemma StepIsGenuine(cap: nat, s: Ledger, op: Op)
    requires Aligned(s) && Genuine(s)
    ensures Genuine(Step(cap, s, op).0)
  {
    if op.Respond? && op.k < |s.flight| {
      ResponseIsGenuineIff(s, op.k, op.body);
    }
  }

  /** A run each step of which is careful. */
  predicate CarefulRun(cap: nat, s: Ledger, ops: seq<Op>)
    decreases |ops|
  {
    ops == [] || (Careful(cap, s, ops[0]) && CarefulRun(cap, Step(cap, s, ops[0]).0, ops[1..]))
  }

  /** A run that is safe at every point. */
  ghost predicate SafeThroughout(cap: nat, s: Ledger, ops: seq<Op>)
    decreases |ops|
  {
    Safe(s) && (ops == [] || SafeThroughout(cap, Step(cap, s, ops[0]).0, ops[1..]))
  }

  lemma {:induction false} RunIsSafeFrom(cap: nat, s: Ledger, ops: seq<Op>)
    requires Aligned(s) && Numbered(s) && Genuine(s)
    ensures SafeThroughout(cap, s, ops) <==> CarefulRun(cap, s, ops)
    decreases |ops|
  {
    SafeIffAligned(s);
    if ops != [] {
      var t := Step(cap, s, ops[0]).0;
      StepAlignedIff(cap, s, ops[0]);
      StepIsNumbered(cap, s, ops[0]);
      StepIsGenuine(cap, s, ops[0]);
      SafeIffAligned(t);
      if Aligned(t) {
        RunIsSafeFrom(cap, t, ops[1..]);
      }
    }
  }

  /**
   * Over all runs: at every point every recorded outcome is the response to the original request,
   * and so is whatever the next response will record, if and only if ids are used with care.
   */
  lemma RunIsSafeIffCareful(cap: nat, ops: seq<Op>)
    ensures SafeThroughout(cap, Empty, ops) <==> CarefulRun(cap, Empty, ops)
  {
    RunIsSafeFrom(cap, Empty, ops);
  }

  /** Ids are not checked: a refused submission can take the outcome of a later request with its id. */
  lemma ReusedIdIsMisrecorded(cap: nat)
    requires cap > 0
    ensures var ops := [Submit("a", Some("1"), 0, PolicyError), Other(Some("1")), Respond(0, Some("x"))];
            !Genuine(Run(Stepper(cap), Empty, ops).0)
  {
    var step := Stepper(cap);
    var a := Submit("a", Some("1"), 0, PolicyError);
    var ops := [a, Other(Some("1")), Respond(0, Some("x"))];
    var s1 := Ledger([Record("a", Some("1"), None, [], 0)], [], 1, [Refused("a", 0)]);
    assert Opened(cap, Empty, "a", Some("1"), PolicyError).0 == s1;
    var s2 := Ledger(s1.records, [Request(1, Some("1"))], 2, s1.log);
    assert Forward(s1, Some("1")) == s2;
    var s3 := Responded(s2, 0, Some("x")).0;
    assert s3.records[0].outcome == Some(Outcome("x", 1));
    RunOfStates(step, ops, [Empty, s1, s2, s3], [step(Empty, a).1, Forwarded, step(s2, Respond(0, Some("x"))).1]);
  }

  // ------------------------------------------------------------ the object

  /** The ledger of one lease; the requests in flight and the log are kept for its contract only. */
  class SubmissionLedger {
    const cap: nat
    var records: seq<Record>
    ghost var flight: seq<Request>
    ghost var log: seq<Entry>
    var next: nat

    ghost function View(): Ledger
      reads this
    {
      Ledger(records, flight, next, log)
    }

    constructor (cap: nat)
      ensures this.cap == cap && View() == Empty
    {
      this.cap := cap;
      records, next, flight, log := [], 0, [], [];
    }

    /** Remove the oldest record with an outcome when the table is full. */
    method MakeRoom() returns (ok: bool)
      modifies this`records, this`log
      ensures ok == Roomy(cap, old(View())).Some?
      ensures View() == if ok then Roomy(cap, old(View())).value else old(View())
    {
      if |records| < cap {
        return true;
      }
      var i := 0;
      while i < |records| && records[i].outcome.None?
        invariant i <= |records|
        invariant forall j :: 0 <= j < i ==> records[j].outcome.None?
      {
        i := i + 1;
      }
      FirstIsUnique(records, i);
      if i == |records| {
        return false;
      }
      log := log + [Evicted(records[i])];
      records := records[..i] + records[i + 1..];
      ok := true;
    }

    method Submit(sid: string, rid: Rid, attachment: nat, feed: Feed) returns (reply: Reply)
      modifies this
      ensures (View(), reply) == Submitted(cap, old(View()), sid, rid, attachment, feed)
    {
      var i := Find(records, sid);
      var number := next;
      if i == |records| {
        var ok := MakeRoom();
        next := next + 1;
        if !ok {
          return Exhausted;
        }
        var before := records;
        records := records + [Record(sid, rid, None, [], number)];
        match feed
        case Accepted =>
          flight, log := flight + [Request(number, rid)], log + [Fed(sid, number)];
          return Forwarded;
        case TransportError =>
          records := before;
          return ForwardFailed(feed);
        case PolicyError =>
          log := log + [Refused(sid, number)];
          return ForwardFailed(feed);
      }
      next := next + 1;
      var record := records[i];
      if record.outcome.Some? {
        return Answered(rid, record.outcome.value);
      }
      if Waiter(rid, attachment) in record.waiters {
        return Waiting;
      }
      if |record.waiters| >= MAX_WAITERS {
        return Dropped;
      }
      records := records[i := record.(waiters := record.waiters + [Waiter(rid, attachment)])];
      reply := Waiting;
    }

    /** Attribute one response, if it has a result or an error, to the first record that waits for its id. */
    method RecordOutcome(rid: string, outcome: Option<Outcome>) returns (reply: Reply)
      modifies this`records
      ensures (View(), reply) == Recorded(old(View()), rid, outcome)
    {
      var i := 0;
      while i < |records| && !(records[i].outcome.None? && records[i].rid == Some(rid))
        invariant i <= |records|
        invariant forall j :: 0 <= j < i ==> !(records[j].outcome.None? && records[j].rid == Some(rid))
      {
        i := i + 1;
      }
      FirstMatchIsUnique(records, rid, i);
      if i == |records| || outcome.None? {
        return Unmatched;
      }
      var waiters := records[i].waiters;
      records := records[i := records[i].(outcome := outcome, waiters := [])];
      reply := Settled(waiters, outcome.value);
    }
  }

  lemma FirstIsUnique(rs: seq<Record>, i: nat)
    requires i <= |rs| && (i < |rs| ==> rs[i].outcome.Some?) && forall j :: 0 <= j < i ==> rs[j].outcome.None?
    ensures FirstSettled(rs) == i
  {
  }

  lemma FirstMatchIsUnique(rs: seq<Record>, rid: string, i: nat)
    requires i <= |rs| && (i < |rs| ==> rs[i].outcome.None? && rs[i].rid == Some(rid))
    requires forall j :: 0 <= j < i ==> !(rs[j].outcome.None? && rs[j].rid == Some(rid))
    ensures FirstMatch(rs, rid) == i
  {
  }
}
