/**
 * Send pacing of the shared host socket. Time is real-valued; each attempt to send reports the
 * clock readings that the program takes, and the surroundings promise only that the clock never
 * goes back and that a sleep lasts at least as long as asked.
 */
module Pacing {
  import opened Machine

  const CONNECTION_ID_BYTES := 8
  const MAX_CIPHERTEXT_RECORD_BYTES := 65535

  /** The router's limits for each window of ten seconds. */
  const ROUTER_MESSAGES := 2000
  const ROUTER_BYTES := 25_000_000

  /** How long the socket rests after a frame: nine tenths of both rates. */
  function Gap(size: nat): (g: real)
    ensures g * 180.0 >= 1.0 && g * 2_250_000.0 >= size as real
  {
    var byCount, byBytes := 10.0 / 1800.0, size as real * 10.0 / 22_500_000.0;
    if byCount >= byBytes then byCount else byBytes
  }

  /** The rest is no longer than that: any other that covers both rates is at least as long. */
  lemma GapIsLeast(size: nat, g: real)
    requires g * 180.0 >= 1.0 && g * 2_250_000.0 >= size as real
    ensures Gap(size) <= g
  {
  }

  /** A completed send: the clock reading after it, and its size with the connection id. */
  datatype Sent = Sent(time: real, size: nat)

  /** The clock reading before the wait, after it and after the send; whether it went out is up to the connection. */
  datatype Attempt = Attempt(size: nat, before: real, woke: real, done: real, goes: bool)

  datatype State = State(next: real, clock: real, log: seq<Sent>)

  const Initial := State(0.0, 0.0, [])

  /** A clock that never goes back, and a sleep no shorter than asked. */
  predicate Honest(s: State, a: Attempt) {
    && s.clock <= a.before <= a.woke <= a.done
    && (s.next - a.before > 0.0 ==> a.woke - a.before >= s.next - a.before)
  }

  function Step(s: State, a: Attempt): State {
    if a.goes then State(a.done + Gap(a.size), a.done, s.log + [Sent(a.done, a.size)])
    else s.(clock := a.done)
  }

  function Stepper(): (State, Attempt) -> (State, ()) {
    (s, a) => (Step(s, a), ())
  }

  /** Every attempt of a run meets the promise of its surroundings. */
  predicate HonestRun(s: State, run: seq<Attempt>)
    decreases |run|
  {
    run != [] ==> Honest(s, run[0]) && HonestRun(Step(s, run[0]), run[1..])
  }

  /** A stretch of time has room for a number of sends and of bytes at nine tenths of the router's rates. */
  ghost predicate Room(time: real, count: nat, bytes: nat) {
    time * 180.0 >= count as real && time * 2_250_000.0 >= bytes as real
  }

  /** Between a send and the next there is room for the first. */
  ghost predicate Apart(x: Sent, y: Sent) {
    Room(y.time - x.time, 1, x.size)
  }

  lemma GapIsRoom(x: Sent, y: Sent)
    requires y.time >= x.time + Gap(x.size)
    ensures Apart(x, y)
  {
  }

  ghost predicate SpacedLog(log: seq<Sent>) {
    forall i {:trigger log[i]} :: 0 < i < |log| ==> Apart(log[i - 1], log[i])
  }

  ghost predicate Spaced(s: State) {
    && SpacedLog(s.log)
    && (s.log != [] ==> var last := s.log[|s.log| - 1]; s.next == last.time + Gap(last.size) && last.time <= s.clock)
  }

  lemma StepIsSpaced(s: State, a: Attempt)
    requires Spaced(s) && Honest(s, a)
    ensures Spaced(Step(s, a))
  {
    var t := Step(s, a);
    forall i | 0 < i < |t.log| ensures Apart(t.log[i - 1], t.log[i]) {
      if i < |s.log| {
        assert t.log[i] == s.log[i] && t.log[i - 1] == s.log[i - 1];
      } else {
        GapIsRoom(t.log[i - 1], t.log[i]);
      }
    }
  }

  lemma {:induction false} RunIsSpaced(s: State, run: seq<Attempt>)
    requires Spaced(s) && HonestRun(s, run)
    ensures Spaced(Run(Stepper(), s, run).0)
    decreases |run|
  {
    if run != [] {
      StepIsSpaced(s, run[0]);
      RunIsSpaced(Step(s, run[0]), run[1..]);
    }
  }

  function Total(log: seq<Sent>): (n: nat)
  {
    if log == [] then 0 else Total(log[..|log| - 1]) + log[|log| - 1].size
  }

  lemma RoomAdds(t: real, u: real, m: nat, n: nat, a: nat, b: nat)
    requires Room(t, m, a) && Room(u, n, b)
    ensures Room(t + u, m + n, a + b)
  {
  }

  /** Between two sends there is room for what was sent from the first up to the second. */
  lemma {:induction false} Elapsed(log: seq<Sent>, i: nat, j: nat)
    requires SpacedLog(log) && i <= j < |log|
    ensures Room(log[j].time - log[i].time, j - i, Total(log[i..j]))
    decreases j - i
  {
    if i < j {
      Elapsed(log, i, j - 1);
      var x := log[j - 1];
      assert Apart(log[j - 1], log[j]);
      TotalSnoc(log, i, j);
      var t, u := x.time - log[i].time, log[j].time - x.time;
      RoomAdds(t, u, j - 1 - i, 1, Total(log[i..j - 1]), x.size);
      assert t + u == log[j].time - log[i].time;
    }
  }

  lemma TotalSnoc(log: seq<Sent>, i: nat, j: nat)
    requires i < j <= |log|
    ensures Total(log[i..j]) == Total(log[i..j - 1]) + log[j - 1].size
  {
    assert log[i..j][..j - 1 - i] == log[i..j - 1];
  }

  ghost predicate Rising(log: seq<Sent>) {
    forall i, j :: 0 <= i < j < |log| ==> log[i].time < log[j].time
  }

  lemma SpacedIsRising(log: seq<Sent>)
    requires SpacedLog(log)
    ensures Rising(log)
  {
    forall i, j | 0 <= i < j < |log| ensures log[i].time < log[j].time {
      Elapsed(log, i, j);
    }
  }

  predicate InWindow(x: Sent, from: real) {
    from <= x.time <= from + 10.0
  }

  /** The sends of a log that complete within the ten seconds that begin at an instant. */
  function Window(log: seq<Sent>, from: real): (w: seq<Sent>)
  {
    if log == [] then []
    else
      Window(log[..|log| - 1], from) + (if InWindow(log[|log| - 1], from) then [log[|log| - 1]] else [])
  }

  lemma SliceSnoc(log: seq<Sent>, lo: nat, n: nat)
    requires lo < n <= |log|
    ensures log[lo..n - 1] + [log[n - 1]] == log[lo..n]
  {
  }

  /** A window is a contiguous part of the log. */
  lemma {:induction false} WindowIsSlice(log: seq<Sent>, from: real, n: nat) returns (lo: nat, hi: nat)
    requires Rising(log) && n <= |log|
    ensures lo <= hi <= n && Window(log[..n], from) == log[lo..hi]
    ensures lo < hi ==> InWindow(log[lo], from) && InWindow(log[hi - 1], from) && (hi < n ==> log[hi].time > from + 10.0)
    decreases n
  {
    if n == 0 {
      lo, hi := 0, 0;
    } else {
      lo, hi := WindowIsSlice(log, from, n - 1);
      assert log[..n][..n - 1] == log[..n - 1];
      if InWindow(log[n - 1], from) {
        if lo == hi {
          lo, hi := n - 1, n - 1;
        }
        assert hi == n - 1;
        SliceSnoc(log, lo, n);
        hi := n;
      }
    }
  }

  /**
   * In every run, whatever the devices and their order, the sends that complete in any window of
   * ten seconds number at most 1801, and but for the last of them they total at most 22,500,000 bytes.
   */
  lemma AnyWindowIsPaced(run: seq<Attempt>, from: real)
    requires HonestRun(Initial, run)
    ensures var w := Window(Run(Stepper(), Initial, run).0.log, from);
            |w| <= 1801 && (w != [] ==> Total(w) <= 22_500_000 + w[|w| - 1].size)
  {
    RunIsSpaced(Initial, run);
    WindowIsPaced(Run(Stepper(), Initial, run).0.log, from);
  }

  lemma WindowIsPaced(log: seq<Sent>, from: real)
    requires SpacedLog(log)
    ensures var w := Window(log, from); |w| <= 1801 && (w != [] ==> Total(w) <= 22_500_000 + w[|w| - 1].size)
  {
    SpacedIsRising(log);
    assert log[..|log|] == log;
    var lo, hi := WindowIsSlice(log, from, |log|);
    assert Window(log, from) == log[lo..hi];
    if lo < hi {
      SameWindow(log[lo].time, log[hi - 1].time, from);
      SliceIsPaced(log, lo, hi);
    }
  }

  lemma SameWindow(a: real, b: real, from: real)
    requires from <= a && b <= from + 10.0
    ensures b - a <= 10.0
  {
  }

  lemma SliceIsPaced(log: seq<Sent>, lo: nat, hi: nat)
    requires SpacedLog(log) && lo < hi <= |log| && log[hi - 1].time - log[lo].time <= 10.0
    ensures var w := log[lo..hi]; |w| <= 1801 && Total(w) <= 22_500_000 + w[|w| - 1].size
  {
    Elapsed(log, lo, hi - 1);
    TenSeconds(log[hi - 1].time - log[lo].time, hi - 1 - lo, Total(log[lo..hi - 1]));
    assert log[lo..hi][..hi - lo - 1] == log[lo..hi - 1];
  }

  lemma TenSeconds(time: real, count: nat, bytes: nat)
    requires Room(time, count, bytes) && time <= 10.0
    ensures count <= 1800 && bytes <= 22_500_000
  {
  }

  lemma {:induction false} MembersOfWindow(log: seq<Sent>, from: real)
    ensures forall x :: x in Window(log, from) ==> x in log
    decreases |log|
  {
    if log != [] {
      MembersOfWindow(log[..|log| - 1], from);
    }
  }

  /** So, with records no longer than a Noise message, the router's limits are never reached. */
  lemma RouterLimitsHold(run: seq<Attempt>, from: real)
    requires HonestRun(Initial, run)
    requires forall x :: x in Run(Stepper(), Initial, run).0.log ==> x.size <= CONNECTION_ID_BYTES + MAX_CIPHERTEXT_RECORD_BYTES
    ensures var w := Window(Run(Stepper(), Initial, run).0.log, from); |w| < ROUTER_MESSAGES && Total(w) < ROUTER_BYTES
  {
    AnyWindowIsPaced(run, from);
    MembersOfWindow(Run(Stepper(), Initial, run).0.log, from);
  }
}
