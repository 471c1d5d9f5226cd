/** Runs of deterministic step functions that consume inputs and produce outputs. */
module Machine {

  function Run<S, I, O>(step: (S, I) -> (S, O), s: S, ins: seq<I>): (r: (S, seq<O>))
    ensures |r.1| == |ins|
    decreases |ins|
  {
    if ins == [] then (s, [])
    else
      var (s', o) := step(s, ins[0]);
      var (end, outs) := Run(step, s', ins[1..]);
      (end, [o] + outs)
  }

  /** A run of two lists of inputs is the run of the first followed by the run of the second. */
  lemma {:induction false} RunAppend<S, I, O>(step: (S, I) -> (S, O), s: S, a: seq<I>, b: seq<I>)
    ensures var (mid, outs) := Run(step, s, a);
            var (end, more) := Run(step, mid, b);
            Run(step, s, a + b) == (end, outs + more)
    decreases |a|
  {
    if a == [] {
      assert a + b == b;
      assert Run(step, s, a).1 + Run(step, s, b).1 == Run(step, s, b).1;
    } else {
      var (s', o) := step(s, a[0]);
      assert (a + b)[0] == a[0] && (a + b)[1..] == a[1..] + b;
      RunAppend(step, s', a[1..], b);
      var (mid, outs) := Run(step, s', a[1..]);
      assert [o] + (outs + Run(step, mid, b).1) == ([o] + outs) + Run(step, mid, b).1;
    }
  }

  lemma RunOne<S, I, O>(step: (S, I) -> (S, O), s: S, i: I)
    ensures Run(step, s, [i]) == (step(s, i).0, [step(s, i).1])
  {
    var ins := [i];
    assert ins[0] == i && ins[1..] == [];
    assert [step(s, i).1] + [] == [step(s, i).1];
  }

  /** A run is determined by a list of states that agrees with every step. */
  lemma {:induction false} RunOfStates<S, I, O>(step: (S, I) -> (S, O), ins: seq<I>, states: seq<S>, outs: seq<O>)
    requires |states| == |ins| + 1 && |outs| == |ins|
    requires forall i {:trigger ins[i]} :: 0 <= i < |ins| ==> step(states[i], ins[i]) == (states[i + 1], outs[i])
    ensures Run(step, states[0], ins) == (states[|ins|], outs)
    decreases |ins|
  {
    if ins != [] {
      forall i | 0 <= i < |ins| - 1
        ensures step(states[1..][i], ins[1..][i]) == (states[1..][i + 1], outs[1..][i])
      {
        assert ins[1..][i] == ins[i + 1];
      }
      assert step(states[0], ins[0]) == (states[1], outs[0]);
      RunOfStates(step, ins[1..], states[1..], outs[1..]);
      assert outs == [outs[0]] + outs[1..];
    } else {
      assert outs == [];
    }
  }

  /** Whatever holds at first and is kept by every step holds after every run. */
  lemma {:induction false} RunInvariant<S(!new), I(!new), O>(step: (S, I) -> (S, O), inv: S -> bool, s: S, ins: seq<I>)
    requires inv(s)
    requires forall t: S, i: I {:trigger step(t, i)} :: inv(t) ==> inv(step(t, i).0)
    ensures inv(Run(step, s, ins).0)
    decreases |ins|
  {
    if ins != [] {
      RunInvariant(step, inv, step(s, ins[0]).0, ins[1..]);
    }
  }
}
