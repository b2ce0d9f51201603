/** Runs put together from shorter runs. */
module Runs {
  import opened Protocol
  import opened Invariants

  /** A run of the service from its first start. */
  ghost predicate Reachable(states: seq<State>, actions: seq<Action>) {
    IsRun(states, actions) && states[0] == Init(states[0].cfg) && states[0].cfg.maxAttempts >= 1
  }

  /** A run from s to t. */
  ghost predicate Leads(s: State, t: State, states: seq<State>, actions: seq<Action>) {
    IsRun(states, actions) && states[0] == s && states[|actions|] == t
  }

  lemma Join(s: State, t: State, u: State, states1: seq<State>, actions1: seq<Action>,
             states2: seq<State>, actions2: seq<Action>)
    requires Leads(s, t, states1, actions1) && Leads(t, u, states2, actions2)
    ensures Leads(s, u, states1 + states2[1..], actions1 + actions2)
  {
    var ss, aa := states1 + states2[1..], actions1 + actions2;
    forall i | 0 <= i < |aa| ensures StepAt(ss, aa, i) {
      if i < |actions1| {
        FirstPart(states1, actions1, states2, actions2, i);
      } else {
        SecondPart(states1, actions1, states2, actions2, i - |actions1|);
      }
    }
  }

  lemma FirstPart(states1: seq<State>, actions1: seq<Action>, states2: seq<State>, actions2: seq<Action>, i: nat)
    requires IsRun(states1, actions1) && |states2| == |actions2| + 1 && i < |actions1|
    ensures var ss, aa := states1 + states2[1..], actions1 + actions2;
      |ss| == |aa| + 1 && i < |aa| && StepAt(ss, aa, i)
  {
    var ss, aa := states1 + states2[1..], actions1 + actions2;
    assert StepAt(states1, actions1, i);
    assert ss[i] == states1[i] && aa[i] == actions1[i] && ss[i + 1] == states1[i + 1];
  }

  lemma SecondPart(states1: seq<State>, actions1: seq<Action>, states2: seq<State>, actions2: seq<Action>, i: nat)
    requires |states1| == |actions1| + 1 && IsRun(states2, actions2)
    requires states1[|actions1|] == states2[0] && i < |actions2|
    ensures var ss, aa, m := states1 + states2[1..], actions1 + actions2, |actions1|;
      |ss| == |aa| + 1 && m + i < |aa| && StepAt(ss, aa, m + i)
  {
    var ss, aa, m := states1 + states2[1..], actions1 + actions2, |actions1|;
    assert StepAt(states2, actions2, i);
    assert ss[m + i] == states2[i] && aa[m + i] == actions2[i] && ss[m + i + 1] == states2[i + 1];
  }

  lemma OneAction(s: State, a: Action)
    requires Enabled(s, a)
    ensures Leads(s, Apply(s, a), [s, Apply(s, a)], [a])
  {
  }

  lemma Prepend(s: State, a: Action, u: State, t: State, states: seq<State>, actions: seq<Action>)
    returns (ss: seq<State>, aa: seq<Action>)
    requires Enabled(s, a) && u == Apply(s, a) && Leads(u, t, states, actions)
    ensures Leads(s, t, ss, aa) && aa == [a] + actions
  {
    OneAction(s, a);
    Join(s, u, t, [s, u], [a], states, actions);
    ss, aa := [s, u] + states[1..], [a] + actions;
  }

  /** Some run of the service from its first start ends in s. */
  ghost predicate Reached(s: State) {
    exists states, actions :: Reachable(states, actions) && Leads(states[0], s, states, actions)
  }

  lemma ReachedInit(cfg: Config)
    requires cfg.maxAttempts >= 1
    ensures Reached(Init(cfg))
  {
    assert Reachable([Init(cfg)], []) && Leads(Init(cfg), Init(cfg), [Init(cfg)], []);
  }

  lemma ReachedFurther(s: State, t: State, states: seq<State>, actions: seq<Action>)
    requires Reached(s) && Leads(s, t, states, actions)
    ensures Reached(t)
  {
    var before, steps :| Reachable(before, steps) && Leads(before[0], s, before, steps);
    Join(before[0], s, t, before, steps, states, actions);
    assert Reachable(before + states[1..], steps + actions);
  }

  lemma ReachedStep(s: State, a: Action)
    requires Reached(s) && Enabled(s, a)
    ensures Reached(Apply(s, a))
  {
    OneAction(s, a);
    ReachedFurther(s, Apply(s, a), [s, Apply(s, a)], [a]);
  }

  lemma ReachedInv(s: State)
    requires Reached(s)
    ensures Inv(s)
  {
    var states, actions :| Reachable(states, actions) && Leads(states[0], s, states, actions);
    InvHolds(states, actions, |actions|);
  }
}
