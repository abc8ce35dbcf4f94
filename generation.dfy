/**
  * The reference meaning of one generation: every cell's new state is the
  * rule applied to its own state and its wired neighbours' states, all read
  * from the grid as it was before the step.
  */
module Generation {
  import opened ConwayRule
  import opened Topology

  /** The entries of `s` at the given indices, in index-list order. */
  function Gather<T>(s: seq<T>, idx: seq<nat>): (r: seq<T>)
    requires forall k :: 0 <= k < |idx| ==> idx[k] < |s|
    ensures |r| == |idx|
  {
    seq(|idx|, k requires 0 <= k < |idx| => s[idx[k]])
  }

  /** One generation, from the snapshot `s` through the wiring. */
  function StepState(s: seq<bool>, wiring: seq<seq<nat>>): (r: seq<bool>)
    requires WellWired(wiring, |s|)
    ensures |r| == |s|
  {
    seq(|s|, i requires 0 <= i < |s| => ConwayNext(s[i], Gather(s, wiring[i])))
  }

  /** Cell i of a generation: the rule on cell i and the neighbours its wiring entry lists. */
  lemma StepAt(s: seq<bool>, wiring: seq<seq<nat>>, i: nat)
    requires WellWired(wiring, |s|) && i < |s|
    ensures StepState(s, wiring)[i] == ConwayNext(s[i], Gather(s, wiring[i]))
  {
  }

  /** `n` successive generations. */
  function Generations(s: seq<bool>, wiring: seq<seq<nat>>, n: nat): (r: seq<bool>)
    requires WellWired(wiring, |s|)
    ensures |r| == |s|
    decreases n
  {
    if n == 0 then s else Generations(StepState(s, wiring), wiring, n - 1)
  }

  /** n + 1 generations are one more step after n: the step loop may apply StepState last. */
  lemma {:induction false} GenerationsStep(s: seq<bool>, wiring: seq<seq<nat>>, n: nat)
    requires WellWired(wiring, |s|)
    ensures Generations(s, wiring, n + 1) == StepState(Generations(s, wiring, n), wiring)
    decreases n
  {
    if n > 0 {
      GenerationsStep(StepState(s, wiring), wiring, n - 1);
    }
  }

  predicate AllDead(s: seq<bool>) {
    forall i :: 0 <= i < |s| ==> !s[i]
  }

  /** An all-dead grid stays all-dead after any number of generations. */
  lemma {:induction false} AllDeadStaysDead(s: seq<bool>, wiring: seq<seq<nat>>, n: nat)
    requires WellWired(wiring, |s|) && AllDead(s)
    ensures AllDead(Generations(s, wiring, n))
    decreases n
  {
    if n > 0 {
      var s' := StepState(s, wiring);
      forall i | 0 <= i < |s|
        ensures !s'[i]
      {
        var g := Gather(s, wiring[i]);
        CountAliveBounds(g);
      }
      AllDeadStaysDead(s', wiring, n - 1);
    }
  }
}
