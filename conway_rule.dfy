/**
  * The transition rule of ConwayCell: a live cell survives with exactly 2 or 3
  * live neighbours, a dead cell is born with exactly 3.
  */
module ConwayRule {

  /** Number of `true` entries of a list of neighbour states (the counting loop of the rule). */
  function CountAlive(states: seq<bool>): (n: nat)
  {
    if states == [] then 0
    else CountAlive(states[..|states| - 1]) + (if states[|states| - 1] then 1 else 0)
  }

  /** The count never exceeds the list length, and it is 0 exactly when no entry is `true`. */
  lemma {:induction false} CountAliveBounds(states: seq<bool>)
    ensures CountAlive(states) <= |states|
    ensures CountAlive(states) == 0 <==> forall k :: 0 <= k < |states| ==> !states[k]
  {
    if states != [] {
      var init := states[..|states| - 1];
      CountAliveBounds(init);
      if CountAlive(states) == 0 {
        forall k | 0 <= k < |states|
          ensures !states[k]
        {
          if k < |init| {
            assert states[k] == init[k];
          }
        }
      }
    }
  }

  /**
    * The rule as ConwayCell applies it: `alive` is the cell's own current
    * state, `states` the states of its neighbours in neighbourhood order.
    */
  function ConwayNext(alive: bool, states: seq<bool>): (r: bool)
    ensures r ==> CountAlive(states) == 2 || CountAlive(states) == 3
    ensures CountAlive(states) == 3 ==> r
  {
    var total := CountAlive(states);
    if alive then total == 2 || total == 3 else total == 3
  }

  /** The four cases of the rule, each as an if-and-only-if. */
  lemma RuleCases(alive: bool, states: seq<bool>)
    ensures alive ==> (ConwayNext(alive, states) <==> CountAlive(states) == 2 || CountAlive(states) == 3)
    ensures alive && (CountAlive(states) <= 1 || CountAlive(states) >= 4) ==> !ConwayNext(alive, states)
    ensures !alive ==> (ConwayNext(alive, states) <==> CountAlive(states) == 3)
    ensures !alive && CountAlive(states) != 3 ==> !ConwayNext(alive, states)
  {
  }

  /** Counting distributes over concatenation. */
  lemma {:induction false} CountAliveAppend(a: seq<bool>, b: seq<bool>)
    ensures CountAlive(a + b) == CountAlive(a) + CountAlive(b)
    decreases |b|
  {
    if b == [] {
      assert a + b == a;
    } else {
      var b' := b[..|b| - 1];
      assert (a + b)[..|a + b| - 1] == a + b';
      CountAliveAppend(a, b');
      assert b[..|b| - 1] == b';
    }
  }

  /** The count is the multiplicity of `true`: it does not depend on the order of the list. */
  lemma {:induction false} CountAliveIsMultiplicity(states: seq<bool>)
    ensures CountAlive(states) == multiset(states)[true]
  {
    if states != [] {
      var init := states[..|states| - 1];
      assert states == init + [states[|states| - 1]];
      CountAliveIsMultiplicity(init);
    }
  }

  /**
    * The rule's result depends only on the cell's own state and on how many
    * neighbour states are `true`: reordering the list, or adding dead
    * neighbours to it, changes nothing.
    */
  lemma RuleIgnoresOrder(alive: bool, a: seq<bool>, b: seq<bool>)
    requires multiset(a) == multiset(b)
    ensures ConwayNext(alive, a) == ConwayNext(alive, b)
  {
    CountAliveIsMultiplicity(a);
    CountAliveIsMultiplicity(b);
  }

  lemma RuleIgnoresDeadNeighbours(alive: bool, a: seq<bool>, k: nat)
    ensures ConwayNext(alive, a + seq(k, _ => false)) == ConwayNext(alive, a)
  {
    CountAliveAppend(a, seq(k, _ => false));
    CountAliveBounds(seq(k, _ => false));
  }
}
