/**
  * A cell of the automaton and its two-phase update protocol: compute the
  * pending state from the neighbours' current states, then commit it.
  *
  * AbstractCell holds the state and the protocol, ConwayCell supplies the
  * rule; ConwayCell is the only concrete cell, so the two are one class here.
  */
module Cells {
  import opened ConwayRule

  class ConwayCell {
    /** The externally observable state (`aliveState`). */
    var aliveState: bool
    /** The pending state written by the compute phase (`nextState`). */
    var nextState: bool
    /** The neighbours, in the order the grid wired them. */
    var neighborhood: seq<ConwayCell>
    /** False until a neighbourhood is set (the Java field is still null). */
    var hasNeighborhood: bool
    /** Scratch list refilled by every compute phase (`states`). */
    var states: seq<bool>

    constructor (aliveAtStart: bool)
      ensures aliveState == aliveAtStart
      ensures !nextState && !hasNeighborhood && states == []
    {
      aliveState := aliveAtStart;
      nextState := false;
      neighborhood := [];
      hasNeighborhood := false;
      states := [];
    }

    /** The current state, read without changing anything. */
    function IsAlive(): (b: bool)
      reads this
      ensures b == aliveState
    {
      aliveState
    }

    /** ConwayCell's rule applied to this cell's current state; it changes no field. */
    function NextStateFromNeighborhoodState(states: seq<bool>): (r: bool)
      reads this
      ensures r <==> CountAlive(states) == 3 || (aliveState && CountAlive(states) == 2)
    {
      ConwayNext(IsAlive(), states)
    }

    /**
      * Compute phase: collects every neighbour's current state, once each and
      * in neighbourhood order, and stores the rule's verdict as the pending
      * state. No cell's current state changes.
      */
    method CalculateNextState()
      requires hasNeighborhood
      modifies this`states, this`nextState
      ensures states == old(AliveStates(neighborhood))
      ensures nextState == ConwayNext(aliveState, states)
    {
      states := [];
      var i := 0;
      while i < |neighborhood|
        invariant 0 <= i <= |neighborhood|
        invariant states == AliveStates(neighborhood[..i])
      {
        states := states + [neighborhood[i].IsAlive()];
        i := i + 1;
      }
      assert neighborhood[..i] == neighborhood;
      nextState := NextStateFromNeighborhoodState(states);
    }

    /** Commit phase: the pending state becomes the current state. */
    method UpdateState()
      modifies this`aliveState
      ensures aliveState == nextState
    {
      aliveState := nextState;
    }

    method SetAlive(aliveState: bool)
      modifies this`aliveState
      ensures IsAlive() == aliveState
    {
      this.aliveState := aliveState;
    }

    /** Stores the given neighbours; a sequence is a value, so later changes to the caller's list cannot reach it. */
    method SetNeighborhood(neighborhood: seq<ConwayCell>)
      modifies this`neighborhood, this`hasNeighborhood
      ensures this.neighborhood == neighborhood && hasNeighborhood
    {
      this.neighborhood := neighborhood;
      hasNeighborhood := true;
    }
  }

  /** The current states of a list of cells, in list order. */
  function AliveStates(cs: seq<ConwayCell>): (r: seq<bool>)
    reads cs
    ensures |r| == |cs|
  {
    seq(|cs|, k requires 0 <= k < |cs| reads cs => cs[k].aliveState)
  }

  /** No cell occurs twice in the list. */
  predicate Distinct(cs: seq<ConwayCell>) {
    forall i, j :: 0 <= i < j < |cs| ==> cs[i] != cs[j]
  }

  /**
    * A cell created alive or dead, given neighbours whose current states are
    * `neighbours`, and taken through one compute and one commit, ends in the
    * state the rule gives.
    */
  method OneCellStep(aliveAtStart: bool, neighbours: seq<bool>) returns (after: bool)
    ensures after == ConwayNext(aliveAtStart, neighbours)
  {
    var ns: seq<ConwayCell> := [];
    var k := 0;
    while k < |neighbours|
      invariant 0 <= k <= |neighbours|
      invariant |ns| == k
      invariant forall j :: 0 <= j < k ==> fresh(ns[j]) && ns[j].aliveState == neighbours[j]
    {
      var n := new ConwayCell(neighbours[k]);
      ns := ns + [n];
      k := k + 1;
    }
    assert AliveStates(ns) == neighbours;
    var c := new ConwayCell(aliveAtStart);
    c.SetNeighborhood(ns);
    c.CalculateNextState();
    c.UpdateState();
    after := c.IsAlive();
  }

  /** A fresh cell committed before any compute phase is dead: its pending state starts false. */
  method CommitBeforeCompute(aliveAtStart: bool) returns (after: bool)
    ensures !after
  {
    var c := new ConwayCell(aliveAtStart);
    c.UpdateState();
    after := c.IsAlive();
  }
}
