/**
  * The rectangular wraparound automaton (AbstractRectangularWraparoundAutomata
  * and its two engines). The grid owns width * height distinct cells stored
  * row-major; the constructor wires every cell to its neighbours through the
  * offset table of the chosen neighbourhood type. One update is a compute
  * phase over every cell followed by a commit phase over every cell, either
  * in one pass (SingleThreadRWAutomata) or slice by slice (ForkJoinRWAutomata,
  * whose updaters are taken here in slice order, all computes before all
  * commits, as its barrier enforces).
  */
module Automata {
  import opened JavaBase
  import opened ConwayRule
  import opened Cells
  import opened ConwayCellFactory
  import opened Topology
  import opened Generation
  import opened Partition

  /** Which subclass's update runs: the single-thread loops, or the barrier engine with its slices. */
  datatype Engine = SingleThread | BarrierPool(slices: seq<Slice>)

  /** Cells whose current states are s show, at the given indices, the entries of s at those indices. */
  lemma GatherCells(cells: seq<ConwayCell>, idx: seq<nat>, s: seq<bool>)
    requires |s| == |cells| && forall k :: 0 <= k < |idx| ==> idx[k] < |cells|
    requires forall j :: 0 <= j < |cells| ==> cells[j].aliveState == s[j]
    ensures AliveStates(Gather(cells, idx)) == Gather(s, idx)
  {
  }

  /** How far the first s slices reach: the end of slice s - 1, or 0 before any slice. */
  function Reached(slices: seq<Slice>, s: nat): nat
    requires s <= |slices|
  {
    if s == 0 then 0 else slices[s - 1].hi
  }

  class RectangularWraparoundAutomata {
    const width: nat
    const height: nat
    const neighborhoodType: NeighborhoodType
    /** The final cell list: its length and members never change, only the cells' fields do. */
    const cells: seq<ConwayCell>
    const engine: Engine
    /** Entry i lists the indices of cell i's neighbours, in offset-table order. */
    ghost const wiring: seq<seq<nat>>
    /** The barrier engine's fail-safe flag; only ShutDown clears it. */
    var isOkay: bool

    /**
      * The grid holds width * height distinct cells, and cell i's
      * neighbourhood is exactly the cells listed by the wiring for i.
      */
    ghost predicate Valid()
      reads cells
    {
      Shape() && Wired()
    }

    /** The parts of Valid that no field update can change. */
    ghost predicate Shape() {
      |cells| == width * height &&
      Distinct(cells) &&
      WellWired(wiring, |cells|) &&
      (engine.BarrierPool? ==> Partitions(engine.slices, |cells|))
    }

    /** Every cell holds the neighbourhood its wiring entry lists. */
    ghost predicate Wired()
      reads cells
      requires Shape()
    {
      forall i :: 0 <= i < |cells| ==>
        cells[i].hasNeighborhood && cells[i].neighborhood == Gather(cells, wiring[i])
    }

    /** The grid's current states, in index order. */
    ghost function State(): (s: seq<bool>)
      reads cells
      ensures |s| == |cells|
    {
      AliveStates(cells)
    }

    /** Whether an update makes progress: always for the single-thread engine, while isOkay for the barrier engine. */
    predicate Advances()
      reads this
    {
      engine.SingleThread? || isOkay
    }

    /**
      * Creates width * height dead cells from the factory and wires each one
      * through the offset table of the neighbourhood type.
      */
    constructor (width: nat, height: nat, neighborhoodType: NeighborhoodType, engine: Engine)
      requires engine.BarrierPool? ==> Partitions(engine.slices, width * height)
      ensures Valid() && wiring == Wiring(width, height, neighborhoodType)
      ensures this.width == width && this.height == height
      ensures this.neighborhoodType == neighborhoodType && this.engine == engine
      ensures AllDead(State()) && isOkay
      ensures forall i :: 0 <= i < |cells| ==> fresh(cells[i])
    {
      this.width := width;
      this.height := height;
      this.neighborhoodType := neighborhoodType;
      this.engine := engine;
      var created := CreateCells(width * height);
      cells := created;
      wiring := Wiring(width, height, neighborhoodType);
      isOkay := true;
      new;
      WiringShape(width, height, neighborhoodType);
      var deltas := Deltas(neighborhoodType);
      var i := 0;
      while i < height * width
        invariant 0 <= i <= |cells| && isOkay
        invariant forall j :: 0 <= j < |cells| ==> fresh(cells[j]) && !cells[j].aliveState
        invariant forall j :: 0 <= j < i ==>
          cells[j].hasNeighborhood && cells[j].neighborhood == Gather(cells, wiring[j])
      {
        InitNeighborhood(i, deltas);
        i := i + 1;
      }
    }

    /** Cell i of the list. */
    function CellAt(i: nat): ConwayCell
      requires i < |cells|
    {
      cells[i]
    }

    /** Gives cell ownIndex the neighbours at the table's offsets, in table order (duplicates kept). */
    method InitNeighborhood(ownIndex: nat, deltas: seq<seq<int>>)
      requires |cells| == width * height && Distinct(cells) && ownIndex < |cells|
      requires wiring == Wiring(width, height, neighborhoodType) && deltas == Deltas(neighborhoodType)
      modifies CellAt(ownIndex)`neighborhood, CellAt(ownIndex)`hasNeighborhood
      ensures cells[ownIndex].hasNeighborhood
      ensures cells[ownIndex].neighborhood == Gather(cells, wiring[ownIndex])
    {
      WiringShape(width, height, neighborhoodType);
      var neighborhood: seq<ConwayCell> := [];
      var k := 0;
      while k < |deltas[0]|
        invariant 0 <= k <= |deltas[0]|
        invariant neighborhood == Gather(cells, wiring[ownIndex][..k])
      {
        var neighbor := GetNeighbor(width, height, ownIndex, deltas[0][k], deltas[1][k]);
        neighborhood := neighborhood + [cells[neighbor.value]];
        k := k + 1;
      }
      assert wiring[ownIndex][..k] == wiring[ownIndex];
      cells[ownIndex].SetNeighborhood(neighborhood);
    }

    /**
      * Sets cell i's state to states[i] for every i; a list whose length is
      * not width * height is refused before any cell changes.
      */
    method InitAutomata(states: seq<bool>) returns (o: Outcome)
      requires Valid()
      modifies cells
      ensures Valid()
      ensures |states| != width * height ==> o == Fail(IllegalArgument) && State() == old(State())
      ensures |states| == width * height ==> o == Pass && State() == states
    {
      if |states| != width * height {
        return Fail(IllegalArgument);
      }
      var i := 0;
      while i < width * height
        invariant 0 <= i <= |cells|
        invariant Valid()
        invariant forall j :: 0 <= j < i ==> cells[j].aliveState == states[j]
      {
        cells[i].SetAlive(states[i]);
        i := i + 1;
      }
      return Pass;
    }

    /** The current states, one per cell in index order; nothing changes. */
    method GetCurrentState() returns (states: seq<bool>)
      ensures |states| == |cells|
      ensures forall i :: 0 <= i < |cells| ==> states[i] == cells[i].IsAlive()
    {
      states := [];
      var i := 0;
      while i < |cells|
        invariant 0 <= i <= |cells|
        invariant |states| == i
        invariant forall j :: 0 <= j < i ==> states[j] == cells[j].IsAlive()
      {
        states := states + [cells[i].IsAlive()];
        i := i + 1;
      }
    }

    /** [width, height]. */
    function GetDimensions(): (dims: seq<int>)
      ensures |dims| == 2 && dims[0] == width && dims[1] == height
    {
      [width, height]
    }

    /**
      * The compute loop over cells lo..hi-1: each of them gets as its pending
      * state the rule's verdict on the grid state `before`, which the cells
      * show; no current state changes, and the other cells' pending states
      * are kept.
      */
    method ComputeRange(lo: nat, hi: nat, ghost before: seq<bool>)
      requires Valid() && lo <= hi <= |cells| && Shows(before)
      modifies cells
      ensures Valid() && Shows(before)
      ensures forall j :: lo <= j < hi ==> cells[j].nextState == StepState(before, wiring)[j]
      ensures forall j :: 0 <= j < |cells| && !(lo <= j < hi) ==> cells[j].nextState == old(cells[j].nextState)
    {
      var i := lo;
      while i < hi
        invariant lo <= i <= hi
        invariant Shows(before)
        invariant forall j :: 0 <= j < |cells| ==>
          cells[j].neighborhood == old(cells[j].neighborhood) && cells[j].hasNeighborhood == old(cells[j].hasNeighborhood)
        invariant forall j :: lo <= j < i ==> cells[j].nextState == StepState(before, wiring)[j]
        invariant forall j :: 0 <= j < |cells| && !(lo <= j < i) ==> cells[j].nextState == old(cells[j].nextState)
      {
        ComputeCell(i, before);
        i := i + 1;
      }
    }

    /** The current states are the entries of s. */
    ghost predicate Shows(s: seq<bool>)
      reads cells
    {
      |s| == |cells| && forall j :: 0 <= j < |cells| ==> cells[j].aliveState == s[j]
    }

    /** calculateNextState on cell i: its pending state becomes the rule's verdict on the grid state `before`. */
    method ComputeCell(i: nat, ghost before: seq<bool>)
      requires Shape() && i < |cells| && Shows(before)
      requires cells[i].hasNeighborhood && cells[i].neighborhood == Gather(cells, wiring[i])
      modifies CellAt(i)`nextState, CellAt(i)`states
      ensures cells[i].nextState == StepState(before, wiring)[i]
    {
      GatherCells(cells, wiring[i], before);
      StepAt(before, wiring, i);
      cells[i].CalculateNextState();
    }

    /** The commit loop over cells lo..hi-1: each of them takes its pending state; the other cells keep theirs. */
    method CommitRange(lo: nat, hi: nat)
      requires Valid() && lo <= hi <= |cells|
      modifies cells
      ensures Valid()
      ensures forall j :: 0 <= j < |cells| ==> cells[j].nextState == old(cells[j].nextState)
      ensures forall j :: lo <= j < hi ==> cells[j].aliveState == old(cells[j].nextState)
      ensures forall j :: 0 <= j < |cells| && !(lo <= j < hi) ==> cells[j].aliveState == old(cells[j].aliveState)
    {
      var i := lo;
      while i < hi
        invariant lo <= i <= hi
        invariant Valid()
        invariant forall j :: 0 <= j < |cells| ==> cells[j].nextState == old(cells[j].nextState)
        invariant forall j :: lo <= j < i ==> cells[j].aliveState == old(cells[j].nextState)
        invariant forall j :: 0 <= j < |cells| && !(lo <= j < i) ==> cells[j].aliveState == old(cells[j].aliveState)
      {
        cells[i].UpdateState();
        i := i + 1;
      }
    }

    /** SingleThreadRWAutomata.updateAutomata: compute every cell, then commit every cell. */
    method UpdateSingleThread()
      requires Valid()
      modifies cells
      ensures Valid() && State() == StepState(old(State()), wiring)
    {
      ghost var before := State();
      ComputeRange(0, |cells|, before);
      CommitRange(0, |cells|);
    }

    /**
      * ForkJoinRWAutomata.updateAutomata with its updaters sequentialised:
      * nothing happens once the engine is shut down; otherwise every slice
      * computes, then every slice commits, and the grid ends exactly where
      * the single-thread step takes it.
      */
    method UpdateForkJoin()
      requires Valid() && engine.BarrierPool?
      modifies cells
      ensures Valid()
      ensures isOkay ==> State() == StepState(old(State()), wiring)
      ensures !isOkay ==> forall j :: 0 <= j < |cells| ==> unchanged(cells[j])
    {
      if !isOkay {
        return;
      }
      ghost var before := State();
      ComputeEverySlice(before);
      CommitEverySlice();
    }

    /** The updaters' compute phases, slice after slice. */
    method ComputeEverySlice(ghost before: seq<bool>)
      requires Valid() && engine.BarrierPool? && Shows(before)
      modifies cells
      ensures Valid() && Shows(before)
      ensures forall j :: 0 <= j < |cells| ==> cells[j].nextState == StepState(before, wiring)[j]
    {
      var slices := engine.slices;
      var s := 0;
      while s < |slices|
        invariant 0 <= s <= |slices|
        invariant Reached(slices, s) <= |cells|
        invariant Valid() && Shows(before)
        invariant forall j :: 0 <= j < Reached(slices, s) ==> cells[j].nextState == StepState(before, wiring)[j]
      {
        SliceInside(s);
        ComputeRange(slices[s].lo, slices[s].hi, before);
        s := s + 1;
      }
    }

    /** The updaters' commit phases, slice after slice. */
    method CommitEverySlice()
      requires Valid() && engine.BarrierPool?
      modifies cells
      ensures Valid()
      ensures forall j :: 0 <= j < |cells| ==>
        cells[j].aliveState == old(cells[j].nextState) && cells[j].nextState == old(cells[j].nextState)
    {
      var slices := engine.slices;
      var s := 0;
      while s < |slices|
        invariant 0 <= s <= |slices|
        invariant Reached(slices, s) <= |cells|
        invariant Valid()
        invariant forall j :: 0 <= j < |cells| ==> cells[j].nextState == old(cells[j].nextState)
        invariant forall j :: 0 <= j < Reached(slices, s) ==> cells[j].aliveState == old(cells[j].nextState)
      {
        SliceInside(s);
        CommitRange(slices[s].lo, slices[s].hi);
        s := s + 1;
      }
    }

    /** Slice s starts where the earlier slices end and stays inside the grid. */
    lemma SliceInside(s: nat)
      requires Valid() && engine.BarrierPool? && s < |engine.slices|
      ensures engine.slices[s].lo == Reached(engine.slices, s)
      ensures engine.slices[s].lo <= engine.slices[s].hi <= |cells|
    {
      var last := |engine.slices| - 1;
      if s < last {
        PartitionOrdered(engine.slices, |cells|, s, last);
      }
    }

    /** Stops the barrier engine for good: later updates leave every cell untouched. */
    method ShutDown()
      requires engine.BarrierPool?
      modifies this`isOkay
      ensures !isOkay
    {
      isOkay := false;
    }

    /** updateAutomata of whichever engine the automaton was built with. */
    method UpdateAutomata()
      requires Valid()
      modifies cells
      ensures Valid()
      ensures Advances() ==> State() == StepState(old(State()), wiring)
      ensures !Advances() ==> State() == old(State())
    {
      match engine
      case SingleThread =>
        UpdateSingleThread();
      case BarrierPool(_) =>
        UpdateForkJoin();
    }
  }

  /** new SingleThreadRWAutomata(width, height, new ConwayCellFactory(), neighborhoodType). */
  method NewSingleThreadAutomata(width: int, height: int, neighborhoodType: NeighborhoodType)
    returns (r: Result<RectangularWraparoundAutomata>)
    ensures r.Failure? <==> width < 0 || height < 0
    ensures r.Failure? ==> r.error == IllegalArgument
    ensures r.Success? ==> fresh(r.value) && r.value.Valid() && r.value.engine == SingleThread
    ensures r.Success? ==> r.value.neighborhoodType == neighborhoodType && r.value.wiring == Wiring(width, height, neighborhoodType)
    ensures r.Success? ==> forall i :: 0 <= i < |r.value.cells| ==> fresh(r.value.cells[i])
    ensures r.Success? ==> r.value.GetDimensions() == [width, height] && AllDead(r.value.State())
  {
    if width < 0 || height < 0 {
      return Failure(IllegalArgument);
    }
    var a := new RectangularWraparoundAutomata(width, height, neighborhoodType, SingleThread);
    return Success(a);
  }

  /**
    * new ForkJoinRWAutomata(width, height, new ConwayCellFactory(),
    * neighborhoodType, threadsNumber): the grid checks come first, then the
    * thread count (barrier creation with threadsNumber + 1 parties in int
    * arithmetic, then the share division).
    */
  method NewForkJoinAutomata(width: int, height: int, neighborhoodType: NeighborhoodType, threadsNumber: int)
    returns (r: Result<RectangularWraparoundAutomata>)
    requires IsInt(threadsNumber)
    ensures r.Success? <==> width >= 0 && height >= 0 && 1 <= threadsNumber < INT_MAX
    ensures (width < 0 || height < 0 || threadsNumber < 0 || threadsNumber == INT_MAX) ==> r == Failure(IllegalArgument)
    ensures width >= 0 && height >= 0 && threadsNumber == 0 ==> r == Failure(DivisionByZero)
    ensures r.Success? ==> fresh(r.value) && r.value.Valid() && r.value.isOkay
    ensures r.Success? ==> r.value.neighborhoodType == neighborhoodType && r.value.wiring == Wiring(width, height, neighborhoodType)
    ensures r.Success? ==> forall i :: 0 <= i < |r.value.cells| ==> fresh(r.value.cells[i])
    ensures r.Success? ==> r.value.engine == BarrierPool(SliceTable(width * height, threadsNumber))
    ensures r.Success? ==> r.value.GetDimensions() == [width, height] && AllDead(r.value.State())
  {
    if width < 0 || height < 0 {
      return Failure(IllegalArgument);
    }
    var slices := ComputeSlices(width * height, threadsNumber);
    if slices.Failure? {
      return Failure(slices.error);
    }
    SliceTablePartitions(width * height, threadsNumber);
    var a := new RectangularWraparoundAutomata(width, height, neighborhoodType, BarrierPool(slices.value));
    return Success(a);
  }
}
