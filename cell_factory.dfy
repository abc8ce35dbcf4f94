/** ConwayCellFactory: produces initially dead Conway cells. */
module ConwayCellFactory {
  import opened Cells

  /** A cell as the factory hands it out: dead, nothing pending, not yet wired. */
  ghost predicate Pristine(c: ConwayCell)
    reads c
  {
    !c.aliveState && !c.nextState && !c.hasNeighborhood
  }

  method CreateCell() returns (c: ConwayCell)
    ensures fresh(c) && Pristine(c)
  {
    c := new ConwayCell(false);
  }

  /**
    * `amount` new cells, each freshly allocated and distinct from the others;
    * a negative amount gives an empty list, since the loop never runs.
    */
  method CreateCells(amount: int) returns (cells: seq<ConwayCell>)
    ensures |cells| == if amount < 0 then 0 else amount
    ensures Distinct(cells)
    ensures forall i :: 0 <= i < |cells| ==> fresh(cells[i]) && Pristine(cells[i])
  {
    cells := [];
    var i := 0;
    while i < amount
      invariant |cells| == if i < 0 then 0 else i
      invariant i <= (if amount < 0 then 0 else amount)
      invariant 0 <= i
      invariant Distinct(cells)
      invariant forall j :: 0 <= j < |cells| ==> fresh(cells[j]) && Pristine(cells[j])
    {
      var c := CreateCell();
      cells := cells + [c];
      i := i + 1;
    }
  }
}
